/**
  The fragment pipeline of src/Element/Text.tsx: the four extraction passes,
  `transformText`, which runs them in a fixed order, and the paragraph and
  list-item renderers that wrap its result.
*/
module Pipeline {
  import opened Wrappers
  import opened Strings
  import opened Fragments
  import opened References

  /**
    What the `Text` component closes over: the author passed to every
    hyperlink, the four `split` regexes from `Const`, and the `Util` helpers.
  */
  datatype Context = Context(
    creator: string,
    urlSplit: Splitter,
    mentionSplit: Splitter,
    invoiceSplit: Splitter,
    hashtagSplit: Splitter,
    util: Util)

  /** The block's child fragments and the post's tags (`tags?.` allows them to be absent). */
  datatype TextFragment = TextFragment(body: seq<Frag>, tags: Option<seq<Tag>>)

  /** The container a block renderer returns. */
  datatype Block =
    | Paragraph(content: seq<Frag>)
    | Group(content: seq<Frag>)
    | ListItem(content: seq<Frag>)

  // ----- the piece classifiers -----

  /** A piece of the URL split: a hyperlink exactly when it starts with `http`. */
  function LinkPiece(creator: string, a: string): (r: Frag)
    ensures r.Elem? <==> StartsWith(a, "http")
    ensures r.Elem? ==> r.e == HyperText(a, creator)
    ensures r.Str? ==> r.s == a
  {
    if StartsWith(a, "http") then Elem(HyperText(a, creator)) else Str(a)
  }

  predicate IsInvoicePiece(i: string) {
    StartsWith(Lower(i), "lnbc")
  }

  /** A piece of the invoice split: an invoice, kept as written, when it starts with `lnbc` in any case. */
  function InvoicePiece(i: string): (r: Frag)
    ensures r.Elem? <==> IsInvoicePiece(i)
    ensures r.Elem? ==> r.e == Invoice(i)
    ensures r.Str? ==> r.s == i
  {
    if IsInvoicePiece(i) then Elem(Invoice(i)) else Str(i)
  }

  /** A piece of the hashtag split: a hashtag without its `#` when it starts with `#`. */
  function HashtagPiece(i: string): (r: Frag)
    ensures r.Elem? <==> 0 < |i| && i[0] == '#'
    ensures r.Elem? ==> r.e.Hashtag? && "#" + r.e.tag == i
    ensures r.Str? ==> r.s == i
  {
    assert 0 < |i| ==> Lower(i)[..1] == [LowerChar(i[0])];
    if StartsWith(Lower(i), "#") then Elem(Hashtag(i[1..])) else Str(i)
  }

  /** The invoice test ignores the case of exactly the four letters `lnbc`. */
  lemma InvoiceIgnoresCase(i: string)
    ensures IsInvoicePiece(i) <==>
              && 4 <= |i|
              && (i[0] == 'l' || i[0] == 'L') && (i[1] == 'n' || i[1] == 'N')
              && (i[2] == 'b' || i[2] == 'B') && (i[3] == 'c' || i[3] == 'C')
  {
    if 4 <= |i| {
      var l := Lower(i);
      assert l[..4] == [LowerChar(i[0]), LowerChar(i[1]), LowerChar(i[2]), LowerChar(i[3])];
    }
  }

  function LinkAnnotator(creator: string): Annotator {
    a => LinkPiece(creator, a)
  }

  function MentionAnnotator(tags: Option<seq<Tag>>, util: Util): Annotator {
    p => ResolvePiece(p, tags, util)
  }

  function InvoiceAnnotator(): Annotator {
    i => InvoicePiece(i)
  }

  function HashtagAnnotator(): Annotator {
    i => HashtagPiece(i)
  }

  // ----- the passes -----

  function ExtractLinks(ctx: Context, frags: seq<Frag>): seq<Frag> {
    Pass(frags, ctx.urlSplit, LinkAnnotator(ctx.creator))
  }

  function ExtractMentions(ctx: Context, frag: TextFragment): seq<Frag> {
    Pass(frag.body, ctx.mentionSplit, MentionAnnotator(frag.tags, ctx.util))
  }

  function ExtractInvoices(ctx: Context, frags: seq<Frag>): seq<Frag> {
    Pass(frags, ctx.invoiceSplit, InvoiceAnnotator())
  }

  function ExtractHashtags(ctx: Context, frags: seq<Frag>): seq<Frag> {
    Pass(frags, ctx.hashtagSplit, HashtagAnnotator())
  }

  /** Mentions, then links, then invoices, then hashtags. */
  function TransformText(ctx: Context, frag: TextFragment): seq<Frag> {
    var fragments := ExtractMentions(ctx, frag);
    var fragments := ExtractLinks(ctx, fragments);
    var fragments := ExtractInvoices(ctx, fragments);
    ExtractHashtags(ctx, fragments)
  }

  /** A list item always wraps the transformed text. */
  function TransformLi(ctx: Context, frag: TextFragment): (r: Block)
    ensures r.ListItem? && r.content == TransformText(ctx, frag)
  {
    ListItem(TransformText(ctx, frag))
  }

  /** A paragraph keeps its `p` only when the transformed text is all plain strings. */
  function TransformParagraph(ctx: Context, frag: TextFragment): (r: Block)
    ensures r.content == TransformText(ctx, frag)
    ensures r.Paragraph? || r.Group?
    ensures r.Paragraph? <==> forall f :: f in r.content ==> f.Str?
  {
    var fragments := TransformText(ctx, frag);
    if forall f :: f in fragments ==> f.Str? then Paragraph(fragments) else Group(fragments)
  }

  /** The `a` component: a markdown link that reaches rendering becomes a hyperlink. */
  function RenderAnchor(ctx: Context, href: Option<string>): Element {
    HyperText(href.GetOr(""), ctx.creator)
  }

  // ----- what each pass leaves behind -----

  /** No string the link pass returns starts with `http`. */
  lemma LinksLeaveNoUrl(ctx: Context, frags: seq<Frag>)
    ensures forall f :: f in ExtractLinks(ctx, frags) && f.Str? ==> !StartsWith(f.s, "http")
  {
    PassOrigin(frags, ctx.urlSplit, LinkAnnotator(ctx.creator));
  }

  /** No string the invoice pass returns starts with `lnbc` in any case. */
  lemma InvoicesLeaveNoInvoice(ctx: Context, frags: seq<Frag>)
    ensures forall f :: f in ExtractInvoices(ctx, frags) && f.Str? ==> !IsInvoicePiece(f.s)
  {
    PassOrigin(frags, ctx.invoiceSplit, InvoiceAnnotator());
  }

  /** No string the hashtag pass returns starts with `#`. */
  lemma HashtagsLeaveNoHash(ctx: Context, frags: seq<Frag>)
    ensures forall f :: f in ExtractHashtags(ctx, frags) && f.Str? ==> !(0 < |f.s| && f.s[0] == '#')
  {
    PassOrigin(frags, ctx.hashtagSplit, HashtagAnnotator());
  }

  /** Every string holding `#[digits]` is resolved by the mention pass: none survives it. */
  lemma MentionsLeaveNoReference(ctx: Context, frag: TextFragment)
    ensures forall f :: f in ExtractMentions(ctx, frag) && f.Str? ==> NoReference(f.s)
  {
    PassOrigin(frag.body, ctx.mentionSplit, MentionAnnotator(frag.tags, ctx.util));
  }

  // ----- composition -----

  /** `transformText` works child by child over the block's body. */
  lemma TransformTextAppend(ctx: Context, a: seq<Frag>, b: seq<Frag>, tags: Option<seq<Tag>>)
    ensures TransformText(ctx, TextFragment(a + b, tags))
         == TransformText(ctx, TextFragment(a, tags)) + TransformText(ctx, TextFragment(b, tags))
  {
    var m := MentionAnnotator(tags, ctx.util);
    PassAppend(a, b, ctx.mentionSplit, m);
    var ma, mb := Pass(a, ctx.mentionSplit, m), Pass(b, ctx.mentionSplit, m);
    PassAppend(ma, mb, ctx.urlSplit, LinkAnnotator(ctx.creator));
    var la, lb := ExtractLinks(ctx, ma), ExtractLinks(ctx, mb);
    PassAppend(la, lb, ctx.invoiceSplit, InvoiceAnnotator());
    var ia, ib := ExtractInvoices(ctx, la), ExtractInvoices(ctx, lb);
    PassAppend(ia, ib, ctx.hashtagSplit, HashtagAnnotator());
  }

  /** The link, invoice and hashtag passes after mentions, as one function. */
  function LaterPasses(ctx: Context, frags: seq<Frag>): seq<Frag> {
    ExtractHashtags(ctx, ExtractInvoices(ctx, ExtractLinks(ctx, frags)))
  }

  /**
    An element one pass produced is never split again: the later passes keep it
    in its place and work on what lies on either side of it.
  */
  lemma LaterPassesKeepElement(ctx: Context, pre: seq<Frag>, e: Element, post: seq<Frag>)
    ensures LaterPasses(ctx, pre + [Elem(e)] + post)
         == LaterPasses(ctx, pre) + [Elem(e)] + LaterPasses(ctx, post)
  {
    PassAroundElement(pre, e, post, ctx.urlSplit, LinkAnnotator(ctx.creator));
    var lpre, lpost := ExtractLinks(ctx, pre), ExtractLinks(ctx, post);
    PassAroundElement(lpre, e, lpost, ctx.invoiceSplit, InvoiceAnnotator());
    var ipre, ipost := ExtractInvoices(ctx, lpre), ExtractInvoices(ctx, lpost);
    PassAroundElement(ipre, e, ipost, ctx.hashtagSplit, HashtagAnnotator());
  }

  /** Each element the mention pass returns reaches the output of `transformText` unchanged. */
  lemma MentionElementsSurvive(ctx: Context, frag: TextFragment, k: nat)
    requires k < |ExtractMentions(ctx, frag)| && ExtractMentions(ctx, frag)[k].Elem?
    ensures var m := ExtractMentions(ctx, frag);
            TransformText(ctx, frag) == LaterPasses(ctx, m[..k]) + [m[k]] + LaterPasses(ctx, m[k + 1..])
  {
    var m := ExtractMentions(ctx, frag);
    assert m == m[..k] + [Elem(m[k].e)] + m[k + 1..];
    LaterPassesKeepElement(ctx, m[..k], m[k].e, m[k + 1..]);
  }

  /** The source span each regex pass took an element from. */
  function SourceSpan(e: Element): string {
    match e
    case HyperText(url, _) => url
    case Invoice(invoice) => invoice
    case Hashtag(tag) => "#" + tag
    case _ => []
  }

  lemma LaterAnnotatorsFaithful(creator: string)
    ensures Faithful(LinkAnnotator(creator), SourceSpan)
    ensures Faithful(InvoiceAnnotator(), SourceSpan)
    ensures Faithful(HashtagAnnotator(), SourceSpan)
  {
    forall p ensures FragText(LinkAnnotator(creator)(p), SourceSpan) == p {
      var r := LinkPiece(creator, p);
    }
    forall p ensures FragText(InvoiceAnnotator()(p), SourceSpan) == p {
      var r := InvoicePiece(p);
    }
    forall p ensures FragText(HashtagAnnotator()(p), SourceSpan) == p {
      var r := HashtagPiece(p);
    }
  }

  /**
    With lossless splitters the link, invoice and hashtag passes keep the text
    in order: reading each element back as its source span gives the input.
  */
  lemma LaterPassesPreserveText(ctx: Context, frags: seq<Frag>)
    requires Lossless(ctx.urlSplit) && Lossless(ctx.invoiceSplit) && Lossless(ctx.hashtagSplit)
    ensures TextOf(LaterPasses(ctx, frags), SourceSpan) == TextOf(frags, SourceSpan)
  {
    LaterAnnotatorsFaithful(ctx.creator);
    PassPreservesText(frags, ctx.urlSplit, LinkAnnotator(ctx.creator), SourceSpan);
    var l := ExtractLinks(ctx, frags);
    PassPreservesText(l, ctx.invoiceSplit, InvoiceAnnotator(), SourceSpan);
    PassPreservesText(ExtractInvoices(ctx, l), ctx.hashtagSplit, HashtagAnnotator(), SourceSpan);
  }

  /** No string fragment still holds `#[digits]`. */
  ghost predicate StringsResolved(frags: seq<Frag>) {
    forall f :: f in frags && f.Str? ==> NoReference(f.s)
  }

  /** A piece of a lossless split of a string without references has none either. */
  lemma PiecesHaveNoReference(split: Splitter, s: string)
    requires Lossless(split) && NoReference(s)
    ensures forall p :: p in split(s) ==> NoReference(p)
  {
    var pieces := split(s);
    assert Concat(pieces) == s;
    forall p | p in pieces ensures NoReference(p) {
      var k :| 0 <= k < |pieces| && pieces[k] == p;
      PieceIsSubstring(pieces, k);
      var off := |Concat(pieces[..k])|;
      forall i, j ensures !IsRef(p, i, j) {
        if IsRef(p, i, j) {
          RefInSubstring(s, off, p, i, j);
        }
      }
    }
  }

  /** A pass over lossless pieces that keeps rejected pieces verbatim brings back no reference. */
  lemma PassKeepsResolved(frags: seq<Frag>, split: Splitter, annotate: Annotator)
    requires Lossless(split) && StringsResolved(frags)
    requires forall p :: annotate(p).Str? ==> annotate(p).s == p
    ensures StringsResolved(Pass(frags, split, annotate))
  {
    PassOrigin(frags, split, annotate);
    forall f | f in Pass(frags, split, annotate) && f.Str? ensures NoReference(f.s) {
      var k, p :| 0 <= k < |frags| && frags[k].Str? && p in split(frags[k].s) && f == annotate(p);
      assert frags[k] in frags;
      PiecesHaveNoReference(split, frags[k].s);
    }
  }

  /**
    Pattern precedence: with lossless splitters for the later passes, no
    string that reaches the hashtag pass holds a `#[digits]` placeholder, and
    neither does any string `transformText` returns. Every placeholder went
    through the reference resolver; none is left for the hashtag pattern.
  */
  lemma TransformTextResolvesAllReferences(ctx: Context, frag: TextFragment)
    requires Lossless(ctx.urlSplit) && Lossless(ctx.invoiceSplit) && Lossless(ctx.hashtagSplit)
    ensures StringsResolved(ExtractInvoices(ctx, ExtractLinks(ctx, ExtractMentions(ctx, frag))))
    ensures StringsResolved(TransformText(ctx, frag))
  {
    MentionsLeaveNoReference(ctx, frag);
    var m := ExtractMentions(ctx, frag);
    forall p ensures LinkAnnotator(ctx.creator)(p).Str? ==> LinkAnnotator(ctx.creator)(p).s == p {
      var r := LinkPiece(ctx.creator, p);
    }
    PassKeepsResolved(m, ctx.urlSplit, LinkAnnotator(ctx.creator));
    var l := ExtractLinks(ctx, m);
    forall p ensures InvoiceAnnotator()(p).Str? ==> InvoiceAnnotator()(p).s == p {
      var r := InvoicePiece(p);
    }
    PassKeepsResolved(l, ctx.invoiceSplit, InvoiceAnnotator());
    var i := ExtractInvoices(ctx, l);
    forall p ensures HashtagAnnotator()(p).Str? ==> HashtagAnnotator()(p).s == p {
      var r := HashtagPiece(p);
    }
    PassKeepsResolved(i, ctx.hashtagSplit, HashtagAnnotator());
  }

  /**
    Text that no pattern recognises, and that every regex leaves whole, comes
    out as the same single string, in a plain paragraph.
  */
  lemma PlainTextUnchanged(ctx: Context, s: string, tags: Option<seq<Tag>>)
    requires ctx.mentionSplit(s) == [s] && ctx.urlSplit(s) == [s]
    requires ctx.invoiceSplit(s) == [s] && ctx.hashtagSplit(s) == [s]
    requires NoReference(s) && !StartsWith(s, "http") && !IsInvoicePiece(s)
    requires !(0 < |s| && s[0] == '#')
    ensures TransformText(ctx, TextFragment([Str(s)], tags)) == [Str(s)]
    ensures TransformParagraph(ctx, TextFragment([Str(s)], tags)) == Paragraph([Str(s)])
  {
    var one := [Str(s)];
    assert ResolvePiece(s, tags, ctx.util) == Str(s);
    assert AnnotateAll([s], MentionAnnotator(tags, ctx.util)) == one;
    assert Pass(one, ctx.mentionSplit, MentionAnnotator(tags, ctx.util)) == one;
    assert AnnotateAll([s], LinkAnnotator(ctx.creator)) == one;
    assert Pass(one, ctx.urlSplit, LinkAnnotator(ctx.creator)) == one;
    assert AnnotateAll([s], InvoiceAnnotator()) == one;
    assert Pass(one, ctx.invoiceSplit, InvoiceAnnotator()) == one;
    assert HashtagPiece(s) == Str(s);
    assert AnnotateAll([s], HashtagAnnotator()) == one;
    assert Pass(one, ctx.hashtagSplit, HashtagAnnotator()) == one;
  }

  /** The `a` renderer and the URL pattern produce the same hyperlink for an `http` href. */
  lemma AnchorMatchesLinkPass(ctx: Context, url: string)
    requires StartsWith(url, "http")
    requires ctx.urlSplit(url) == [url]
    ensures ExtractLinks(ctx, [Str(url)]) == [Elem(RenderAnchor(ctx, Some(url)))]
  {
    var one := [Str(url)];
    assert AnnotateAll([url], LinkAnnotator(ctx.creator)) == [Elem(HyperText(url, ctx.creator))];
    assert Pass(one, ctx.urlSplit, LinkAnnotator(ctx.creator))
        == Expand(one[0], ctx.urlSplit, LinkAnnotator(ctx.creator)) + Pass([], ctx.urlSplit, LinkAnnotator(ctx.creator));
  }

  /** A string no regex splits and no classifier accepts, through one pass. */
  lemma UnsplitPiece(frags: seq<Frag>, s: string, split: Splitter, annotate: Annotator)
    requires split(s) == [s] && annotate(s) == Str(s)
    ensures Pass([Str(s)] + frags, split, annotate) == [Str(s)] + Pass(frags, split, annotate)
  {
    assert ([Str(s)] + frags)[1..] == frags;
    assert AnnotateAll([s], annotate) == [Str(s)];
  }

  /** Text without a `#` holds no placeholder. */
  lemma NoHashNoReference(s: string)
    requires forall k :: 0 <= k < |s| ==> s[k] != '#'
    ensures NoReference(s)
  {
  }

  /** The mention pass of the scenario below. */
  lemma ScenarioMentions(ctx: Context, tags: Option<seq<Tag>>)
    requires tags == Some([Tag(0, "p", Some("abc123"), None, None)])
    requires ctx.mentionSplit("hello #[0] check https://example.com") == ["hello ", "#[0]", " check https://example.com"]
    ensures ExtractMentions(ctx, TextFragment([Str("hello #[0] check https://example.com")], tags))
         == [Str("hello "), Elem(Mention("abc123")), Str(" check https://example.com")]
  {
    var rest := " check https://example.com";
    NoHashNoReference("hello ");
    NoHashNoReference(rest);
    assert ShowNat(0) == "0";
    assert Placeholder(0) == "#[0]";
    PlaceholderResolves(0, tags, ctx.util);
    assert FirstWith(tags.value, 0, 0);
    var pieces := ["hello ", "#[0]", rest];
    assert AnnotateAll(pieces, MentionAnnotator(tags, ctx.util)) == [Str("hello "), Elem(Mention("abc123")), Str(rest)];
  }

  /** The link pass of the scenario below. */
  lemma ScenarioLinks(ctx: Context, mention: Element)
    requires ctx.urlSplit("hello ") == ["hello "] && ctx.urlSplit(" check https://example.com") == [" check ", "https://example.com", ""]
    ensures ExtractLinks(ctx, [Str("hello "), Elem(mention), Str(" check https://example.com")])
         == [Str("hello "), Elem(mention), Str(" check "), Elem(HyperText("https://example.com", ctx.creator)), Str("")]
  {
    var rest := " check https://example.com";
    var link := Elem(HyperText("https://example.com", ctx.creator));
    assert !StartsWith("hello ", "http") by {
      assert "hello "[..4][1] != "http"[1];
    }
    UnsplitPiece([Elem(mention), Str(rest)], "hello ", ctx.urlSplit, LinkAnnotator(ctx.creator));
    PassAroundElement([], mention, [Str(rest)], ctx.urlSplit, LinkAnnotator(ctx.creator));
    assert [Elem(mention), Str(rest)] == [] + [Elem(mention)] + [Str(rest)];
    assert StartsWith("https://example.com", "http");
    assert AnnotateAll([" check ", "https://example.com", ""], LinkAnnotator(ctx.creator)) == [Str(" check "), link, Str("")];
  }

  /** The invoice and hashtag passes of the scenario below find nothing. */
  lemma ScenarioQuiet(ctx: Context, mention: Element, link: Element)
    requires ctx.invoiceSplit("hello ") == ["hello "] && ctx.invoiceSplit(" check ") == [" check "] && ctx.invoiceSplit("") == [""]
    requires ctx.hashtagSplit("hello ") == ["hello "] && ctx.hashtagSplit(" check ") == [" check "] && ctx.hashtagSplit("") == [""]
    ensures var l := [Str("hello "), Elem(mention), Str(" check "), Elem(link), Str("")];
            ExtractHashtags(ctx, ExtractInvoices(ctx, l)) == l
  {
    var l := [Str("hello "), Elem(mention), Str(" check "), Elem(link), Str("")];
    var tail := [Str(" check "), Elem(link), Str("")];
    assert Lower("hello ")[0] == 'h' && Lower(" check ")[0] == ' ';
    var a := InvoiceAnnotator();
    UnsplitPiece([], "", ctx.invoiceSplit, a);
    assert [Str("")] + [] == [Str("")];
    PassAroundElement([], link, [Str("")], ctx.invoiceSplit, a);
    assert [] + [Elem(link)] + [Str("")] == [Elem(link), Str("")];
    UnsplitPiece([Elem(link), Str("")], " check ", ctx.invoiceSplit, a);
    assert [Str(" check ")] + [Elem(link), Str("")] == tail;
    PassAroundElement([], mention, tail, ctx.invoiceSplit, a);
    assert [] + [Elem(mention)] + tail == [Elem(mention)] + tail;
    UnsplitPiece([Elem(mention)] + tail, "hello ", ctx.invoiceSplit, a);
    assert [Str("hello ")] + ([Elem(mention)] + tail) == l;
    assert ExtractInvoices(ctx, l) == l;
    var h := HashtagAnnotator();
    UnsplitPiece([], "", ctx.hashtagSplit, h);
    PassAroundElement([], link, [Str("")], ctx.hashtagSplit, h);
    UnsplitPiece([Elem(link), Str("")], " check ", ctx.hashtagSplit, h);
    PassAroundElement([], mention, tail, ctx.hashtagSplit, h);
    UnsplitPiece([Elem(mention)] + tail, "hello ", ctx.hashtagSplit, h);
  }

  /**
    "hello #[0] check https://example.com" with tag 0 a person: the placeholder
    becomes a mention of that person and the URL a hyperlink, in place.
  */
  lemma ScenarioMentionAndLink(ctx: Context)
    requires ctx.mentionSplit("hello #[0] check https://example.com") == ["hello ", "#[0]", " check https://example.com"]
    requires ctx.urlSplit("hello ") == ["hello "] && ctx.urlSplit(" check https://example.com") == [" check ", "https://example.com", ""]
    requires ctx.invoiceSplit("hello ") == ["hello "] && ctx.invoiceSplit(" check ") == [" check "] && ctx.invoiceSplit("") == [""]
    requires ctx.hashtagSplit("hello ") == ["hello "] && ctx.hashtagSplit(" check ") == [" check "] && ctx.hashtagSplit("") == [""]
    ensures var tags := Some([Tag(0, "p", Some("abc123"), None, None)]);
            TransformText(ctx, TextFragment([Str("hello #[0] check https://example.com")], tags))
            == [Str("hello "), Elem(Mention("abc123")), Str(" check "), Elem(HyperText("https://example.com", ctx.creator)), Str("")]
  {
    var tags := Some([Tag(0, "p", Some("abc123"), None, None)]);
    ScenarioMentions(ctx, tags);
    ScenarioLinks(ctx, Mention("abc123"));
    ScenarioQuiet(ctx, Mention("abc123"), HyperText("https://example.com", ctx.creator));
  }
}
