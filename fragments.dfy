/**
  Fragments and the shape shared by the four extraction passes of
  src/Element/Text.tsx: map every fragment, leave a non-string alone, split a
  string and annotate each piece, then flatten the result one level.
*/
module Fragments {
  import opened Strings

  /** The annotated elements the pipeline produces, as values. */
  datatype Element =
    | HyperText(url: string, creator: string)
    | Mention(pubkey: string)
    | NoteRef(caption: string, target: string)
    | Hashtag(tag: string)
    | Invoice(invoice: string)
    | ErrorMarker(text: string)
      /** a child node the markdown engine rendered itself (emphasis, code, ...) */
    | Child(name: string)

  /** `string | React.ReactNode`: plain text, or an element no pass looks into. */
  datatype Frag = Str(s: string) | Elem(e: Element)

  /** A regular-expression `split`, left abstract. */
  type Splitter = string -> seq<string>

  /** What a pass makes of one piece of a split string. */
  type Annotator = string -> Frag

  /** `pieces.map(annotate)` */
  function AnnotateAll(pieces: seq<string>, annotate: Annotator): seq<Frag> {
    seq(|pieces|, k requires 0 <= k < |pieces| => annotate(pieces[k]))
  }

  /** What one fragment becomes before flattening. */
  function Expand(f: Frag, split: Splitter, annotate: Annotator): seq<Frag> {
    match f
    case Elem(_) => [f]
    case Str(s) => AnnotateAll(split(s), annotate)
  }

  /** `fragments.map(f => typeof f === "string" ? split(f).map(annotate) : f).flat()` */
  function Pass(frags: seq<Frag>, split: Splitter, annotate: Annotator): seq<Frag> {
    if frags == [] then [] else Expand(frags[0], split, annotate) + Pass(frags[1..], split, annotate)
  }

  /** A pass works fragment by fragment: it distributes over concatenation. */
  lemma {:induction false} PassAppend(a: seq<Frag>, b: seq<Frag>, split: Splitter, annotate: Annotator)
    ensures Pass(a + b, split, annotate) == Pass(a, split, annotate) + Pass(b, split, annotate)
  {
    if a == [] {
      assert a + b == b;
    } else {
      assert (a + b)[0] == a[0];
      assert (a + b)[1..] == a[1..] + b;
      PassAppend(a[1..], b, split, annotate);
    }
  }

  /** A sequence with no strings in it passes through unchanged. */
  lemma {:induction false} PassKeepsElements(frags: seq<Frag>, split: Splitter, annotate: Annotator)
    requires forall k :: 0 <= k < |frags| ==> frags[k].Elem?
    ensures Pass(frags, split, annotate) == frags
  {
    if frags != [] {
      PassKeepsElements(frags[1..], split, annotate);
    }
  }

  /**
    A non-string fragment keeps its place: whatever surrounds it is processed
    on its own, and the element itself is neither split nor replaced.
  */
  lemma PassAroundElement(pre: seq<Frag>, e: Element, post: seq<Frag>, split: Splitter, annotate: Annotator)
    ensures Pass(pre + [Elem(e)] + post, split, annotate)
         == Pass(pre, split, annotate) + [Elem(e)] + Pass(post, split, annotate)
  {
    PassAppend(pre + [Elem(e)], post, split, annotate);
    PassAppend(pre, [Elem(e)], split, annotate);
    PassKeepsElements([Elem(e)], split, annotate);
  }

  /** `f` is the annotation of some piece of some string of `frags`. */
  ghost predicate FromPiece(frags: seq<Frag>, split: Splitter, annotate: Annotator, f: Frag) {
    exists k, p :: 0 <= k < |frags| && frags[k].Str? && p in split(frags[k].s) && f == annotate(p)
  }

  /**
    Every fragment a pass returns is either a non-string fragment of its input
    or the annotation of a piece of one of its input strings.
  */
  lemma {:induction false} PassOrigin(frags: seq<Frag>, split: Splitter, annotate: Annotator)
    ensures forall f :: f in Pass(frags, split, annotate) ==>
              (f.Elem? && f in frags) || FromPiece(frags, split, annotate, f)
  {
    if frags != [] {
      PassOrigin(frags[1..], split, annotate);
      forall f | f in Pass(frags, split, annotate)
        ensures (f.Elem? && f in frags) || FromPiece(frags, split, annotate, f)
      {
        if f in Expand(frags[0], split, annotate) {
          if frags[0].Str? {
            var pieces := split(frags[0].s);
            var k :| 0 <= k < |pieces| && AnnotateAll(pieces, annotate)[k] == f;
            assert pieces[k] in split(frags[0].s);
          }
        } else {
          assert f in Pass(frags[1..], split, annotate);
          if !(f.Elem? && f in frags[1..]) {
            var k, p :| 0 <= k < |frags[1..]| && frags[1..][k].Str? && p in split(frags[1..][k].s) && f == annotate(p);
            assert frags[k + 1] == frags[1..][k];
          }
        }
      }
    }
  }

  /** The text a fragment stands for, given the source span of each element. */
  function FragText(f: Frag, origin: Element -> string): string {
    match f
    case Str(s) => s
    case Elem(e) => origin(e)
  }

  /** The text a sequence of fragments stands for. */
  function TextOf(frags: seq<Frag>, origin: Element -> string): string {
    if frags == [] then [] else FragText(frags[0], origin) + TextOf(frags[1..], origin)
  }

  lemma {:induction false} TextOfAppend(a: seq<Frag>, b: seq<Frag>, origin: Element -> string)
    ensures TextOf(a + b, origin) == TextOf(a, origin) + TextOf(b, origin)
  {
    if a == [] {
      assert a + b == b;
    } else {
      assert (a + b)[1..] == a[1..] + b;
      TextOfAppend(a[1..], b, origin);
    }
  }

  /** The splitter loses no text: its pieces concatenate back to its input. */
  ghost predicate Lossless(split: Splitter) {
    forall s :: Concat(split(s)) == s
  }

  /** Annotating a piece keeps the piece itself as the annotation's source span. */
  ghost predicate Faithful(annotate: Annotator, origin: Element -> string) {
    forall p :: FragText(annotate(p), origin) == p
  }

  lemma {:induction false} AnnotatedText(pieces: seq<string>, annotate: Annotator, origin: Element -> string)
    requires Faithful(annotate, origin)
    ensures TextOf(AnnotateAll(pieces, annotate), origin) == Concat(pieces)
  {
    if pieces != [] {
      var r := AnnotateAll(pieces, annotate);
      assert r[1..] == AnnotateAll(pieces[1..], annotate);
      assert FragText(r[0], origin) == pieces[0];
      AnnotatedText(pieces[1..], annotate, origin);
    }
  }

  /**
    With a lossless splitter and an annotation that remembers its piece, a
    pass keeps the text: reading every element back as its source span gives
    the input text again.
  */
  lemma {:induction false} PassPreservesText(frags: seq<Frag>, split: Splitter, annotate: Annotator, origin: Element -> string)
    requires Lossless(split)
    requires Faithful(annotate, origin)
    ensures TextOf(Pass(frags, split, annotate), origin) == TextOf(frags, origin)
  {
    if frags != [] {
      PassPreservesText(frags[1..], split, annotate, origin);
      TextOfAppend(Expand(frags[0], split, annotate), Pass(frags[1..], split, annotate), origin);
      match frags[0]
      case Elem(_) =>
      case Str(s) =>
        AnnotatedText(split(s), annotate, origin);
    }
  }
}
