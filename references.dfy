/**
  The reference resolver inside `extractMentions` (src/Element/Text.tsx:55-81):
  find the leftmost `#[digits]` in a piece, read the digits as a number, take
  the first tag with that index and turn it into an element according to its
  key, or into an error marker.
*/
module References {
  import opened Wrappers
  import opened Strings
  import opened Fragments

  predicate IsDigit(c: char) {
    '0' <= c <= '9'
  }

  predicate AllDigits(d: string) {
    forall k :: 0 <= k < |d| ==> IsDigit(d[k])
  }

  predicate DigitAt(s: string, k: int) {
    0 <= k < |s| && IsDigit(s[k])
  }

  /** `s[i..j]` is one match of /#\[(\d+)\]/: `#[`, one or more digits, `]`. */
  ghost predicate IsRef(s: string, i: int, j: int) {
    && 0 <= i && i + 4 <= j <= |s|
    && s[i] == '#' && s[i + 1] == '[' && s[j - 1] == ']'
    && forall k :: i + 2 <= k < j - 1 ==> IsDigit(s[k])
  }

  /** The regex finds nothing in `s`. */
  ghost predicate NoReference(s: string) {
    forall i, j :: !IsRef(s, i, j)
  }

  /** `s[i..j]` is the match the regex returns: the one that starts leftmost. */
  ghost predicate Leftmost(s: string, i: int, j: int) {
    IsRef(s, i, j) && forall i', j' :: IsRef(s, i', j') ==> i <= i'
  }

  /** A match is determined by where it starts: the digits cannot contain the `]`. */
  lemma RefEndUnique(s: string, i: int, j1: int, j2: int)
    requires IsRef(s, i, j1) && IsRef(s, i, j2)
    ensures j1 == j2
  {
    assert j1 < j2 ==> DigitAt(s, j1 - 1);
    assert j2 < j1 ==> DigitAt(s, j2 - 1);
  }

  /** A match inside a substring of `s` is a match in `s`. */
  lemma RefInSubstring(s: string, a: nat, p: string, i: int, j: int)
    requires a + |p| <= |s| && s[a..a + |p|] == p
    requires IsRef(p, i, j)
    ensures IsRef(s, a + i, a + j)
  {
    forall k | a + i + 2 <= k < a + j - 1
      ensures IsDigit(s[k])
    {
      assert s[k] == p[k - a];
    }
  }

  /** The length of the run of digits that starts at `k`. */
  function DigitRun(s: string, k: nat): (n: nat)
    requires k <= |s|
    ensures k + n <= |s|
    ensures forall m :: k <= m < k + n ==> IsDigit(s[m])
    ensures k + n < |s| ==> !IsDigit(s[k + n])
    decreases |s| - k
  {
    if k < |s| && IsDigit(s[k]) then 1 + DigitRun(s, k + 1) else 0
  }

  /** Where the match starting at `i` ends, if one starts there. */
  function RefEndAt(s: string, i: nat): (r: Option<nat>)
    requires i <= |s|
    ensures r.Some? ==> IsRef(s, i, r.value)
    ensures r.None? ==> forall j :: !IsRef(s, i, j)
  {
    if i + 1 < |s| && s[i] == '#' && s[i + 1] == '[' then
      var n := DigitRun(s, i + 2);
      if 0 < n && i + 2 + n < |s| && s[i + 2 + n] == ']' then Some(i + 3 + n)
      else
        assert forall j :: IsRef(s, i, j) ==> j == i + 3 + n by {
          forall j | IsRef(s, i, j) ensures j == i + 3 + n {
            assert j < i + 3 + n ==> DigitAt(s, j - 1);
            assert j > i + 3 + n ==> DigitAt(s, i + 2 + n);
          }
        }
        None
    else
      None
  }

  /** The leftmost match at or after position `i`. */
  function FindFrom(s: string, i: nat): (r: Option<(nat, nat)>)
    requires i <= |s|
    ensures r.Some? ==> i <= r.value.0 && IsRef(s, r.value.0, r.value.1)
    ensures r.Some? ==> forall i', j' :: i <= i' < r.value.0 ==> !IsRef(s, i', j')
    ensures r.None? ==> forall i', j' :: i <= i' ==> !IsRef(s, i', j')
    decreases |s| - i
  {
    if i == |s| then None
    else
      match RefEndAt(s, i)
      case Some(j) => Some((i, j))
      case None => FindFrom(s, i + 1)
  }

  /** `s.match(/#\[(\d+)\]/)`: the span of the leftmost match, if any. */
  function FindReference(s: string): (r: Option<(nat, nat)>)
    ensures r.Some? ==> Leftmost(s, r.value.0, r.value.1)
    ensures r.None? ==> NoReference(s)
  {
    FindFrom(s, 0)
  }

  function DigitValue(c: char): nat
    requires IsDigit(c)
  {
    c as int - '0' as int
  }

  function DigitChar(n: nat): (c: char)
    requires n < 10
    ensures IsDigit(c) && DigitValue(c) == n
  {
    ('0' as int + n) as char
  }

  /** `parseInt(d)` for a string of decimal digits, without a precision limit. */
  function ParseDigits(d: string): nat
    requires AllDigits(d)
  {
    if d == [] then 0 else 10 * ParseDigits(d[..|d| - 1]) + DigitValue(d[|d| - 1])
  }

  /** The decimal numeral of `n`, without leading zeros. */
  function ShowNat(n: nat): (d: string)
    ensures 0 < |d| && AllDigits(d)
  {
    if n < 10 then [DigitChar(n)] else ShowNat(n / 10) + [DigitChar(n % 10)]
  }

  /** Reading back the numeral of `n` gives `n`. */
  lemma {:induction false} ParseShow(n: nat)
    ensures ParseDigits(ShowNat(n)) == n
  {
    var d := ShowNat(n);
    if n >= 10 {
      ParseShow(n / 10);
      assert d[..|d| - 1] == ShowNat(n / 10);
    }
  }

  /** Leading zeros do not change the index a placeholder refers to. */
  lemma {:induction false} ParseLeadingZero(d: string)
    requires AllDigits(d)
    ensures ParseDigits("0" + d) == ParseDigits(d)
  {
    if d != [] {
      assert ("0" + d)[..|"0" + d| - 1] == "0" + d[..|d| - 1];
      ParseLeadingZero(d[..|d| - 1]);
    }
  }

  /**
    A reference tag: `Index` is the number placeholders use, `Key` its kind
    (`p` person, `e` event, `t` topic), followed by the optional payloads.
  */
  datatype Tag = Tag(index: int, key: string, pubKey: Option<string>, event: Option<string>, hashtag: Option<string>)

  /** `tags[k]` is the tag `tags.find(a => a.Index === n)` returns. */
  ghost predicate FirstWith(tags: seq<Tag>, n: int, k: int) {
    0 <= k < |tags| && tags[k].index == n && forall k' :: 0 <= k' < k ==> tags[k'].index != n
  }

  function FindTagFrom(tags: seq<Tag>, n: int, from: nat): (r: Option<nat>)
    requires from <= |tags|
    requires forall k' :: 0 <= k' < from ==> tags[k'].index != n
    ensures r.Some? ==> FirstWith(tags, n, r.value)
    ensures r.None? ==> forall k :: 0 <= k < |tags| ==> tags[k].index != n
    decreases |tags| - from
  {
    if from == |tags| then None
    else if tags[from].index == n then Some(from)
    else FindTagFrom(tags, n, from + 1)
  }

  /** The position of the first tag whose index is `n`. */
  function FindTag(tags: seq<Tag>, n: int): (r: Option<nat>)
    ensures r.Some? ==> FirstWith(tags, n, r.value)
    ensures r.None? ==> forall k :: 0 <= k < |tags| ==> tags[k].index != n
  {
    FindTagFrom(tags, n, 0)
  }

  /** The foreign helpers from `Util` the resolver calls, left abstract. */
  datatype Util = Util(hexToBech32: (string, Option<string>) -> string, eventLink: string -> string)

  /** The visible text of a note link: `#` and the first 12 characters of the encoded id. */
  ghost predicate NoteCaption(caption: string, encoded: string) {
    && 0 < |caption| && caption[0] == '#'
    && |caption| - 1 == (if |encoded| < 12 then |encoded| else 12)
    && caption[1..] == encoded[..|caption| - 1]
  }

  /** The `switch (ref.Key)` on a found tag; anything but p, e or t is an error marker. */
  function ResolveTag(t: Tag, matched: string, util: Util): (e: Element)
    ensures e.Mention? <==> t.key == "p"
    ensures e.NoteRef? <==> t.key == "e"
    ensures e.Hashtag? <==> t.key == "t"
    ensures e.ErrorMarker? <==> t.key != "p" && t.key != "e" && t.key != "t"
    ensures e.Mention? ==> e.pubkey == t.pubKey.GetOr("")
    ensures e.Hashtag? ==> e.tag == t.hashtag.GetOr("")
    ensures e.NoteRef? ==> NoteCaption(e.caption, util.hexToBech32("note", t.event))
    ensures e.NoteRef? ==> e.target == util.eventLink(t.event.GetOr(""))
    ensures e.ErrorMarker? ==> e.text == matched + "?"
  {
    if t.key == "p" then Mention(t.pubKey.GetOr(""))
    else if t.key == "e" then NoteRef("#" + Take(util.hexToBech32("note", t.event), 12), util.eventLink(t.event.GetOr("")))
    else if t.key == "t" then Hashtag(t.hashtag.GetOr(""))
    else ErrorMarker(matched + "?")
  }

  /**
    What a placeholder with index `n` resolves to: absent tags or no tag with
    that index give an error marker; otherwise the first such tag decides.
  */
  function ResolveIndex(n: nat, matched: string, tags: Option<seq<Tag>>, util: Util): (e: Element)
    ensures tags.None? ==> e == ErrorMarker(matched + "?")
    ensures tags.Some? && (forall k :: 0 <= k < |tags.value| ==> tags.value[k].index != n) ==>
              e == ErrorMarker(matched + "?")
    ensures forall k :: tags.Some? && FirstWith(tags.value, n, k) ==> e == ResolveTag(tags.value[k], matched, util)
  {
    match tags
    case None => ErrorMarker(matched + "?")
    case Some(ts) =>
      match FindTag(ts, n)
      case None => ErrorMarker(matched + "?")
      case Some(k) =>
        assert forall k' :: FirstWith(ts, n, k') ==> k' == k;
        ResolveTag(ts[k], matched, util)
  }

  /**
    What `extractMentions` makes of one piece: the piece itself when it holds
    no `#[digits]`, otherwise the element the leftmost match resolves to.
  */
  function ResolvePiece(piece: string, tags: Option<seq<Tag>>, util: Util): (r: Frag)
    ensures r.Str? <==> NoReference(piece)
    ensures r.Str? ==> r.s == piece
    ensures forall i, j :: Leftmost(piece, i, j) ==>
              r == Elem(ResolveIndex(ParseDigits(piece[i + 2..j - 1]), piece[i..j], tags, util))
  {
    match FindReference(piece)
    case None => Str(piece)
    case Some((i, j)) =>
      assert forall i', j' :: Leftmost(piece, i', j') ==> i' == i && j' == j by {
        forall i', j' | Leftmost(piece, i', j') ensures i' == i && j' == j {
          RefEndUnique(piece, i, j, j');
        }
      }
      Elem(ResolveIndex(ParseDigits(piece[i + 2..j - 1]), piece[i..j], tags, util))
  }

  /** The placeholder text `#[n]`. */
  function Placeholder(n: nat): string {
    "#[" + ShowNat(n) + "]"
  }

  /** A placeholder on its own resolves through the tag with its own index. */
  lemma PlaceholderResolves(n: nat, tags: Option<seq<Tag>>, util: Util)
    ensures ResolvePiece(Placeholder(n), tags, util) == Elem(ResolveIndex(n, Placeholder(n), tags, util))
  {
    var p := Placeholder(n);
    var d := ShowNat(n);
    assert p[2..|p| - 1] == d;
    assert IsRef(p, 0, |p|);
    assert Leftmost(p, 0, |p|);
    ParseShow(n);
  }

  /**
    The match need not fill the piece: in "see #[5]" with no tag 5 the whole
    piece becomes an error marker that shows only the match and a `?`.
  */
  lemma UnresolvedInsidePiece(util: Util)
    ensures ResolvePiece("see #[5]", Some([]), util) == Elem(ErrorMarker("#[5]?"))
  {
    var s := "see #[5]";
    assert IsRef(s, 4, 8);
    forall i', j' | IsRef(s, i', j') ensures 4 <= i' {
      assert s[i'] == '#';
    }
    assert Leftmost(s, 4, 8);
    assert s[6..7] == "5" && s[4..8] == "#[5]";
  }
}
