/**
  The handful of JavaScript string operations the text pipeline relies on:
  `startsWith`, `toLowerCase` (restricted to ASCII), `substring(0, n)`,
  `slice(a, b)` and the one-level concatenation performed by `flat()`.
*/
module Strings {

  /** `s.startsWith(prefix)`, compared case-sensitively. */
  predicate StartsWith(s: string, prefix: string) {
    |prefix| <= |s| && s[..|prefix|] == prefix
  }

  /** ASCII case folding of one character; every other character is kept. */
  function LowerChar(c: char): char {
    if 'A' <= c <= 'Z' then (c as int + 32) as char else c
  }

  /** `s.toLowerCase()` for ASCII text. */
  function Lower(s: string): (r: string)
    ensures |r| == |s|
  {
    seq(|s|, k requires 0 <= k < |s| => LowerChar(s[k]))
  }

  /** `s.substring(0, n)`: the first min(n, |s|) characters. */
  function Take(s: string, n: nat): (r: string)
    ensures |r| == if |s| <= n then |s| else n
    ensures r == s[..|r|]
  {
    if |s| <= n then s else s[..n]
  }

  /**
    `s.slice(a, b)` for non-negative offsets: both ends are clamped to the
    length of `s`, and an empty string results when the start is not before
    the end.
  */
  function Slice(s: string, a: nat, b: nat): (r: string)
    ensures |r| <= |s|
    ensures a <= b <= |s| ==> r == s[a..b]
    ensures a <= |s| <= b ==> r == s[a..]
    ensures b <= a ==> r == []
    ensures |s| <= a ==> r == []
  {
    var from := if a <= |s| then a else |s|;
    var to := if b <= |s| then b else |s|;
    if from < to then s[from..to] else []
  }

  /** The in-order concatenation of a sequence of strings. */
  function Concat(pieces: seq<string>): string {
    if pieces == [] then [] else pieces[0] + Concat(pieces[1..])
  }

  /** Concatenation distributes over appending sequences of pieces. */
  lemma {:induction false} ConcatAppend(a: seq<string>, b: seq<string>)
    ensures Concat(a + b) == Concat(a) + Concat(b)
  {
    if a != [] {
      assert (a + b)[1..] == a[1..] + b;
      ConcatAppend(a[1..], b);
    } else {
      assert a + b == b;
    }
  }

  /** Every piece of a concatenation occurs in it, right after the pieces before it. */
  lemma PieceIsSubstring(pieces: seq<string>, k: nat)
    requires k < |pieces|
    ensures var off := |Concat(pieces[..k])|;
            off + |pieces[k]| <= |Concat(pieces)| && Concat(pieces)[off..off + |pieces[k]|] == pieces[k]
  {
    assert pieces == pieces[..k] + pieces[k..];
    ConcatAppend(pieces[..k], pieces[k..]);
    assert pieces[k..][1..] == pieces[k + 1..];
  }
}
