/** Python's str.strip(). */
module Strings {

  /** The characters str.strip() takes for whitespace, from the first of a range to its last. */
  const SPACES: seq<(char, char)> := [
    ('\t', '\r'), ('\U{1C}', ' '), ('\U{85}', '\U{85}'), ('\U{A0}', '\U{A0}'), ('\U{1680}', '\U{1680}'),
    ('\U{2000}', '\U{200A}'), ('\U{2028}', '\U{2029}'), ('\U{202F}', '\U{202F}'), ('\U{205F}', '\U{205F}'),
    ('\U{3000}', '\U{3000}')]

  predicate InRanges(c: char, ranges: seq<(char, char)>) {
    ranges != [] && (ranges[0].0 <= c <= ranges[0].1 || InRanges(c, ranges[1..]))
  }

  predicate IsSpace(c: char) { InRanges(c, SPACES) }

  function LeftStrip(s: string): string { if s != [] && IsSpace(s[0]) then LeftStrip(s[1..]) else s }

  function RightStrip(s: string): string { if s != [] && IsSpace(s[|s| - 1]) then RightStrip(s[..|s| - 1]) else s }

  function Strip(s: string): string { RightStrip(LeftStrip(s)) }

  predicate AllSpace(s: string) { forall i :: 0 <= i < |s| ==> IsSpace(s[i]) }

  /** No whitespace at either end. */
  predicate Trimmed(s: string) { s != [] ==> !IsSpace(s[0]) && !IsSpace(s[|s| - 1]) }

  /** Between two stretches of whitespace, the text m that s consists of. */
  predicate Between(s: string, left: string, m: string, right: string) {
    s == left + m + right && AllSpace(left) && AllSpace(right) && Trimmed(m)
  }

  /** m is what is left of s when the whitespace at its ends is cut off. */
  ghost predicate Trims(s: string, m: string) { exists left, right :: Between(s, left, m, right) }

  lemma {:induction false} LeftStripCuts(s: string) returns (left: string)
    ensures s == left + LeftStrip(s) && AllSpace(left)
    ensures LeftStrip(s) != [] ==> !IsSpace(LeftStrip(s)[0])
  {
    if s != [] && IsSpace(s[0]) {
      var rest := LeftStripCuts(s[1..]);
      left := [s[0]] + rest;
    } else {
      left := [];
    }
  }

  lemma {:induction false} RightStripCuts(s: string) returns (right: string)
    ensures s == RightStrip(s) + right && AllSpace(right)
    ensures RightStrip(s) != [] ==> !IsSpace(RightStrip(s)[|RightStrip(s)| - 1]) && RightStrip(s)[0] == s[0]
  {
    if s != [] && IsSpace(s[|s| - 1]) {
      var rest := RightStripCuts(s[..|s| - 1]);
      right := rest + [s[|s| - 1]];
    } else {
      right := [];
    }
  }

  lemma {:induction false} LeftStripsAll(left: string, s: string)
    requires AllSpace(left) && (s != [] ==> !IsSpace(s[0]))
    ensures LeftStrip(left + s) == s
  {
    if left == [] {
      assert left + s == s;
    } else {
      assert (left + s)[1..] == left[1..] + s;
      LeftStripsAll(left[1..], s);
    }
  }

  lemma {:induction false} RightStripsAll(s: string, right: string)
    requires AllSpace(right) && (s != [] ==> !IsSpace(s[|s| - 1]))
    ensures RightStrip(s + right) == s
  {
    if right == [] {
      assert s + right == s;
    } else {
      var n := |right| - 1;
      assert (s + right)[..|s| + n] == s + right[..n];
      RightStripsAll(s, right[..n]);
    }
  }

  /** Strip(s) is the one text that s consists of between whitespace. */
  lemma StripTrims(s: string, m: string)
    ensures Trims(s, m) <==> m == Strip(s)
  {
    var left := LeftStripCuts(s);
    var right := RightStripCuts(LeftStrip(s));
    assert s == left + Strip(s) + right;
    assert Between(s, left, Strip(s), right);
    if Trims(s, m) {
      var a, b :| Between(s, a, m, b);
      BetweenIsStrip(s, a, m, b);
    }
  }

  lemma BetweenIsStrip(s: string, left: string, m: string, right: string)
    requires Between(s, left, m, right)
    ensures Strip(s) == m
  {
    if m == [] {
      assert s == left + right + [] && AllSpace(left + right);
      LeftStripsAll(left + right, []);
    } else {
      assert s == left + (m + right);
      LeftStripsAll(left, m + right);
      RightStripsAll(m, right);
    }
  }
}
