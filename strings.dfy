/** Character classes and string predicates shared by the URL rules of the list page. */
module Strings {

  /** JavaScript's `\s`: the ASCII blanks, the Unicode space separators, the line and
      paragraph separators and the byte-order mark. */
  predicate IsSpace(c: char) {
    c == ' ' || c == '\t' || c == '\n' || c == '\U{B}' || c == '\U{C}' || c == '\r'
    || c == '\U{A0}' || c == '\U{1680}' || ('\U{2000}' <= c <= '\U{200A}')
    || c == '\U{2028}' || c == '\U{2029}' || c == '\U{202F}' || c == '\U{205F}'
    || c == '\U{3000}' || c == '\U{FEFF}'
  }

  /** JavaScript's `\S`. */
  predicate NotSpace(c: char) {
    !IsSpace(c)
  }

  /** The class `[a-zA-Z0-9_-]` a video identifier is drawn from. */
  predicate IsIdChar(c: char) {
    ('a' <= c <= 'z') || ('A' <= c <= 'Z') || ('0' <= c <= '9') || c == '_' || c == '-'
  }

  predicate IsId(s: string) {
    forall k :: 0 <= k < |s| ==> IsIdChar(s[k])
  }

  /** Every character of `s[lo..hi]` is in class `P`. */
  predicate All(s: string, lo: nat, hi: nat, P: char -> bool)
    requires lo <= hi <= |s|
  {
    forall k :: lo <= k < hi ==> P(s[k])
  }

  /** `s` holds `p` at position `i`. */
  predicate StartsAt(s: string, i: nat, p: string) {
    i + |p| <= |s| && s[i..i + |p|] == p
  }

  /** JavaScript's `String.prototype.endsWith`. */
  predicate EndsWith(s: string, p: string) {
    |p| <= |s| && s[|s| - |p|..] == p
  }

  /** JavaScript's `String.prototype.includes`: `p` occurs somewhere in `s`. */
  predicate Includes(s: string, p: string) {
    exists i :: 0 <= i <= |s| && StartsAt(s, i, p)
  }

  /** `toLowerCase` restricted to ASCII: upper-case letters map to lower case, every other character is kept. */
  function LowerChar(c: char): (r: char)
    ensures !('A' <= r <= 'Z')
    ensures 'A' <= c <= 'Z' ==> 'a' <= r <= 'z' && r as int - c as int == 'a' as int - 'A' as int
    ensures !('A' <= c <= 'Z') ==> r == c
  {
    if 'A' <= c <= 'Z' then (c as int + 32) as char else c
  }

  function Lower(s: string): (r: string)
    ensures |r| == |s|
    ensures forall k :: 0 <= k < |s| ==> r[k] == LowerChar(s[k]) && !('A' <= r[k] <= 'Z')
  {
    seq(|s|, k requires 0 <= k < |s| => LowerChar(s[k]))
  }

  /** The end of the longest run of class `P` that starts at `i`: a greedy quantifier `P*`. */
  function RunEnd(s: string, i: nat, P: char -> bool): (r: nat)
    requires i <= |s|
    ensures i <= r <= |s|
    ensures All(s, i, r, P)
    ensures r == |s| || !P(s[r])
    decreases |s| - i
  {
    if i < |s| && P(s[i]) then RunEnd(s, i + 1, P) else i
  }

  /** A run of class `P` that starts at `i` and is followed by a character outside `P`, or by the end of
      `s`, ends where `RunEnd` says: a greedy quantifier has only one way to stop. */
  lemma RunEndUnique(s: string, i: nat, e: nat, P: char -> bool)
    requires i <= e <= |s|
    requires All(s, i, e, P)
    requires e == |s| || !P(s[e])
    ensures RunEnd(s, i, P) == e
  {
  }

  /** A string placed between two others occurs right after the first. */
  lemma StartsAtConcat(a: string, p: string, b: string)
    ensures StartsAt(a + p + b, |a|, p)
  {
    assert (a + p + b)[|a|..|a| + |p|] == p;
  }

  /** A stretch of class `P` keeps its class once placed between two other strings. */
  lemma AllInConcat(a: string, p: string, b: string, P: char -> bool)
    requires All(p, 0, |p|, P)
    ensures All(a + p + b, |a|, |a| + |p|, P)
  {
    assert forall k :: |a| <= k < |a| + |p| ==> (a + p + b)[k] == p[k - |a|];
  }

  /** Concatenation regrouped: a string split into six pieces, read with the last four taken together. */
  lemma Regroup(a: string, b: string, c: string, d: string, e: string, f: string)
    ensures a + b + c + d + e + f + "" == a + b + (c + d + e + f)
  {
  }

  /** Empty ends add nothing to a concatenation of three strings. */
  lemma EmptyEnds(a: string, b: string, c: string)
    ensures "" + a + b + c + "" == a + b + c
  {
  }
}
