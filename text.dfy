/**
 * The string operations the message handler relies on: ASCII lower-casing
 * (standing for `toLowerCase`), `trim`, and `indexOf`/`includes`.
 * Strings are sequences of Unicode scalar values.
 */
module Text {
  import opened Wrappers

  /** ASCII case folding of one character; every other character is kept. */
  function LowerChar(c: char): (d: char)
    ensures !('A' <= d <= 'Z')
    ensures !('A' <= c <= 'Z') ==> d == c
  {
    if 'A' <= c <= 'Z' then (c as int + 32) as char else c
  }

  /** `toLowerCase`, folded character by character. */
  function Lower(s: string): (r: string)
    ensures |r| == |s|
    ensures forall i :: 0 <= i < |s| ==> r[i] == LowerChar(s[i])
  {
    seq(|s|, i requires 0 <= i < |s| => LowerChar(s[i]))
  }

  /** Lower-casing an already lower-cased string changes nothing. */
  lemma LowerIdempotent(s: string)
    ensures Lower(Lower(s)) == Lower(s)
  {
  }

  /** Lower-casing works piecewise on a concatenation. */
  lemma LowerConcat(a: string, b: string)
    ensures Lower(a + b) == Lower(a) + Lower(b)
  {
  }

  /**
   * The characters JavaScript's `trim` removes: its WhiteSpace
   * (tab, vertical tab, form feed, space, no-break space, byte order mark
   * and the other space separators) and its LineTerminator characters.
   */
  predicate IsSpace(c: char)
  {
    || c == '\t' || c == '\n' || c == '\U{B}' || c == '\U{C}' || c == '\r' || c == ' '
    || c == '\U{A0}' || c == '\U{1680}' || ('\U{2000}' <= c <= '\U{200A}')
    || c == '\U{2028}' || c == '\U{2029}' || c == '\U{202F}' || c == '\U{205F}'
    || c == '\U{3000}' || c == '\U{FEFF}'
  }

  /** Every character of `s` is white space. */
  predicate AllSpace(s: string)
  {
    forall i :: 0 <= i < |s| ==> IsSpace(s[i])
  }

  /** How many white-space characters `s` starts with. */
  function LeadingSpace(s: string): (n: nat)
    ensures n <= |s| && AllSpace(s[..n])
    ensures n < |s| ==> !IsSpace(s[n])
  {
    if s != [] && IsSpace(s[0]) then
      var n := 1 + LeadingSpace(s[1..]);
      assert forall i :: 1 <= i < n ==> s[..n][i] == s[1..][..n - 1][i - 1];
      n
    else 0
  }

  /** The length of `s` without its trailing white space. */
  function TrailingStart(s: string): (m: nat)
    ensures m <= |s| && AllSpace(s[m..])
    ensures m > 0 ==> !IsSpace(s[m - 1])
  {
    if s != [] && IsSpace(s[|s| - 1]) then
      var m := TrailingStart(s[..|s| - 1]);
      assert forall i :: 0 <= i < |s| - 1 - m ==> s[m..][i] == s[..|s| - 1][m..][i];
      m
    else |s|
  }

  /**
   * `trim`: the infix of `s` left after dropping its leading and trailing
   * white space. It is empty exactly when `s` is all white space.
   */
  function Trim(s: string): (r: string)
    ensures |r| <= |s|
    ensures LeadingSpace(s) + |r| <= |s| && r == s[LeadingSpace(s)..LeadingSpace(s) + |r|]
    ensures AllSpace(s[LeadingSpace(s) + |r|..])
    ensures r == [] || (!IsSpace(r[0]) && !IsSpace(r[|r| - 1]))
    ensures r == [] <==> AllSpace(s)
  {
    var a := LeadingSpace(s);
    var b := a + TrailingStart(s[a..]);
    assert a == |s| ==> s[..a] == s;
    assert a < |s| ==> b > a;
    assert s[b..] == s[a..][b - a..];
    s[a..b]
  }

  /** `p` occurs in `s` at position `k`. */
  predicate OccursAt(s: string, p: string, k: int)
  {
    0 <= k && k + |p| <= |s| && s[k..k + |p|] == p
  }

  /** `s.indexOf(p, from)`: the first position at or after `from` where `p` occurs. */
  function IndexFrom(s: string, p: string, from: nat): (r: Option<nat>)
    requires from <= |s|
    ensures r.Some? ==> from <= r.value && OccursAt(s, p, r.value)
    ensures forall k :: from <= k && (r.None? || k < r.value) ==> !OccursAt(s, p, k)
    decreases |s| - from
  {
    if OccursAt(s, p, from) then Some(from)
    else if from == |s| then None
    else IndexFrom(s, p, from + 1)
  }

  /** `s.indexOf(p)`. */
  function IndexOf(s: string, p: string): (r: Option<nat>)
    ensures r.Some? ==> OccursAt(s, p, r.value)
    ensures forall k :: 0 <= k && (r.None? || k < r.value) ==> !OccursAt(s, p, k)
  {
    IndexFrom(s, p, 0)
  }

  /** `s.includes(p)`: true exactly when `p` occurs somewhere in `s`. */
  predicate Contains(s: string, p: string)
    ensures Contains(s, p) <==> exists k :: OccursAt(s, p, k)
  {
    IndexOf(s, p).Some?
  }

  /** An occurrence inside an infix of `s` is an occurrence in `s`, shifted. */
  lemma OccursInInfix(s: string, p: string, a: nat, b: nat, k: int)
    requires a <= b <= |s|
    requires OccursAt(s[a..b], p, k)
    ensures OccursAt(s, p, a + k)
  {
    var inner, outer := s[a..b][k..k + |p|], s[a + k..a + k + |p|];
    assert forall i :: 0 <= i < |p| ==> inner[i] == outer[i];
  }

  /** An infix of a string that does not contain `p` does not contain it either. */
  lemma NotContainsInfix(s: string, p: string, a: nat, b: nat)
    requires a <= b <= |s|
    requires !Contains(s, p)
    ensures !Contains(s[a..b], p)
  {
    if Contains(s[a..b], p) {
      var k :| OccursAt(s[a..b], p, k);
      OccursInInfix(s, p, a, b, k);
    }
  }

  /** A string that contains `p` still contains it with text added on either side. */
  lemma ContainsInContext(pre: string, s: string, post: string, p: string)
    requires Contains(s, p)
    ensures Contains(pre + s + post, p)
  {
    var k :| OccursAt(s, p, k);
    var t := pre + s + post;
    assert t[|pre|..|pre| + |s|] == s;
    OccursInInfix(t, p, |pre|, |pre| + |s|, k);
  }

  /** If `p` holds a character that `s` lacks, `p` does not occur in `s`. */
  lemma MissingCharExcludes(s: string, p: string, j: nat)
    requires j < |p| && p[j] !in s
    ensures !Contains(s, p)
  {
  }
}
