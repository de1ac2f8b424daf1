/** Prefixes, suffixes and substrings, and the ways concatenation keeps them. */
module Strings {
  predicate StartsWith(s: string, prefix: string) {
    |prefix| <= |s| && s[..|prefix|] == prefix
  }

  predicate EndsWith(s: string, suffix: string) {
    |suffix| <= |s| && s[|s| - |suffix|..] == suffix
  }

  /** `sub` occurs in `s` starting at index `i`. */
  predicate OccursAt(s: string, sub: string, i: int) {
    0 <= i <= |s| - |sub| && s[i..i + |sub|] == sub
  }

  predicate Contains(s: string, sub: string) {
    exists i :: 0 <= i <= |s| && OccursAt(s, sub, i)
  }

  /** A JavaScript line terminator: `.` in a regular expression matches any
      character but these. */
  predicate LineTerminator(c: char) {
    c == '\n' || c == '\r' || c == '\U{2028}' || c == '\U{2029}'
  }

  predicate OneLine(s: string) {
    forall i :: 0 <= i < |s| ==> !LineTerminator(s[i])
  }

  /** `s` matches the unanchored regular expression `/a.+b.+c/`: `a`, `b` and
      `c` occur in this order, separated by gaps of at least one character
      that hold no line terminator. */
  predicate MatchesGapped(s: string, a: string, b: string, c: string) {
    exists i, j, k ::
      && 0 <= i <= |s| && 0 <= j <= |s| && 0 <= k <= |s|
      && OccursAt(s, a, i) && OccursAt(s, b, j) && OccursAt(s, c, k)
      && i + |a| < j && j + |b| < k
      && OneLine(s[i + |a|..j]) && OneLine(s[j + |b|..k])
  }

  lemma Assoc(a: string, b: string, c: string)
    ensures a + b + c == a + (b + c)
  {
    assert |a + b + c| == |a + (b + c)|;
    forall i | 0 <= i < |a + b + c|
      ensures (a + b + c)[i] == (a + (b + c))[i]
    {
      if i < |a| + |b| { assert (a + b + c)[i] == (a + b)[i]; }
    }
  }

  /** `a`, `b` and `c` joined by two non-empty gaps without a line
      terminator match `/a.+b.+c/`. */
  lemma GappedMatch(a: string, x: string, b: string, y: string, c: string)
    requires x != [] && y != [] && OneLine(x) && OneLine(y)
    ensures MatchesGapped(a + x + b + y + c, a, b, c)
  {
    var s := a + x + b + y + c;
    var j, k := |a| + |x|, |a| + |x| + |b| + |y|;
    assert s[0..|a|] == a;
    assert s[|a|..j] == x;
    assert s[j..j + |b|] == b;
    assert s[j + |b|..k] == y;
    assert s[k..k + |c|] == c;
    assert OccursAt(s, a, 0) && OccursAt(s, b, j) && OccursAt(s, c, k);
  }

  lemma ContainsInMiddle(a: string, b: string, c: string)
    ensures Contains(a + b + c, b)
  {
    assert (a + b + c)[|a|..|a| + |b|] == b;
    assert OccursAt(a + b + c, b, |a|);
  }

  lemma ContainsAtEnd(a: string, b: string)
    ensures Contains(a + b, b)
  {
    assert (a + b)[|a|..|a| + |b|] == b;
    assert OccursAt(a + b, b, |a|);
  }

  /** Text added after a string keeps what the string contains. */
  lemma ContainsExtended(a: string, b: string, sub: string)
    requires Contains(a, sub)
    ensures Contains(a + b, sub)
  {
    var i :| 0 <= i <= |a| && OccursAt(a, sub, i);
    assert (a + b)[i..i + |sub|] == a[i..i + |sub|];
    assert OccursAt(a + b, sub, i);
  }

  /** Text added before a string keeps what the string contains. */
  lemma ContainsPrepended(a: string, b: string, sub: string)
    requires Contains(b, sub)
    ensures Contains(a + b, sub)
  {
    var i :| 0 <= i <= |b| && OccursAt(b, sub, i);
    assert (a + b)[|a| + i..|a| + i + |sub|] == b[i..i + |sub|];
    assert OccursAt(a + b, sub, |a| + i);
  }

  lemma ThreeParts(a: string, b: string, c: string)
    ensures StartsWith(a + b + c, a)
    ensures (a + b + c)[|a|..] == b + c
    ensures EndsWith(b + c, c)
    ensures (a + b + c)[|a|..|a + b + c| - |c|] == b
  {
    assert (a + b + c)[..|a|] == a;
    assert (b + c)[|b + c| - |c|..] == c;
  }

  lemma PrefixOfConcat(a: string, b: string)
    ensures StartsWith(a + b, a) && (a + b)[|a|..] == b
  {
    assert (a + b)[..|a|] == a;
  }

  lemma StartsWithExtended(s: string, t: string, prefix: string)
    requires StartsWith(s, prefix)
    ensures StartsWith(s + t, prefix)
  {
    assert (s + t)[..|prefix|] == s[..|prefix|];
  }
}
