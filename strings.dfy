/**
 * The Python string primitives the category manager relies on:
 * `sub in s`, `s.startswith(p)`, `s.endswith(p)` and `s.find(sub, start)`.
 */
module Strings {

  /** `pat` occurs in `s` starting at index `k`. */
  predicate IsAt(s: string, pat: string, k: int)
  {
    0 <= k && k + |pat| <= |s| && s[k..k + |pat|] == pat
  }

  /** Python's `pat in s`. */
  predicate Contains(s: string, pat: string)
  {
    exists k :: 0 <= k <= |s| - |pat| && IsAt(s, pat, k)
  }

  /** Python's `s.startswith(p)`. */
  predicate StartsWith(s: string, p: string)
  {
    |p| <= |s| && s[..|p|] == p
  }

  /** Python's `s.endswith(p)`. */
  predicate EndsWith(s: string, p: string)
  {
    |p| <= |s| && s[|s| - |p|..] == p
  }

  /**
   * Python's `s.find(pat, start)`: the first index at or after `start`
   * where `pat` occurs, or -1 when there is none.
   */
  function Find(s: string, pat: string, start: nat): (r: int)
    ensures r == -1 <==> forall j :: start <= j ==> !IsAt(s, pat, j)
    ensures r != -1 ==> start <= r && IsAt(s, pat, r)
    ensures r != -1 ==> forall j :: start <= j < r ==> !IsAt(s, pat, j)
    decreases |s| - start
  {
    if start + |pat| > |s| then -1
    else if IsAt(s, pat, start) then start
    else Find(s, pat, start + 1)
  }

  /** An occurrence inside a slice is an occurrence in the whole string, shifted. */
  lemma {:induction false} IsAtSlice(s: string, pat: string, lo: nat, hi: nat, k: int)
    requires lo <= hi <= |s|
    requires IsAt(s[lo..hi], pat, k)
    ensures IsAt(s, pat, lo + k) && lo + k + |pat| <= hi
  {
    var t := s[lo..hi];
    assert forall i :: 0 <= i < |pat| ==> pat[i] == t[k + i] == s[lo + k + i];
    assert s[lo + k..lo + k + |pat|] == pat;
  }

  /** Python's `s.rfind(c)` for a single character: the last index holding `c`, or -1. */
  function RFind(s: string, c: char): (r: int)
    ensures -1 <= r < |s|
    ensures r == -1 <==> c !in s
    ensures r != -1 ==> s[r] == c && forall j :: r < j < |s| ==> s[j] != c
  {
    if s == [] then -1
    else if s[|s| - 1] == c then |s| - 1
    else RFind(s[..|s| - 1], c)
  }
}
