/**
 * The organisation suggestion (`suggest_category_organization`): the
 * categories of the run in first-seen order (the keys of a `Counter`),
 * split into main categories (listed at least twice) and tags, and the
 * two keyword groups.
 */
module Suggest {
  import opened Strings

  const MainThreshold := 2

  predicate NoDuplicates(s: seq<string>)
  {
    forall i, j :: 0 <= i < j < |s| ==> s[i] != s[j]
  }

  /** The index where `x` first occurs in `s`. */
  function FirstIndex(s: seq<string>, x: string): (k: nat)
    requires x in s
    ensures k < |s| && s[k] == x && x !in s[..k]
  {
    if s[0] == x then 0 else 1 + FirstIndex(s[1..], x)
  }

  /** An element of a prefix first occurs where it first occurs in the prefix. */
  lemma {:induction false} FirstIndexOfPrefix(p: seq<string>, q: seq<string>, x: string)
    requires x in p
    ensures FirstIndex(p + q, x) == FirstIndex(p, x)
  {
    if p[0] != x {
      assert (p + q)[1..] == p[1..] + q;
      FirstIndexOfPrefix(p[1..], q, x);
    }
  }

  /** The elements of `r` all come from `all`, each first occurring in `all` before the next does. */
  predicate InFirstSeenOrder(r: seq<string>, all: seq<string>)
  {
    && (forall x :: x in r ==> x in all)
    && forall i, j :: 0 <= i < j < |r| && r[i] in all && r[j] in all ==> FirstIndex(all, r[i]) < FirstIndex(all, r[j])
  }

  /** The distinct elements of `s`, in the order of their first occurrence. */
  function Distinct(s: seq<string>): (r: seq<string>)
    ensures forall x :: x in r <==> x in s
    ensures NoDuplicates(r)
    ensures InFirstSeenOrder(r, s)
  {
    if s == [] then []
    else
      var init, x := s[..|s| - 1], s[|s| - 1];
      var d := Distinct(init);
      assert s == init + [x];
      assert forall y :: y in s <==> y in init || y == x;
      forall y | y in init
        ensures FirstIndex(s, y) == FirstIndex(init, y)
      {
        FirstIndexOfPrefix(init, [x], y);
      }
      if x in d then d
      else
        assert FirstIndex(s, x) == |s| - 1;
        d + [x]
  }

  /** The elements of `s` that satisfy `keep`, in order. */
  function Filter(s: seq<string>, keep: string -> bool): (r: seq<string>)
    ensures forall x :: x in r <==> x in s && keep(x)
    ensures NoDuplicates(s) ==> NoDuplicates(r)
  {
    if s == [] then []
    else
      var init, x := s[..|s| - 1], s[|s| - 1];
      assert s == init + [x];
      assert forall y :: y in s <==> y in init || y == x;
      Filter(init, keep) + (if keep(x) then [x] else [])
  }

  /** Filtering a sequence in first-seen order keeps that order. */
  lemma {:induction false} FilterKeepsOrder(s: seq<string>, keep: string -> bool, all: seq<string>)
    requires InFirstSeenOrder(s, all)
    ensures InFirstSeenOrder(Filter(s, keep), all)
  {
    if s != [] {
      var init, x := s[..|s| - 1], s[|s| - 1];
      assert s == init + [x];
      assert forall i :: 0 <= i < |init| ==> init[i] == s[i];
      FilterKeepsOrder(init, keep, all);
      var picked := Filter(init, keep);
      if keep(x) {
        var r := picked + [x];
        forall i, j | 0 <= i < j < |r| && r[i] in all && r[j] in all
          ensures FirstIndex(all, r[i]) < FirstIndex(all, r[j])
        {
          if j == |r| - 1 {
            assert r[i] == picked[i] && picked[i] in picked;
            var k :| 0 <= k < |init| && init[k] == r[i];
            assert s[k] == r[i] && s[|s| - 1] == x;
          } else {
            assert r[i] == picked[i] && r[j] == picked[j];
          }
        }
      }
    }
  }

  /** How often `c` is listed, as `Counter(all_categories)[c]`. */
  function Count(all: seq<string>, c: string): nat
  {
    multiset(all)[c]
  }

  /** Categories used in at least two places. */
  function MainCategories(all: seq<string>): (r: seq<string>)
    ensures forall c :: c in r <==> Count(all, c) >= MainThreshold
    ensures NoDuplicates(r)
  {
    Filter(Distinct(all), c => Count(all, c) >= MainThreshold)
  }

  /** Categories used fewer than two times. */
  function Tags(all: seq<string>): (r: seq<string>)
    ensures forall c :: c in r <==> Count(all, c) == 1
    ensures NoDuplicates(r)
  {
    Filter(Distinct(all), c => Count(all, c) < MainThreshold)
  }

  /**
   * The two tiers split the categories: a category is main exactly when it
   * is listed at least twice, a tag exactly when it is listed once, never
   * both, and every category is one or the other. Neither tier repeats a
   * category.
   */
  lemma Partition(all: seq<string>)
    ensures forall c :: c in MainCategories(all) <==> Count(all, c) >= MainThreshold
    ensures forall c :: c in Tags(all) <==> Count(all, c) == 1
    ensures forall c :: c in all <==> c in MainCategories(all) || c in Tags(all)
    ensures forall c :: !(c in MainCategories(all) && c in Tags(all))
    ensures NoDuplicates(MainCategories(all)) && NoDuplicates(Tags(all))
  {
  }

  /** Categories whose label mentions a mathematics keyword. */
  predicate IsMath(c: string)
  {
    Contains(c, "Math") || Contains(c, "Algebra") || Contains(c, "Calculus")
  }

  /** Categories whose label mentions an AI keyword. */
  predicate IsAi(c: string)
  {
    Contains(c, "AI") || Contains(c, "Learning") || Contains(c, "Neural")
  }

  /** The mathematics group: every category of the run that mentions a mathematics keyword, once, in first-seen order. */
  function MathGroup(all: seq<string>): (r: seq<string>)
    ensures forall c :: c in r <==> c in all && IsMath(c)
    ensures NoDuplicates(r) && InFirstSeenOrder(r, all)
  {
    FilterKeepsOrder(Distinct(all), IsMath, all);
    Filter(Distinct(all), IsMath)
  }

  /** The AI/ML group: every category of the run that mentions an AI keyword, once, in first-seen order. */
  function AiGroup(all: seq<string>): (r: seq<string>)
    ensures forall c :: c in r <==> c in all && IsAi(c)
    ensures NoDuplicates(r) && InFirstSeenOrder(r, all)
  {
    FilterKeepsOrder(Distinct(all), IsAi, all);
    Filter(Distinct(all), IsAi)
  }
}
