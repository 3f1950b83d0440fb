/** Generic facts about sequences shared by the list operations of the model. */
module Sequences {

  function Min(a: int, b: int): int
  {
    if a <= b then a else b
  }

  /** `sub` is obtained from `s` by deleting some elements, keeping the order of the rest. */
  ghost predicate IsSubsequence<T>(sub: seq<T>, s: seq<T>)
    decreases |s|
  {
    if s == [] then sub == []
    else
      IsSubsequence(sub, s[..|s| - 1])
      || (sub != [] && sub[|sub| - 1] == s[|s| - 1] && IsSubsequence(sub[..|sub| - 1], s[..|s| - 1]))
  }

  /** Every sequence is a subsequence of itself. */
  lemma {:induction false} AllIsSubsequence<T>(s: seq<T>)
    ensures IsSubsequence(s, s)
  {
    if s != [] {
      AllIsSubsequence(s[..|s| - 1]);
    }
  }

  /** A non-empty sequence is its front followed by its last element. */
  lemma SplitLast<T>(s: seq<T>)
    requires s != []
    ensures s == s[..|s| - 1] + [s[|s| - 1]]
  {
  }

  /** Appending an element adds one to its count and leaves every other count as it was. */
  lemma CountAppend<T>(s: seq<T>, last: T, x: T)
    ensures multiset(s + [last])[x] == multiset(s)[x] + (if x == last then 1 else 0)
  {
    assert multiset(s + [last]) == multiset(s) + multiset{last};
  }

  /**
   * One step of a filter built by appending: if `rest` counts `x` as the
   * filter of `init` should, then so does `r`, the filter of `init + [last]`.
   */
  lemma FilterCountStep<T>(init: seq<T>, last: T, rest: seq<T>, r: seq<T>, keepLast: bool, keepX: bool, x: T)
    requires r == if keepLast then rest + [last] else rest
    requires multiset(rest)[x] == if keepX then multiset(init)[x] else 0
    requires x == last ==> keepX == keepLast
    ensures multiset(r)[x] == if keepX then multiset(init + [last])[x] else 0
  {
    CountAppend(init, last, x);
    if keepLast {
      CountAppend(rest, last, x);
    }
  }

  /** Every sequence of distinct elements has as many elements in its set as in itself. */
  lemma {:induction false} DistinctCardinality<T>(s: seq<T>)
    requires forall i, j :: 0 <= i < j < |s| ==> s[i] != s[j]
    ensures |set x | x in s| == |s|
  {
    if s != [] {
      var init := s[..|s| - 1];
      DistinctCardinality(init);
      assert (set x | x in s) == (set x | x in init) + {s[|s| - 1]};
      assert s[|s| - 1] !in (set x | x in init);
    }
  }
}
