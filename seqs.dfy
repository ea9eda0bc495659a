/** Order-preserving filtering of sequences, the shape of every "append if it matches" loop in the system. */
module Seqs {

  /** The elements of `s` that satisfy `keep`, in their original order. */
  function Filter<T>(s: seq<T>, keep: T -> bool): seq<T>
  {
    if s == [] then []
    else Filter(s[..|s| - 1], keep) + (if keep(s[|s| - 1]) then [s[|s| - 1]] else [])
  }

  /** `idx` picks, in increasing order, positions of `b` that spell out `a`: `a` keeps the relative order of `b`. */
  predicate Embeds<T(==)>(idx: seq<int>, a: seq<T>, b: seq<T>)
  {
    && |idx| == |a|
    && (forall k :: 0 <= k < |idx| ==> 0 <= idx[k] < |b| && a[k] == b[idx[k]])
    && (forall k, l :: 0 <= k < l < |idx| ==> idx[k] < idx[l])
  }

  /** The positions of `s` whose elements satisfy `keep`, in increasing order. */
  function KeptPositions<T>(s: seq<T>, keep: T -> bool): seq<int>
  {
    if s == [] then []
    else KeptPositions(s[..|s| - 1], keep) + (if keep(s[|s| - 1]) then [|s| - 1] else [])
  }

  /** No element occurs twice. */
  predicate Distinct<T(==)>(s: seq<T>)
  {
    forall i, j :: 0 <= i < j < |s| ==> s[i] != s[j]
  }

  /** An element is kept exactly when it occurs in the input and satisfies the predicate. */
  lemma {:induction false} FilterMembers<T>(s: seq<T>, keep: T -> bool, x: T)
    ensures x in Filter(s, keep) <==> x in s && keep(x)
    decreases |s|
  {
    if s != [] {
      var init := s[..|s| - 1];
      FilterMembers(init, keep, x);
      assert s == init + [s[|s| - 1]];
    }
  }

  /** Each element occurs in the result exactly as often as in the input when kept, and not at all otherwise. */
  lemma {:induction false} FilterCounts<T>(s: seq<T>, keep: T -> bool, x: T)
    ensures multiset(Filter(s, keep))[x] == if keep(x) then multiset(s)[x] else 0
    decreases |s|
  {
    if s != [] {
      var init := s[..|s| - 1];
      FilterCounts(init, keep, x);
      assert s == init + [s[|s| - 1]];
    }
  }

  /** The filter result is the input read at the kept positions, which increase: relative order is preserved. */
  lemma {:induction false} FilterPreservesOrder<T>(s: seq<T>, keep: T -> bool)
    ensures Embeds(KeptPositions(s, keep), Filter(s, keep), s)
    decreases |s|
  {
    if s != [] {
      var init := s[..|s| - 1];
      FilterPreservesOrder(init, keep);
      var idx0, f0 := KeptPositions(init, keep), Filter(init, keep);
      assert forall k :: 0 <= k < |idx0| ==> idx0[k] < |init| && s[idx0[k]] == init[idx0[k]];
    }
  }

  /** Filtering a sequence without repetitions yields one without repetitions. */
  lemma FilterKeepsDistinct<T>(s: seq<T>, keep: T -> bool)
    requires Distinct(s)
    ensures Distinct(Filter(s, keep))
  {
    FilterPreservesOrder(s, keep);
    var f, idx := Filter(s, keep), KeptPositions(s, keep);
    forall i, j | 0 <= i < j < |f| ensures f[i] != f[j] {
      assert f[i] == s[idx[i]] && f[j] == s[idx[j]] && idx[i] < idx[j];
    }
  }
}
