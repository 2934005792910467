/**
 * `slice::partition_point`: binary search for the first element that fails
 * a predicate which holds on a prefix of the slice. The plotter uses it on
 * sorted x-values (view windowing in the downsampler, nearest-neighbour
 * probing in series math).
 */
module Search {

  /** Non-decreasing order, as `windows(2).all(|w| w[0] <= w[1])` checks. */
  predicate Sorted(s: seq<real>)
  {
    forall i, j :: 0 <= i <= j < |s| ==> s[i] <= s[j]
  }

  predicate AdjacentSorted(s: seq<real>)
  {
    forall i :: 0 <= i < |s| - 1 ==> s[i] <= s[i + 1]
  }

  /** The pairwise check the program performs is enough for global order. */
  lemma {:induction false} AdjacentSortedIsSorted(s: seq<real>)
    ensures AdjacentSorted(s) <==> Sorted(s)
  {
    if AdjacentSorted(s) {
      forall i, j | 0 <= i <= j < |s|
        ensures s[i] <= s[j]
      {
        var k := i;
        while k < j
          invariant i <= k <= j
          invariant s[i] <= s[k]
        {
          k := k + 1;
        }
      }
    }
  }

  /** `p` holds on a prefix of `s` and nowhere after it. */
  predicate Partitioned(s: seq<real>, p: real -> bool)
  {
    forall i, j :: 0 <= i <= j < |s| && p(s[j]) ==> p(s[i])
  }

  /** Length of the longest prefix of `s` whose elements satisfy `p`. */
  function LeadingCount(s: seq<real>, p: real -> bool): nat
  {
    if s == [] || !p(s[0]) then 0 else 1 + LeadingCount(s[1..], p)
  }

  /** The leading count is the partition point: `p` holds before it and,
      when `s` is partitioned, fails from it on. */
  lemma {:induction false} LeadingCountSplits(s: seq<real>, p: real -> bool)
    ensures LeadingCount(s, p) <= |s|
    ensures forall i :: 0 <= i < LeadingCount(s, p) ==> p(s[i])
    ensures LeadingCount(s, p) < |s| ==> !p(s[LeadingCount(s, p)])
    ensures Partitioned(s, p) ==> forall i :: LeadingCount(s, p) <= i < |s| ==> !p(s[i])
  {
    if s != [] && p(s[0]) {
      LeadingCountSplits(s[1..], p);
      assert forall i :: 1 <= i < LeadingCount(s, p) ==> s[i] == s[1..][i - 1];
      if Partitioned(s, p) {
        assert Partitioned(s[1..], p) by {
          forall i, j | 0 <= i <= j < |s| - 1 && p(s[1..][j])
            ensures p(s[1..][i])
          {
            assert s[1..][j] == s[j + 1] && s[1..][i] == s[i + 1];
          }
        }
        forall i | LeadingCount(s, p) <= i < |s|
          ensures !p(s[i])
        {
          assert s[i] == s[1..][i - 1];
        }
      }
    }
  }

  /** Any split point of a partitioned sequence is its leading count. */
  lemma SplitIsLeadingCount(s: seq<real>, p: real -> bool, k: nat)
    requires k <= |s|
    requires forall i :: 0 <= i < k ==> p(s[i])
    requires forall i :: k <= i < |s| ==> !p(s[i])
    ensures k == LeadingCount(s, p)
  {
    LeadingCountSplits(s, p);
    var n := LeadingCount(s, p);
    assert k < |s| ==> !p(s[k]);
    assert n < |s| ==> !p(s[n]);
  }

  /** On sorted values the predicates `v < c` and `v <= c` are partitioned. */
  lemma SortedPartitioned(s: seq<real>, c: real)
    requires Sorted(s)
    ensures Partitioned(s, v => v < c)
    ensures Partitioned(s, v => v <= c)
  {
  }

  /** `partition_point`, as a binary search. */
  method PartitionPoint(s: seq<real>, p: real -> bool) returns (k: nat)
    requires Partitioned(s, p)
    ensures k <= |s|
    ensures forall i :: 0 <= i < k ==> p(s[i])
    ensures forall i :: k <= i < |s| ==> !p(s[i])
    ensures k == LeadingCount(s, p)
  {
    var lo, hi := 0, |s|;
    while lo < hi
      invariant 0 <= lo <= hi <= |s|
      invariant forall i :: 0 <= i < lo ==> p(s[i])
      invariant forall i :: hi <= i < |s| ==> !p(s[i])
    {
      var mid := lo + (hi - lo) / 2;
      if p(s[mid]) {
        lo := mid + 1;
      } else {
        hi := mid;
      }
    }
    k := lo;
    SplitIsLeadingCount(s, p, k);
  }

  /** A weaker threshold never moves the partition point forwards. */
  lemma {:induction false} LeadingCountMonotone(s: seq<real>, c: real, d: real)
    requires c <= d
    ensures LeadingCount(s, v => v < c) <= LeadingCount(s, v => v < d)
    ensures LeadingCount(s, v => v <= c) <= LeadingCount(s, v => v <= d)
    ensures LeadingCount(s, v => v < c) <= LeadingCount(s, v => v <= c)
  {
    if s != [] {
      LeadingCountMonotone(s[1..], c, d);
    }
  }
}
