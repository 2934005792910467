/**
 * Point reduction for plotting: Largest-Triangle-Three-Buckets (LTTB) and the
 * view-window slicer that feeds it (src/processing/downsampling.rs).
 *
 * Bucket boundaries are the exact integer floors
 * `floor(k * (n - 2) / (target - 2))`, computed with exact arithmetic. The
 * program multiplies `k` by the rounded double `(n - 2) / (target - 2)` and
 * truncates, which can give one less (63 points, target 9, k = 7).
 */
module Downsampling {
  import opened Common
  import opened Search

  // ---------------------------------------------------------------------
  // Integer division facts
  // ---------------------------------------------------------------------

  lemma MulMono(a: int, b: int, d: int)
    requires d >= 0
    ensures a <= b ==> a * d <= b * d
  {
    assert a <= b ==> (b - a) * d >= 0;
  }

  lemma DivAtLeast(a: int, d: int, q: int)
    requires d > 0 && q * d <= a
    ensures q <= a / d
  {
    var r := a / d;
    assert r * d + a % d == a;
    MulMono(r + 1, q, d);
  }

  lemma DivAtMost(a: int, d: int, q: int)
    requires d > 0 && a < (q + 1) * d
    ensures a / d <= q
  {
    var r := a / d;
    assert r * d + a % d == a;
    MulMono(q + 1, r, d);
  }

  // ---------------------------------------------------------------------
  // Bucket layout
  // ---------------------------------------------------------------------

  /** `((k as f64) * bucket_size) as usize` with `bucket_size = (n-2)/(target-2)`,
      computed exactly. */
  function BucketBound(n: int, target: int, k: nat): (b: int)
    requires n > target >= 3
  {
    (k * (n - 2)) / (target - 2)
  }

  /** Facts about the bucket bounds: they start at 0, grow by at least one
      per step (there are more interior points than buckets) and reach
      `n - 2` exactly at `k = target - 2`. */
  lemma BucketBoundFacts(n: int, target: int, k: nat)
    requires n > target >= 3
    ensures 0 <= BucketBound(n, target, k)
    ensures BucketBound(n, target, k + 1) >= BucketBound(n, target, k) + 1
    ensures k <= target - 2 ==> BucketBound(n, target, k) <= n - 2
    ensures BucketBound(n, target, target - 2) == n - 2
    ensures BucketBound(n, target, target - 1) >= n - 1
  {
    var d, m := target - 2, n - 2;
    var b := BucketBound(n, target, k);
    DivAtLeast(k * m, d, 0);
    assert b * d <= k * m;
    assert (b + 1) * d <= (k + 1) * m;
    DivAtLeast((k + 1) * m, d, b + 1);
    DivAtLeast(d * m, d, m);
    DivAtMost(d * m, d, m);
    if k <= d {
      MulMono(k, d, m);
      DivAtMost(k * m, d, m);
    }
    DivAtLeast((d + 1) * m, d, m + 1);
  }

  /** Index ranges of bucket `i` and of the bucket after it. The next bucket
      starts where bucket `i` ends (the program computes that bound twice). */
  datatype Bucket = Bucket(start: nat, end: nat, nextEnd: nat)

  function BucketOf(n: int, target: int, i: nat): (b: Bucket)
    requires n > target >= 3 && i < target - 2
    ensures 1 <= b.start <= b.end <= n - 1
    ensures b.end <= b.nextEnd <= n
    ensures i < target - 3 ==> b.start < b.end
    ensures i == target - 3 ==> b.start == n - 1 && b.end == n - 1
  {
    BucketBoundFacts(n, target, i + 1);
    BucketBoundFacts(n, target, i + 2);
    BucketBoundFacts(n, target, i);
    var start := BucketBound(n, target, i + 1) + 1;
    var end := if BucketBound(n, target, i + 2) + 1 < n - 1 then BucketBound(n, target, i + 2) + 1 else n - 1;
    var nextEnd := if BucketBound(n, target, i + 3) + 1 < n then BucketBound(n, target, i + 3) + 1 else n;
    Bucket(start, end, nextEnd)
  }

  /** Consecutive buckets tile the interior: bucket `i` ends where `i + 1` starts. */
  lemma BucketsAdjacent(n: int, target: int, i: nat)
    requires n > target >= 3 && i + 1 < target - 2
    ensures BucketOf(n, target, i).end == BucketOf(n, target, i + 1).start
  {
    BucketBoundFacts(n, target, i + 2);
  }

  // ---------------------------------------------------------------------
  // Triangle areas and the per-bucket choice
  // ---------------------------------------------------------------------

  /** Mean of `x[lo..hi]`, dividing by `max(hi - lo, 1)`. */
  function AvgX(x: seq<real>, lo: nat, hi: nat): real
    requires lo <= hi <= |x|
  {
    Sum(x[lo..hi]) / (if hi - lo > 1 then hi - lo else 1) as real
  }

  function AvgY(y: seq<F64>, lo: nat, hi: nat): F64
    requires lo <= hi <= |y|
  {
    var s := FSum(y[lo..hi]);
    if s.Fin? then Fin(s.v / (if hi - lo > 1 then hi - lo else 1) as real) else NaN
  }

  /** Twice the area of the triangle (previous point, candidate, average). */
  function Area2(px: real, py: F64, ax: real, ay: F64, xj: real, yj: F64): F64
  {
    var a := FSub(FMul(Fin(px - ax), FSub(yj, py)), FMul(Fin(px - xj), FSub(ay, py)));
    if a.Fin? then Fin(Abs(a.v)) else NaN
  }

  /** The value `area > max_area` compares, starting from `max_area = -1`:
      a not-a-number area never wins, so it ranks with the initial -1. */
  function Score(a: F64): real
  {
    if a.Fin? then a.v else -1.0
  }

  /** Scores of the candidates `lo..hi` against the previous point and the
      average of the next bucket. */
  function Scores(x: seq<real>, y: seq<F64>, prev: nat, ax: real, ay: F64, lo: nat, hi: nat): (s: seq<real>)
    requires prev < |x| <= |y| && lo <= hi <= |x|
    ensures |s| == hi - lo
  {
    seq(hi - lo, k requires 0 <= k < hi - lo => Score(Area2(x[prev], y[prev], ax, ay, x[lo + k], y[lo + k])))
  }

  /** `k` is the first position of a maximum of `s`. */
  predicate IsFirstMax(s: seq<real>, k: nat)
  {
    k < |s| && (forall j :: 0 <= j < |s| ==> s[j] <= s[k]) && (forall j :: 0 <= j < k ==> s[j] < s[k])
  }

  /** `best` is what the loop over bucket `i` picks when the previously chosen
      index is `prev`: the first index attaining the largest area, or the
      bucket start when the bucket is empty. */
  predicate ChosenInBucket(x: seq<real>, y: seq<F64>, target: nat, i: nat, prev: nat, best: nat)
    requires |y| >= |x| > target >= 3 && i < target - 2 && prev < |x|
  {
    var b := BucketOf(|x|, target, i);
    var ax, ay := AvgX(x, b.end, b.nextEnd), AvgY(y, b.end, b.nextEnd);
    if b.start == b.end then best == b.start
    else b.start <= best && IsFirstMax(Scores(x, y, prev, ax, ay, b.start, b.end), best - b.start)
  }

  /** The indices LTTB keeps: the first point, one choice per bucket made
      against the point chosen before it, and the last point. */
  ghost predicate LttbIndices(x: seq<real>, y: seq<F64>, target: nat, idx: seq<nat>)
    requires |y| >= |x| > target >= 3
  {
    |idx| == target && idx[0] == 0 && idx[target - 1] == |x| - 1 &&
    (forall k :: 0 <= k < target ==> idx[k] < |x|) &&
    (forall i :: 0 <= i < target - 2 ==> ChosenInBucket(x, y, target, i, idx[i], idx[i + 1]))
  }

  /** The result of `lttb_downsample(x, y, target)`. */
  ghost predicate IsLttb(x: seq<real>, y: seq<F64>, target: nat, ox: seq<real>, oy: seq<F64>, idx: seq<nat>)
    requires |y| >= |x|
  {
    if |x| <= target || target < 3 then ox == x && oy == y
    else
      LttbIndices(x, y, target, idx) && |ox| == |oy| == target &&
      forall k :: 0 <= k < target ==> ox[k] == x[idx[k]] && oy[k] == y[idx[k]]
  }

  /** A choice lies inside its bucket (or is the start of an empty one). */
  lemma ChosenInRange(x: seq<real>, y: seq<F64>, target: nat, i: nat, prev: nat, best: nat)
    requires |y| >= |x| > target >= 3 && i < target - 2 && prev < |x|
    requires ChosenInBucket(x, y, target, i, prev, best)
    ensures BucketOf(|x|, target, i).start <= best <= BucketOf(|x|, target, i).end
    ensures i < target - 3 ==> best < BucketOf(|x|, target, i).end
  {
  }

  /** One step of the kept indices: each choice lies after the previous one,
      and the choice in the last (empty) bucket is n - 1. */
  lemma LttbStep(x: seq<real>, y: seq<F64>, target: nat, idx: seq<nat>, i: nat)
    requires |y| >= |x| > target >= 3
    requires LttbIndices(x, y, target, idx) && i < target - 2
    ensures 1 <= idx[i + 1] && idx[i] < idx[i + 1]
    ensures i == target - 3 ==> idx[i + 1] == |x| - 1
  {
    ChosenInRange(x, y, target, i, idx[i], idx[i + 1]);
    if i > 0 {
      ChosenInRange(x, y, target, i - 1, idx[i - 1], idx[i]);
      BucketsAdjacent(|x|, target, i - 1);
    }
  }

  /** A sequence that increases at every step increases strictly overall. */
  lemma {:induction false} StepsIncrease(idx: seq<nat>, m: nat)
    requires m < |idx|
    requires forall i :: 0 < i <= m ==> idx[i - 1] < idx[i]
    ensures forall a, b :: 0 <= a < b <= m ==> idx[a] < idx[b]
  {
    if m > 0 {
      StepsIncrease(idx, m - 1);
      assert idx[m - 1] < idx[m];
      assert forall a :: 0 <= a < m - 1 ==> idx[a] < idx[m - 1];
    }
  }

  /** Shape of the kept indices: every index after the first lies in
      [1, n-1], the indices strictly increase up to the empty last bucket,
      which repeats n - 1, so the whole sequence is non-decreasing. */
  lemma LttbIndicesShape(x: seq<real>, y: seq<F64>, target: nat, idx: seq<nat>)
    requires |y| >= |x| > target >= 3
    requires LttbIndices(x, y, target, idx)
    ensures forall k :: 1 <= k < target ==> 1 <= idx[k] <= |x| - 1
    ensures forall a, b :: 0 <= a < b <= target - 2 ==> idx[a] < idx[b]
    ensures idx[target - 2] == |x| - 1 == idx[target - 1]
    ensures forall a, b :: 0 <= a <= b < target ==> idx[a] <= idx[b]
  {
    forall k | 1 <= k < target
      ensures 1 <= idx[k] <= |x| - 1
      ensures k < target - 1 ==> idx[k - 1] < idx[k]
    {
      if k < target - 1 {
        LttbStep(x, y, target, idx, k - 1);
      }
    }
    LttbStep(x, y, target, idx, target - 3);
    StepsIncrease(idx, target - 2);
  }

  /** The averaging loop over the next bucket. */
  method BucketAverage(x: seq<real>, y: seq<F64>, lo: nat, hi: nat) returns (ax: real, ay: F64)
    requires lo <= hi <= |x| <= |y|
    ensures ax == AvgX(x, lo, hi) && ay == AvgY(y, lo, hi)
  {
    var sx, sy := 0.0, Fin(0.0);
    for j := lo to hi
      invariant sx == Sum(x[lo..j]) && sy == FSum(y[lo..j])
    {
      assert x[lo..j + 1][..j - lo] == x[lo..j];
      assert y[lo..j + 1][..j - lo] == y[lo..j];
      sx := sx + x[j];
      sy := FAdd(sy, y[j]);
    }
    var count := if hi - lo > 1 then hi - lo else 1;
    ax := sx / count as real;
    ay := if sy.Fin? then Fin(sy.v / count as real) else NaN;
  }

  /** The search over one bucket for the first point of largest area,
      starting from `max_area = -1` and replacing it only on a strictly
      larger area. */
  method LargestTriangle(x: seq<real>, y: seq<F64>, prev: nat, ax: real, ay: F64, lo: nat, hi: nat) returns (best: nat)
    requires prev < |x| <= |y| && lo <= hi <= |x|
    ensures lo == hi ==> best == lo
    ensures lo < hi ==> lo <= best && IsFirstMax(Scores(x, y, prev, ax, ay, lo, hi), best - lo)
  {
    ghost var sc := Scores(x, y, prev, ax, ay, lo, hi);
    var maxArea := -1.0;
    best := lo;
    for j := lo to hi
      invariant lo <= best && (best < j || best == lo)
      invariant maxArea >= -1.0
      invariant j == lo ==> maxArea == -1.0
      invariant j > lo ==> maxArea == sc[best - lo]
      invariant forall k :: 0 <= k < j - lo ==> sc[k] <= maxArea
      invariant forall k :: 0 <= k < best - lo ==> sc[k] < maxArea
    {
      var area := Area2(x[prev], y[prev], ax, ay, x[j], y[j]);
      assert sc[j - lo] == Score(area);
      if area.Fin? && area.v > maxArea {
        maxArea := area.v;
        best := j;
      }
    }
  }

  /** The loop over the interior buckets of `lttb_downsample`: the first
      point, then one choice per bucket. */
  method ChooseBuckets(x: seq<real>, y: seq<F64>, target: nat) returns (ox: seq<real>, oy: seq<F64>, ghost idx: seq<nat>)
    requires |y| >= |x| > target >= 3
    ensures |ox| == |oy| == target - 1 && ox[0] == x[0] && oy[0] == y[0]
    ensures forall k :: 0 <= k < |ox| ==> ox[k] in x && oy[k] in y
    ensures |ox| == |oy| == |idx| == target - 1 && idx[0] == 0
    ensures forall k :: 0 <= k < target - 1 ==> idx[k] < |x| && ox[k] == x[idx[k]] && oy[k] == y[idx[k]]
    ensures forall k :: 0 <= k < target - 2 ==> ChosenInBucket(x, y, target, k, idx[k], idx[k + 1])
  {
    var n := |x|;
    ox, oy, idx := [x[0]], [y[0]], [0];
    var prev := 0;
    for i := 0 to target - 2
      invariant |ox| == |oy| == |idx| == i + 1
      invariant idx[0] == 0 && prev == idx[i]
      invariant forall k :: 0 <= k <= i ==> idx[k] < n && ox[k] == x[idx[k]] && oy[k] == y[idx[k]]
      invariant forall k :: 0 <= k < i ==> ChosenInBucket(x, y, target, k, idx[k], idx[k + 1])
    {
      var best := ChooseInBucket(x, y, target, i, prev);
      ox, oy, idx := ox + [x[best]], oy + [y[best]], idx + [best];
      prev := best;
    }
    forall k | 0 <= k < |ox|
      ensures ox[k] in x && oy[k] in y
    {
      assert ox[k] == x[idx[k]] && oy[k] == y[idx[k]];
    }
  }

  /** One pass of the bucket loop: the average of the next bucket, then the
      point of bucket `i` with the largest triangle against `prev`. */
  method ChooseInBucket(x: seq<real>, y: seq<F64>, target: nat, i: nat, prev: nat) returns (best: nat)
    requires |y| >= |x| > target >= 3 && i < target - 2 && prev < |x|
    ensures best < |x| && ChosenInBucket(x, y, target, i, prev, best)
  {
    var b := BucketOf(|x|, target, i);
    var ax, ay := BucketAverage(x, y, b.end, b.nextEnd);
    best := LargestTriangle(x, y, prev, ax, ay, b.start, b.end);
  }

  /** Points kept at non-decreasing positions of sorted x are sorted. */
  lemma KeptSorted(x: seq<real>, idx: seq<nat>, ox: seq<real>)
    requires Sorted(x) && |ox| == |idx|
    requires forall k :: 0 <= k < |idx| ==> idx[k] < |x| && ox[k] == x[idx[k]]
    requires forall a, b :: 0 <= a <= b < |idx| ==> idx[a] <= idx[b]
    ensures Sorted(ox)
  {
  }

  /** `lttb_downsample`. The ghost `idx` names the kept input positions. */
  method LttbDownsample(x: seq<real>, y: seq<F64>, target: nat) returns (ox: seq<real>, oy: seq<F64>, ghost idx: seq<nat>)
    requires |y| >= |x|
    ensures IsLttb(x, y, target, ox, oy, idx)
    ensures |x| <= target || target < 3 ==> ox == x && oy == y
    ensures |x| > target >= 3 ==>
      |ox| == |oy| == target &&
      ox[0] == x[0] && oy[0] == y[0] &&
      ox[target - 1] == x[|x| - 1] && oy[target - 1] == y[|x| - 1]
    ensures target >= 3 ==> |ox| <= target
    ensures |x| > target >= 3 && Sorted(x) ==> Sorted(ox)
  {
    var n := |x|;
    if n <= target || target < 3 {
      ox, oy, idx := x, y, [];
      return;
    }
    ox, oy, idx := ChooseBuckets(x, y, target);
    ox, oy, idx := ox + [x[n - 1]], oy + [y[n - 1]], idx + [n - 1];
    assert LttbIndices(x, y, target, idx);
    if Sorted(x) {
      LttbIndicesShape(x, y, target, idx);
      KeptSorted(x, idx, ox);
    }
  }

  // ---------------------------------------------------------------------
  // View window
  // ---------------------------------------------------------------------

  /** `partition_point(|v| v < view_min).saturating_sub(1)` */
  function ViewStart(x: seq<real>, viewMin: real): nat
  {
    var c := LeadingCount(x, v => v < viewMin);
    if c == 0 then 0 else c - 1
  }

  /** `(partition_point(|v| v <= view_max) + 1).min(len)` */
  function ViewEnd(x: seq<real>, viewMax: real): nat
  {
    var c := LeadingCount(x, v => v <= viewMax);
    if c + 1 < |x| then c + 1 else |x|
  }

  /** The window of sorted x holds every point of [view_min, view_max]. */
  lemma ViewWindowCoversView(x: seq<real>, viewMin: real, viewMax: real)
    requires Sorted(x) && viewMin <= viewMax
    ensures ViewStart(x, viewMin) <= ViewEnd(x, viewMax) <= |x|
    ensures forall i :: 0 <= i < |x| && viewMin <= x[i] <= viewMax ==>
      ViewStart(x, viewMin) <= i < ViewEnd(x, viewMax)
  {
    SortedPartitioned(x, viewMin);
    SortedPartitioned(x, viewMax);
    LeadingCountSplits(x, v => v < viewMin);
    LeadingCountSplits(x, v => v <= viewMax);
    LeadingCountMonotone(x, viewMin, viewMax);
  }

  /** The window of sorted x holds at most one point below view_min, its
      first, and that one whenever some point lies below view_min. */
  lemma ViewWindowLeftNeighbour(x: seq<real>, viewMin: real, viewMax: real)
    requires Sorted(x) && viewMin <= viewMax
    ensures forall i :: ViewStart(x, viewMin) <= i < ViewEnd(x, viewMax) && x[i] < viewMin ==>
      i == ViewStart(x, viewMin)
    ensures (exists i :: 0 <= i < |x| && x[i] < viewMin) ==>
      ViewStart(x, viewMin) < |x| && x[ViewStart(x, viewMin)] < viewMin
  {
    SortedPartitioned(x, viewMin);
    LeadingCountSplits(x, v => v < viewMin);
    var cl := LeadingCount(x, v => v < viewMin);
    if exists i :: 0 <= i < |x| && x[i] < viewMin {
      var i :| 0 <= i < |x| && x[i] < viewMin;
      assert i < cl;
    }
  }

  /** The window of sorted x holds at most one point above view_max, its
      last, and that one whenever some point lies above view_max. */
  lemma ViewWindowRightNeighbour(x: seq<real>, viewMin: real, viewMax: real)
    requires Sorted(x) && viewMin <= viewMax
    ensures forall i :: ViewStart(x, viewMin) <= i < ViewEnd(x, viewMax) && x[i] > viewMax ==>
      i == ViewEnd(x, viewMax) - 1
    ensures (exists i :: 0 <= i < |x| && x[i] > viewMax) ==>
      0 < ViewEnd(x, viewMax) && x[ViewEnd(x, viewMax) - 1] > viewMax
  {
    SortedPartitioned(x, viewMax);
    LeadingCountSplits(x, v => v <= viewMax);
    var ce := LeadingCount(x, v => v <= viewMax);
    if exists i :: 0 <= i < |x| && x[i] > viewMax {
      var i :| 0 <= i < |x| && x[i] > viewMax;
      assert ce <= i;
    }
  }

  /** Moving a view bound up never moves the corresponding window bound down. */
  lemma ViewBoundsMonotone(x: seq<real>, viewMin: real, viewMin': real, viewMax: real, viewMax': real)
    requires viewMin <= viewMin' && viewMax <= viewMax'
    ensures ViewStart(x, viewMin) <= ViewStart(x, viewMin')
    ensures ViewEnd(x, viewMax) <= ViewEnd(x, viewMax')
  {
    LeadingCountMonotone(x, viewMin, viewMin');
    LeadingCountMonotone(x, viewMax, viewMax');
  }

  /** The points of the zipped `(x, y)` whose x lies in [lo, hi], in order. */
  function InWindow(x: seq<real>, y: seq<F64>, lo: real, hi: real): (r: (seq<real>, seq<F64>))
    requires |y| >= |x|
    ensures |r.0| == |r.1| <= |x|
    ensures forall v :: v in r.0 ==> lo <= v <= hi
    ensures forall i :: 0 <= i < |x| && lo <= x[i] <= hi ==> x[i] in r.0
  {
    if x == [] then ([], [])
    else
      var p := InWindow(x[..|x| - 1], y, lo, hi);
      assert forall i :: 0 <= i < |x| - 1 ==> x[..|x| - 1][i] == x[i];
      if lo <= x[|x| - 1] <= hi then (p.0 + [x[|x| - 1]], p.1 + [y[|x| - 1]]) else p
  }

  /** The test the view filter applies to an x value. */
  function InView(lo: real, hi: real): real -> bool
  {
    v => lo <= v <= hi
  }

  /** One more point extends the window when its x is in range. */
  lemma InWindowSnoc(x: seq<real>, y: seq<F64>, lo: real, hi: real)
    requires |y| >= |x| && x != []
    ensures var n := |x| - 1; var p := InWindow(x[..n], y, lo, hi);
      InWindow(x, y, lo, hi) == if lo <= x[n] <= hi then (p.0 + [x[n]], p.1 + [y[n]]) else p
  {
  }

  /** The filtered window is the points at the ascending positions whose x
      lies in `[lo, hi]`, each y kept with its own x. */
  lemma {:induction false} InWindowByIndices(x: seq<real>, y: seq<F64>, lo: real, hi: real)
    requires |y| >= |x|
    ensures var ks := KeptIndices(x, InView(lo, hi)); var r := InWindow(x, y, lo, hi);
      |r.0| == |r.1| == |ks| && forall k :: 0 <= k < |ks| ==> r.0[k] == x[ks[k]] && r.1[k] == y[ks[k]]
  {
    if x != [] {
      var n := |x| - 1;
      var keep := InView(lo, hi);
      InWindowByIndices(x[..n], y, lo, hi);
      InWindowSnoc(x, y, lo, hi);
      KeptSnoc(x, keep);
      var p := InWindow(x[..n], y, lo, hi);
      var r := InWindow(x, y, lo, hi);
      var ks' := KeptIndices(x[..n], keep);
      var ks := KeptIndices(x, keep);
      assert keep(x[n]) == (lo <= x[n] <= hi);
      forall k | 0 <= k < |ks|
        ensures r.0[k] == x[ks[k]] && r.1[k] == y[ks[k]]
      {
        if k < |ks'| {
          assert ks[k] == ks'[k] && r.0[k] == p.0[k] && r.1[k] == p.1[k];
          assert x[..n][ks'[k]] == x[ks'[k]];
        }
      }
    }
  }

  /** `(ox, oy)` is what `downsample_for_view` returns for `(x, y)`: nothing
      for no data, the LTTB of the partition-point slice for sorted x, and
      the LTTB of the points inside the view otherwise. */
  ghost predicate ViewDownsampled(x: seq<real>, y: seq<F64>, viewMin: real, viewMax: real, maxPoints: nat,
                                  ox: seq<real>, oy: seq<F64>, idx: seq<nat>)
  {
    && |y| >= |x|
    && (x == [] ==> ox == [] && oy == [])
    && (x != [] && Sorted(x) ==>
          var s, e := ViewStart(x, viewMin), ViewEnd(x, viewMax);
          s <= e <= |x| && IsLttb(x[s..e], y[s..e], maxPoints, ox, oy, idx))
    && (x != [] && !Sorted(x) ==>
          var w := InWindow(x, y, viewMin, viewMax);
          IsLttb(w.0, w.1, maxPoints, ox, oy, idx))
  }

  /** `downsample_for_view`. The program slices `x[start..end]`, which panics
      when `start > end`; a view with `view_min <= view_max` never does
      (`ViewWindowCoversView`). */
  method DownsampleForView(x: seq<real>, y: seq<F64>, viewMin: real, viewMax: real, maxPoints: nat)
    returns (ox: seq<real>, oy: seq<F64>, ghost idx: seq<nat>)
    requires |y| >= |x|
    requires !Sorted(x) || ViewStart(x, viewMin) <= ViewEnd(x, viewMax)
    ensures x == [] ==> ox == [] && oy == []
    ensures x != [] && Sorted(x) ==>
      var s, e := ViewStart(x, viewMin), ViewEnd(x, viewMax);
      IsLttb(x[s..e], y[s..e], maxPoints, ox, oy, idx)
    ensures x != [] && !Sorted(x) ==>
      var w := InWindow(x, y, viewMin, viewMax);
      IsLttb(w.0, w.1, maxPoints, ox, oy, idx)
    ensures ViewDownsampled(x, y, viewMin, viewMax, maxPoints, ox, oy, idx)
  {
    if |x| == 0 {
      return [], [], [];
    }
    var visX: seq<real>, visY: seq<F64>;
    AdjacentSortedIsSorted(x);
    if AdjacentSorted(x) {
      SortedPartitioned(x, viewMin);
      SortedPartitioned(x, viewMax);
      var lt := PartitionPoint(x, v => v < viewMin);
      var start := if lt == 0 then 0 else lt - 1;
      var le := PartitionPoint(x, v => v <= viewMax);
      var end := if le + 1 < |x| then le + 1 else |x|;
      assert start == ViewStart(x, viewMin) && end == ViewEnd(x, viewMax);
      visX, visY := x[start..end], y[start..end];
    } else {
      visX, visY := [], [];
      for i := 0 to |x|
        invariant (visX, visY) == InWindow(x[..i], y, viewMin, viewMax)
      {
        assert x[..i + 1][..i] == x[..i];
        if viewMin <= x[i] && x[i] <= viewMax {
          visX, visY := visX + [x[i]], visY + [y[i]];
        }
      }
      assert x[..|x|] == x;
    }
    ox, oy, idx := LttbDownsample(visX, visY, maxPoints);
  }

  /** With n = 10 and target = 4 the last bucket is empty, so the last two
      kept points are both the final input point. */
  method LastBucketRepeatsFinalPoint() returns (ox: seq<real>, oy: seq<F64>)
    ensures |ox| == 4 && ox[0] == 0.0 && ox[2] == 9.0 && ox[3] == 9.0
  {
    var x := [0.0, 1.0, 2.0, 3.0, 4.0, 5.0, 6.0, 7.0, 8.0, 9.0];
    var y := [Fin(0.0), Fin(1.0), Fin(0.0), Fin(1.0), Fin(0.0), Fin(1.0), Fin(0.0), Fin(1.0), Fin(0.0), Fin(1.0)];
    ghost var idx;
    ox, oy, idx := LttbDownsample(x, y, 4);
    LttbIndicesShape(x, y, 4, idx);
  }
}
