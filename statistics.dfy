/**
 * `SeriesStats::compute`: summary statistics of the finite y values of a
 * series. The standard deviation is the square root of `variance`, which
 * the model keeps instead.
 */
module Statistics {
  import opened Common
  import opened Spans
  import opened Sorting

  datatype SeriesStats = SeriesStats(
    count: nat, min: real, max: real, peakToPeak: real, mean: real, median: real, variance: real)

  /** The sort key of a plain value: the value itself. */
  function Value(v: real): real { v }

  /** The middle of sorted values, or the mean of the two middle ones for
      an even count. */
  function MedianOfSorted(s: seq<real>): real
    requires s != []
  {
    var n := |s|;
    if n % 2 == 0 then (s[n / 2 - 1] + s[n / 2]) / 2.0 else s[n / 2]
  }

  /** The sum of squared deviations from `m`. */
  function SquaredDeviations(s: seq<real>, m: real): real
  {
    if s == [] then 0.0 else SquaredDeviations(s[..|s| - 1], m) + (s[|s| - 1] - m) * (s[|s| - 1] - m)
  }

  lemma {:induction false} SquaredDeviationsNonNegative(s: seq<real>, m: real)
    ensures SquaredDeviations(s, m) >= 0.0
  {
    if s != [] {
      SquaredDeviationsNonNegative(s[..|s| - 1], m);
      var d := s[|s| - 1] - m;
      assert d * d >= 0.0;
    }
  }

  /** Values between `lo` and `hi` sum to between `n·lo` and `n·hi`. */
  lemma {:induction false} SumBounds(s: seq<real>, lo: real, hi: real)
    requires forall v :: v in s ==> lo <= v <= hi
    ensures (|s| as real) * lo <= Sum(s) <= (|s| as real) * hi
  {
    if s != [] {
      var init := s[..|s| - 1];
      forall v | v in init
        ensures lo <= v <= hi
      {
        assert v in s;
      }
      SumBounds(s[..|s| - 1], lo, hi);
      assert s[|s| - 1] in s;
    }
  }

  /** The mean lies between the smallest and the largest value. */
  lemma MeanBetween(s: seq<real>, lo: real, hi: real)
    requires s != [] && forall v :: v in s ==> lo <= v <= hi
    ensures lo <= Sum(s) / (|s| as real) <= hi
  {
    SumBounds(s, lo, hi);
    DivBetween(Sum(s), |s| as real, lo, hi);
  }

  /** Dividing `n·lo <= a <= n·hi` by a positive `n`. */
  lemma DivBetween(a: real, n: real, lo: real, hi: real)
    requires n > 0.0 && n * lo <= a <= n * hi
    ensures lo <= a / n <= hi
  {
    var q := a / n;
    assert q * n == a;
  }

  /** The median of a sorted arrangement of values lies between the
      smallest and the largest value. */
  lemma MedianBetween(s: seq<real>, vals: seq<real>, lo: real, hi: real)
    requires s != [] && multiset(s) == multiset(vals)
    requires forall v :: v in vals ==> lo <= v <= hi
    ensures lo <= MedianOfSorted(s) <= hi
  {
    var n := |s|;
    assert s[n / 2] in multiset(vals);
    assert s[n / 2] in vals;
    if n % 2 == 0 {
      assert s[n / 2 - 1] in multiset(vals);
      assert s[n / 2 - 1] in vals;
    }
  }

  /** What `compute` reports about non-empty finite values `vals` whatever
      their order: the count, the extremes and their difference, the mean,
      a median between the extremes and the variance. */
  ghost predicate Describes(st: SeriesStats, vals: seq<real>)
  {
    && vals != []
    && st.count == |vals|
    && st.min in vals && st.max in vals
    && (forall v :: v in vals ==> st.min <= v <= st.max)
    && st.peakToPeak == st.max - st.min >= 0.0
    && st.mean == Sum(vals) / (|vals| as real)
    && st.min <= st.mean <= st.max
    && st.min <= st.median <= st.max
    && st.variance == SquaredDeviations(vals, st.mean) / (|vals| as real)
    && st.variance >= 0.0
  }

  /** The statistics `compute` reports for non-empty finite values `vals`,
      with the median taken from `sorted`, the values in ascending order. */
  ghost predicate Summarises(st: SeriesStats, vals: seq<real>, sorted: seq<real>)
  {
    && Describes(st, vals)
    && SortedBy(sorted, Value) && multiset(sorted) == multiset(vals)
    && |sorted| == |vals| && st.median == MedianOfSorted(sorted)
  }

  /** The statistics of non-empty values. */
  method Summarise(vals: seq<real>) returns (st: SeriesStats, ghost sorted: seq<real>)
    requires vals != []
    ensures Describes(st, vals)
    ensures Summarises(st, vals, sorted)
  {
    var count := |vals|;
    var extent := AccumulateSpan(Empty, vals);
    var min, max := extent.lo, extent.hi;
    assert min in vals && max in vals && min <= max && forall v :: v in vals ==> min <= v <= max by {
      SpanOfIsMinMax(vals);
    }
    var peakToPeak := max - min;
    var mean := Sum(vals) / (count as real);
    assert min <= mean <= max by {
      MeanBetween(vals, min, max);
    }

    var s := SortBy(vals, Value);
    assert |s| == count by {
      assert |multiset(s)| == |multiset(vals)|;
    }
    var median := MedianOfSorted(s);
    assert min <= median <= max by {
      MedianBetween(s, vals, min, max);
    }

    var squares := SquaredDeviations(vals, mean);
    var variance := squares / (count as real);
    assert variance >= 0.0 by {
      SquaredDeviationsNonNegative(vals, mean);
      DivBetween(squares, count as real, 0.0, squares);
    }
    st := SeriesStats(count, min, max, peakToPeak, mean, median, variance);
    sorted := s;
  }

  /** `SeriesStats::compute`: `None` when no value is finite; otherwise the
      statistics of the finite values. */
  method Compute(y: seq<F64>) returns (r: Option<SeriesStats>, ghost sorted: seq<real>)
    ensures r.None? <==> Finite(y) == []
    ensures r.Some? ==> Describes(r.value, Finite(y))
    ensures r.Some? ==> Summarises(r.value, Finite(y), sorted)
  {
    var vals := Finite(y);
    if vals == [] {
      return None, [];
    }
    var st;
    st, sorted := Summarise(vals);
    r := Some(st);
  }
}
