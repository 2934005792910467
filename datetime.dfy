/**
 * `fix_error_timestamps`: timestamps below `error_range_max + 1` are
 * readings from a device clock that was not set; they are replaced by
 * values stepped by `increment` from the nearest valid timestamp before
 * them, or, for the leading ones, back from the first valid timestamp.
 *
 * Timestamps are doubles: an entry is an error only when it is a number
 * below the threshold, so a not-a-number entry (what the loader stores for
 * an unparsable row) counts as valid, and stepping from it gives
 * not-a-number again.
 */
module Datetime {
  import opened Common

  /** `v < threshold` on a double: false for not-a-number. */
  predicate Below(v: F64, threshold: real)
  {
    v.Fin? && v.v < threshold
  }

  /** The position of the first valid timestamp at or after `k`, `|x|` when
      there is none. */
  function FirstValidFrom(x: seq<F64>, threshold: real, k: nat): (j: nat)
    requires k <= |x|
    decreases |x| - k
    ensures k <= j <= |x|
    ensures forall i :: k <= i < j ==> Below(x[i], threshold)
    ensures j < |x| ==> !Below(x[j], threshold)
  {
    if k == |x| || !Below(x[k], threshold) then k else FirstValidFrom(x, threshold, k + 1)
  }

  /** The position of the first valid timestamp, `|x|` when there is none. */
  function FirstValid(x: seq<F64>, threshold: real): (j: nat)
    ensures j <= |x|
    ensures forall i :: 0 <= i < j ==> Below(x[i], threshold)
    ensures j < |x| ==> !Below(x[j], threshold)
  {
    FirstValidFrom(x, threshold, 0)
  }

  /** The last valid timestamp at or before `i`, for `i` from the first
      valid one on. */
  function LastValidAtOrBefore(x: seq<F64>, threshold: real, i: nat): (p: nat)
    requires FirstValid(x, threshold) <= i < |x|
    ensures FirstValid(x, threshold) <= p <= i && !Below(x[p], threshold)
    ensures forall k :: p < k <= i ==> Below(x[k], threshold)
  {
    if !Below(x[i], threshold) then i else LastValidAtOrBefore(x, threshold, i - 1)
  }

  /** `d` steps of `increment` back from `fv`; not-a-number stays so. */
  function StepBack(fv: F64, increment: real, d: int): (r: F64)
    ensures r.Fin? <==> fv.Fin?
  {
    FSub(fv, Fin(increment * (d as real)))
  }

  /** `d` steps of `increment` forward from `base`; not-a-number stays so. */
  function StepForward(base: F64, increment: real, d: int): (r: F64)
    ensures r.Fin? <==> base.Fin?
  {
    FAdd(base, Fin(increment * (d as real)))
  }

  /** What `fix_error_timestamps` leaves at position `i`: the leading
      invalid entries step back from the first valid one (or from the
      threshold when none is valid), valid entries stay, and every later
      invalid entry steps forward from the last valid one before it. */
  function Expected(x: seq<F64>, threshold: real, increment: real, i: nat): F64
    requires i < |x|
  {
    var j := FirstValid(x, threshold);
    if i < j then
      var firstValid := if j < |x| then x[j] else Fin(threshold);
      StepBack(firstValid, increment, j - i)
    else if !Below(x[i], threshold) then x[i]
    else
      var p := LastValidAtOrBefore(x, threshold, i);
      StepForward(x[p], increment, i - p)
  }

  /** The whole corrected sequence. */
  function Fixed(x: seq<F64>, threshold: real, increment: real): (r: seq<F64>)
    ensures |r| == |x|
    ensures forall i :: 0 <= i < |x| ==> r[i] == Expected(x, threshold, increment, i)
  {
    seq(|x|, i requires 0 <= i < |x| => Expected(x, threshold, increment, i))
  }

  /** Inside a run of invalid entries the last valid one is just before the
      run. */
  lemma {:induction false} RunAnchor(x: seq<F64>, threshold: real, start: nat, k: nat)
    requires 0 < start <= k < |x| && !Below(x[start - 1], threshold)
    requires FirstValid(x, threshold) < start
    requires forall m :: start <= m <= k ==> Below(x[m], threshold)
    ensures LastValidAtOrBefore(x, threshold, k) == start - 1
  {
    if k > start {
      RunAnchor(x, threshold, start, k - 1);
    }
  }

  /** Inside such a run, the repaired value steps forward from the valid
      entry before the run. */
  lemma RunExpected(x: seq<F64>, threshold: real, increment: real, start: nat, k: nat)
    requires 0 < start <= k < |x| && !Below(x[start - 1], threshold)
    requires FirstValid(x, threshold) < start
    requires forall m :: start <= m <= k ==> Below(x[m], threshold)
    ensures Expected(x, threshold, increment, k) == StepForward(x[start - 1], increment, k - start + 1)
  {
    RunAnchor(x, threshold, start, k);
    var p := start - 1;
    assert k - p == k - start + 1;
  }

  lemma MulMono(a: real, m: real, n: real)
    requires a >= 0.0 && m <= n
    ensures a * m <= a * n
  {
    var d := n - m;
    assert a * d >= 0.0;
    assert a * n == a * m + a * d;
  }

  /** With a non-negative increment, nothing from the first valid timestamp
      on stays below the threshold. */
  lemma FixedAtLeastThreshold(x: seq<F64>, threshold: real, increment: real, i: nat)
    requires increment >= 0.0 && FirstValid(x, threshold) <= i < |x|
    ensures !Below(Expected(x, threshold, increment, i), threshold)
  {
    if Below(x[i], threshold) {
      var p := LastValidAtOrBefore(x, threshold, i);
      MulMono(increment, 0.0, (i - p) as real);
    }
  }

  /** A leading entry steps back from the first valid one. */
  lemma LeadingExpected(x: seq<F64>, threshold: real, increment: real, i: nat)
    requires i < FirstValid(x, threshold)
    ensures var j := FirstValid(x, threshold);
      Expected(x, threshold, increment, i) == StepBack(if j < |x| then x[j] else Fin(threshold), increment, j - i)
  {
  }

  /** Stepping back further with a non-negative increment lands lower. */
  lemma StepBackMono(fv: real, increment: real, da: int, db: int)
    requires increment >= 0.0 && db <= da
    ensures StepBack(Fin(fv), increment, da).v <= StepBack(Fin(fv), increment, db).v
  {
    MulMono(increment, db as real, da as real);
  }

  /** With a non-negative increment the leading entries grow towards the
      first valid one; they are all not-a-number when it is. */
  lemma LeadingIncrease(x: seq<F64>, threshold: real, increment: real, a: nat, b: nat)
    requires increment >= 0.0 && a <= b < FirstValid(x, threshold)
    ensures var ea, eb := Expected(x, threshold, increment, a), Expected(x, threshold, increment, b);
      (ea.Fin? <==> eb.Fin?) && (ea.Fin? ==> ea.v <= eb.v)
  {
    var j := FirstValid(x, threshold);
    LeadingExpected(x, threshold, increment, a);
    LeadingExpected(x, threshold, increment, b);
    var fv := if j < |x| then x[j] else Fin(threshold);
    if fv.Fin? {
      StepBackMono(fv.v, increment, j - a, j - b);
    }
  }

  /** From the first valid entry of the repaired sequence on, every entry
      is valid. */
  lemma FixedValidFrom(x: seq<F64>, threshold: real, increment: real, i: nat)
    requires increment >= 0.0
    requires FirstValid(Fixed(x, threshold, increment), threshold) <= i < |x|
    ensures !Below(Fixed(x, threshold, increment)[i], threshold)
  {
    var c := Fixed(x, threshold, increment);
    var j := FirstValid(x, threshold);
    var j2 := FirstValid(c, threshold);
    if i >= j {
      FixedAtLeastThreshold(x, threshold, increment, i);
    } else {
      assert j2 < j;
      LeadingIncrease(x, threshold, increment, j2, i);
    }
  }

  /** The step back over `d` positions and then over `e` more is the step
      back over `d + e`. */
  lemma StepsAdd(fv: F64, increment: real, d: int, e: int)
    ensures StepBack(StepBack(fv, increment, d), increment, e) == StepBack(fv, increment, d + e)
  {
  }

  /** Repairing a repaired entry leaves it as it is. */
  lemma FixedStableAt(x: seq<F64>, threshold: real, increment: real, i: nat)
    requires increment >= 0.0 && i < |x|
    ensures Expected(Fixed(x, threshold, increment), threshold, increment, i) == Fixed(x, threshold, increment)[i]
  {
    var c := Fixed(x, threshold, increment);
    var n := |x|;
    var j := FirstValid(x, threshold);
    var j2 := FirstValid(c, threshold);
    if i >= j2 {
      FixedValidFrom(x, threshold, increment, i);
    } else {
      var fv := if j < n then x[j] else Fin(threshold);
      var fv2 := if j2 < n then c[j2] else Fin(threshold);
      assert j < n ==> c[j] == x[j];
      assert j2 <= j;
      LeadingExpected(x, threshold, increment, i);
      LeadingExpected(c, threshold, increment, i);
      if j2 < j {
        LeadingExpected(x, threshold, increment, j2);
        assert fv2 == StepBack(fv, increment, j - j2);
        StepsAdd(fv, increment, j - j2, j2 - i);
        assert (j - j2) + (j2 - i) == j - i;
      } else {
        assert fv2 == fv;
      }
    }
  }

  /** Repairing repaired timestamps changes nothing, for a non-negative
      increment. */
  lemma FixIdempotent(x: seq<F64>, threshold: real, increment: real)
    requires increment >= 0.0
    ensures Fixed(Fixed(x, threshold, increment), threshold, increment) == Fixed(x, threshold, increment)
  {
    forall i | 0 <= i < |x|
      ensures Expected(Fixed(x, threshold, increment), threshold, increment, i) == Fixed(x, threshold, increment)[i]
    {
      FixedStableAt(x, threshold, increment, i);
    }
  }

  /** A not-a-number first valid entry turns every leading error into
      not-a-number. */
  lemma NaNFirstValidPoisonsLeading(x: seq<F64>, threshold: real, increment: real, i: nat)
    requires i < FirstValid(x, threshold) < |x| && x[FirstValid(x, threshold)].NaN?
    ensures Expected(x, threshold, increment, i).NaN?
  {
    LeadingExpected(x, threshold, increment, i);
  }

  /** A not-a-number entry just before a run of errors turns the whole run
      into not-a-number. */
  lemma NaNAnchorPoisonsRun(x: seq<F64>, threshold: real, increment: real, start: nat, k: nat)
    requires 0 < start <= k < |x| && x[start - 1].NaN?
    requires FirstValid(x, threshold) < start
    requires forall m :: start <= m <= k ==> Below(x[m], threshold)
    ensures Expected(x, threshold, increment, k).NaN?
  {
    RunExpected(x, threshold, increment, start, k);
  }

  /** With the caller's threshold and increment, an unparsable first row
      followed by an unset-clock reading gives two not-a-number entries. */
  lemma NaNExample()
    ensures Fixed([NaN, Fin(5.0), Fin(1700000000.0)], 978307200.0, 10.0) == [NaN, NaN, Fin(1700000000.0)]
  {
    var x := [NaN, Fin(5.0), Fin(1700000000.0)];
    assert FirstValid(x, 978307200.0) == 0;
    NaNAnchorPoisonsRun(x, 978307200.0, 10.0, 1, 1);
  }

  /** The first scan of `fix_error_timestamps`: the first index whose
      timestamp reaches the threshold. */
  method FindFirstValid(a: array<F64>, threshold: real) returns (j: nat)
    ensures j == FirstValid(a[..], threshold)
  {
    j := 0;
    while j < a.Length && a[j].Fin? && a[j].v < threshold
      invariant j <= a.Length && forall k :: 0 <= k < j ==> Below(a[k], threshold)
    {
      j := j + 1;
    }
    assert forall k :: 0 <= k < j ==> Below(a[..][k], threshold);
  }

  /** The first `j` entries, `d` steps back from `firstValid` at distance
      `d` before `j`. */
  method StepBackBefore(a: array<F64>, j: nat, firstValid: F64, increment: real)
    requires j <= a.Length
    modifies a
    ensures forall k :: 0 <= k < j ==> a[k] == StepBack(firstValid, increment, j - k)
    ensures forall k :: j <= k < a.Length ==> a[k] == old(a[k])
  {
    var i := j;
    while i > 0
      invariant 0 <= i <= j
      invariant forall k :: 0 <= k < a.Length && !(i <= k < j) ==> a[k] == old(a[k])
      invariant forall k :: i <= k < j ==> a[k] == StepBack(firstValid, increment, j - k)
    {
      i := i - 1;
      a[i] := FSub(firstValid, Fin(increment * ((j - i) as real)));
    }
  }

  /** The leading invalid timestamps, stepped back from the first valid one,
      or from the threshold when none is valid. */
  method FixLeading(a: array<F64>, ghost x: seq<F64>, threshold: real, increment: real, j: nat)
    requires a[..] == x && j == FirstValid(x, threshold)
    modifies a
    ensures forall k :: 0 <= k < j ==> a[k] == Expected(x, threshold, increment, k)
    ensures forall k :: j <= k < a.Length ==> a[k] == x[k]
  {
    if j > 0 {
      var firstValid := if j < a.Length then a[j] else Fin(threshold);
      StepBackBefore(a, j, firstValid, increment);
      forall k | 0 <= k < j
        ensures a[k] == Expected(x, threshold, increment, k)
      {
        LeadingExpected(x, threshold, increment, k);
      }
    }
  }

  /** One run of invalid timestamps `[start, end)` after a valid one,
      stepped forward from it. */
  method FillRun(a: array<F64>, ghost x: seq<F64>, threshold: real, increment: real, start: nat, end: nat)
    requires |x| == a.Length && 0 < start <= end <= a.Length
    requires !Below(x[start - 1], threshold) && FirstValid(x, threshold) < start
    requires forall m :: start <= m < end ==> Below(x[m], threshold)
    requires a[start - 1] == x[start - 1]
    modifies a
    ensures forall m :: start <= m < end ==> a[m] == Expected(x, threshold, increment, m)
    ensures forall m :: 0 <= m < a.Length && !(start <= m < end) ==> a[m] == old(a[m])
  {
    var base := a[start - 1];
    for k := start to end
      invariant forall m :: start <= m < k ==> a[m] == Expected(x, threshold, increment, m)
      invariant forall m :: 0 <= m < a.Length && !(start <= m < k) ==> a[m] == old(a[m])
    {
      RunExpected(x, threshold, increment, start, k);
      a[k] := FAdd(base, Fin(increment * ((k - start + 1) as real)));
    }
  }

  /** The second scan: every run of invalid timestamps after the first
      valid one. */
  method FixRuns(a: array<F64>, ghost x: seq<F64>, threshold: real, increment: real, j: nat)
    requires |x| == a.Length && j == FirstValid(x, threshold)
    requires forall k :: 0 <= k < j ==> a[k] == Expected(x, threshold, increment, k)
    requires forall k :: j <= k < a.Length ==> a[k] == x[k]
    modifies a
    ensures forall k :: 0 <= k < a.Length ==> a[k] == Expected(x, threshold, increment, k)
  {
    var n := a.Length;
    var i := j;
    while i < n
      invariant j <= i <= n
      invariant forall k :: 0 <= k < i ==> a[k] == Expected(x, threshold, increment, k)
      invariant forall k :: i <= k < n ==> a[k] == x[k]
      invariant i == j || i == n || !Below(x[i - 1], threshold) || !Below(x[i], threshold)
    {
      if a[i].Fin? && a[i].v < threshold {
        var start := i;
        while i < n && a[i].Fin? && a[i].v < threshold
          invariant start <= i <= n
          invariant forall k :: start <= k < i ==> Below(x[k], threshold)
        {
          i := i + 1;
        }
        if start > 0 {
          FillRun(a, x, threshold, increment, start, i);
        } else {
          assert false;
        }
      } else {
        i := i + 1;
      }
    }
  }

  /** `fix_error_timestamps`: the repaired copy of `xValues`, repaired in
      place. `errorRangeMin` is not used. */
  method FixErrorTimestamps(xValues: seq<F64>, errorRangeMin: real, errorRangeMax: real, increment: real)
    returns (corrected: seq<F64>)
    ensures corrected == Fixed(xValues, errorRangeMax + 1.0, increment)
  {
    var n := |xValues|;
    var a := new F64[n](i requires 0 <= i < n => xValues[i]);
    assert a[..] == xValues;
    var threshold := errorRangeMax + 1.0;
    var j := FindFirstValid(a, threshold);
    FixLeading(a, xValues, threshold, increment, j);
    FixRuns(a, xValues, threshold, increment, j);
    corrected := a[..];
  }
}
