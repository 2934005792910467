/**
 * Derived series: a tolerance-bounded nearest-x join of two series followed
 * by an arithmetic operation on the joined y-values
 * (src/processing/math_ops.rs).
 */
module MathOps {
  import opened Common
  import opened Search
  import opened Sorting

  datatype MathOp = Add | Subtract | Multiply | Divide

  function Symbol(op: MathOp): string
  {
    match op
    case Add => "+"
    case Subtract => "-"
    case Multiply => "\U{00D7}"
    case Divide => "\U{00F7}"
  }

  function Label(op: MathOp): string
  {
    match op
    case Add => "Add (+)"
    case Subtract => "Subtract (-)"
    case Multiply => "Multiply (\U{00D7})"
    case Divide => "Divide (\U{00F7})"
  }

  /** Each operation has its own symbol, and its menu label ends with that
      symbol in parentheses. */
  lemma SymbolsAndLabels(a: MathOp, b: MathOp)
    ensures a != b ==> Symbol(a) != Symbol(b) && Label(a) != Label(b)
    ensures |Symbol(a)| == 1
    ensures |Label(a)| >= 4 && Label(a)[|Label(a)| - 4..] == " (" + Symbol(a) + ")"
  {
    var l := Label(a);
    assert l == Label(a);
    match a
    case Add => assert l[|l| - 4..] == " (+)";
    case Subtract => assert l[|l| - 4..] == " (-)";
    case Multiply => assert l[|l| - 4..] == " (\U{00D7})";
    case Divide => assert l[|l| - 4..] == " (\U{00F7})";
  }

  datatype MathResult = MathResult(x: seq<real>, y: seq<F64>, matchedCount: nat, totalPossible: nat)

  const NoMatchMessage: string := "No matching x-values found. Cannot perform math operation."

  /** `f64::EPSILON`, 2^-52. */
  const Epsilon: real := 1.0 / 4503599627370496.0

  /** The operation on one joined pair of y-values. A divisor smaller in
      magnitude than `f64::EPSILON` yields not-a-number. */
  function Apply(op: MathOp, a: F64, b: F64): (r: F64)
    ensures op == Divide && b.Fin? && Abs(b.v) < Epsilon ==> r == NaN
    ensures !a.Fin? || !b.Fin? ==> r == NaN
    ensures op == Divide && r.Fin? ==> b.v != 0.0 && r.v * b.v == a.v
    ensures op != Divide && a.Fin? && b.Fin? ==> r.Fin?
  {
    match op
    case Add => FAdd(a, b)
    case Subtract => FSub(a, b)
    case Multiply => FMul(a, b)
    case Divide =>
      if b.Fin? && Abs(b.v) < Epsilon then NaN
      else if a.Fin? && b.Fin? then Fin(a.v / b.v)
      else NaN
  }

  /** `x2[j]`, as the sort key of index `j`. */
  function X2Key(x2: seq<real>): nat -> real
  {
    (j: nat) => if j < |x2| then x2[j] else 0.0
  }

  /** `sorted_x2`: the x2-values in the order of the sorted indices. */
  function SortedValues(x2: seq<real>, order: seq<nat>): (sx: seq<real>)
    ensures |sx| == |order|
  {
    seq(|order|, k requires 0 <= k < |order| => X2Key(x2)(order[k]))
  }

  /** The sorted position the two-candidate probe settles on: position
      `pos - 1`, replaced by `pos` only when that one is strictly closer,
      where `pos` is the partition point of `v < xv`. */
  function Probe(sx: seq<real>, xv: real): (r: Option<nat>)
    ensures r.None? <==> sx == []
    ensures r.Some? ==> r.value < |sx|
  {
    LeadingCountSplits(sx, v => v < xv);
    var pos := LeadingCount(sx, v => v < xv);
    if sx == [] then None
    else if pos == 0 then Some(0)
    else if pos == |sx| then Some(pos - 1)
    else if Abs(sx[pos] - xv) < Abs(sx[pos - 1] - xv) then Some(pos)
    else Some(pos - 1)
  }

  /** The headline fact: on sorted values the two neighbours of the
      insertion point contain a nearest value, so the probe returns a
      global nearest neighbour; between the two neighbours a tie goes to
      the earlier position. */
  lemma ProbeIsNearest(sx: seq<real>, xv: real)
    requires Sorted(sx) && sx != []
    ensures Probe(sx, xv).Some?
    ensures forall t :: 0 <= t < |sx| ==> Abs(sx[Probe(sx, xv).value] - xv) <= Abs(sx[t] - xv)
    ensures var pos := LeadingCount(sx, v => v < xv);
      0 < pos < |sx| && Abs(sx[pos] - xv) == Abs(sx[pos - 1] - xv) ==> Probe(sx, xv).value == pos - 1
  {
    SortedPartitioned(sx, xv);
    LeadingCountSplits(sx, v => v < xv);
    var pos := LeadingCount(sx, v => v < xv);
    var k := Probe(sx, xv).value;
    forall t | 0 <= t < |sx|
      ensures Abs(sx[k] - xv) <= Abs(sx[t] - xv)
    {
      if t < pos {
        assert sx[t] <= sx[pos - 1] < xv;
      } else {
        assert xv <= sx[pos] <= sx[t];
      }
    }
  }

  /** Some x2-value lies within the tolerance of `xv`. */
  predicate HasPartner(x2: seq<real>, xv: real, tol: real)
  {
    exists j :: 0 <= j < |x2| && Abs(x2[j] - xv) <= tol
  }

  /** The pair contributed by `x1[i] = xv`: the x2 index the probe picks,
      kept when it lies within the tolerance. */
  function Step(x2: seq<real>, order: seq<nat>, tol: real, i: nat, xv: real): (s: seq<(nat, nat)>)
    ensures |s| <= 1
  {
    var sx := SortedValues(x2, order);
    match Probe(sx, xv)
    case None => []
    case Some(k) => if Abs(sx[k] - xv) <= tol then [(i, order[k])] else []
  }

  /** The joined pairs `(i, j)`, in x1 order. */
  function Matches(x1: seq<real>, x2: seq<real>, order: seq<nat>, tol: real): seq<(nat, nat)>
  {
    if x1 == [] then []
    else Matches(x1[..|x1| - 1], x2, order, tol) + Step(x2, order, tol, |x1| - 1, x1[|x1| - 1])
  }

  /** Extending x1 by one value appends that value's probe result. */
  lemma MatchesSnoc(x1: seq<real>, x2: seq<real>, order: seq<nat>, tol: real, i: nat)
    requires i < |x1|
    ensures Matches(x1[..i + 1], x2, order, tol) == Matches(x1[..i], x2, order, tol) + Step(x2, order, tol, i, x1[i])
  {
    assert x1[..i + 1][..i] == x1[..i];
  }

  /** `order` is the stable sort of the indices of `x2` by value. */
  predicate SortsX2(x2: seq<real>, order: seq<nat>)
  {
    multiset(order) == multiset(Range(|x2|)) && SortedBy(order, X2Key(x2)) && StableIndexOrder(order, X2Key(x2))
  }

  lemma SortedValuesSorted(x2: seq<real>, order: seq<nat>)
    requires SortsX2(x2, order)
    ensures Sorted(SortedValues(x2, order))
    ensures forall k :: 0 <= k < |order| ==> order[k] < |x2| && SortedValues(x2, order)[k] == x2[order[k]]
    ensures |order| == |x2|
  {
    SortedIndicesArePermutation(order, |x2|);
  }

  /** `p` pairs `x1[p.0]` with a globally nearest x2 value within the tolerance. */
  predicate NearestWithin(x1: seq<real>, x2: seq<real>, tol: real, p: (nat, nat))
  {
    p.0 < |x1| && p.1 < |x2| && Abs(x2[p.1] - x1[p.0]) <= tol &&
    forall j :: 0 <= j < |x2| ==> Abs(x2[p.1] - x1[p.0]) <= Abs(x2[j] - x1[p.0])
  }

  /** The probe on the sorted values picks a globally nearest x2 value. */
  lemma ProbePicksNearest(x2: seq<real>, order: seq<nat>, xv: real)
    requires SortsX2(x2, order) && x2 != []
    ensures Probe(SortedValues(x2, order), xv).Some?
    ensures var k := Probe(SortedValues(x2, order), xv).value;
      k < |order| && order[k] < |x2| && SortedValues(x2, order)[k] == x2[order[k]] &&
      forall j :: 0 <= j < |x2| ==> Abs(x2[order[k]] - xv) <= Abs(x2[j] - xv)
  {
    SortedValuesSorted(x2, order);
    var sx := SortedValues(x2, order);
    ProbeIsNearest(sx, xv);
    var k := Probe(sx, xv).value;
    forall j | 0 <= j < |x2|
      ensures Abs(x2[order[k]] - xv) <= Abs(x2[j] - xv)
    {
      assert j in multiset(Range(|x2|)) by { assert Range(|x2|)[j] == j; }
      var t :| 0 <= t < |order| && order[t] == j;
      assert sx[t] == x2[j];
    }
  }

  /** One probe: it contributes exactly when some x2 value is within the
      tolerance, and then it pairs `xv` with a nearest x2 value. */
  lemma StepCorrect(x1: seq<real>, x2: seq<real>, order: seq<nat>, tol: real, i: nat)
    requires SortsX2(x2, order) && i < |x1|
    ensures Step(x2, order, tol, i, x1[i]) != [] <==> HasPartner(x2, x1[i], tol)
    ensures forall p :: p in Step(x2, order, tol, i, x1[i]) ==> p.0 == i && NearestWithin(x1, x2, tol, p)
  {
    SortedValuesSorted(x2, order);
    var xv := x1[i];
    if x2 != [] {
      ProbePicksNearest(x2, order, xv);
      var k := Probe(SortedValues(x2, order), xv).value;
      var step := Step(x2, order, tol, i, xv);
      assert step == if Abs(x2[order[k]] - xv) <= tol then [(i, order[k])] else [];
      if HasPartner(x2, xv, tol) {
        var j :| 0 <= j < |x2| && Abs(x2[j] - xv) <= tol;
      }
    }
  }

  /** Every pair sits at a position of `x1`. */
  lemma {:induction false} MatchesBelow(x1: seq<real>, x2: seq<real>, order: seq<nat>, tol: real)
    ensures forall k :: 0 <= k < |Matches(x1, x2, order, tol)| ==> Matches(x1, x2, order, tol)[k].0 < |x1|
  {
    if x1 != [] {
      var i := |x1| - 1;
      MatchesBelow(x1[..i], x2, order, tol);
      var rest := Matches(x1[..i], x2, order, tol);
      var step := Step(x2, order, tol, i, x1[i]);
      assert Matches(x1, x2, order, tol) == rest + step;
      assert forall p :: p in step ==> p.0 == i;
      if step != [] {
        assert step[0] in step;
      }
    }
  }

  /** Pairs are produced in strictly increasing x1 position. */
  lemma {:induction false} MatchesIncreasing(x1: seq<real>, x2: seq<real>, order: seq<nat>, tol: real)
    ensures forall a, b :: 0 <= a < b < |Matches(x1, x2, order, tol)| ==>
      Matches(x1, x2, order, tol)[a].0 < Matches(x1, x2, order, tol)[b].0
  {
    if x1 != [] {
      var i := |x1| - 1;
      MatchesIncreasing(x1[..i], x2, order, tol);
      MatchesBelow(x1[..i], x2, order, tol);
      var rest := Matches(x1[..i], x2, order, tol);
      var step := Step(x2, order, tol, i, x1[i]);
      assert Matches(x1, x2, order, tol) == rest + step;
      assert forall p :: p in step ==> p.0 == i;
      if step != [] {
        assert step[0] in step;
      }
    }
  }

  /** A pair nearest within the tolerance for a prefix of `x1` is one for
      `x1` itself. */
  lemma NearestWithinPrefix(x1: seq<real>, i: nat, x2: seq<real>, tol: real, p: (nat, nat))
    requires i <= |x1| && NearestWithin(x1[..i], x2, tol, p)
    ensures NearestWithin(x1, x2, tol, p)
  {
    assert x1[..i][p.0] == x1[p.0];
  }

  /** Each pair joins an x1 value with a globally nearest x2 value within
      the tolerance. */
  lemma {:induction false} MatchesNearest(x1: seq<real>, x2: seq<real>, order: seq<nat>, tol: real)
    requires SortsX2(x2, order)
    ensures forall k :: 0 <= k < |Matches(x1, x2, order, tol)| ==>
      NearestWithin(x1, x2, tol, Matches(x1, x2, order, tol)[k])
  {
    if x1 != [] {
      var i := |x1| - 1;
      var rest := Matches(x1[..i], x2, order, tol);
      var m := Matches(x1, x2, order, tol);
      MatchesNearest(x1[..i], x2, order, tol);
      StepCorrect(x1, x2, order, tol, i);
      var step := Step(x2, order, tol, i, x1[i]);
      assert m == rest + step;
      forall k | 0 <= k < |m|
        ensures NearestWithin(x1, x2, tol, m[k])
      {
        if k < |rest| {
          NearestWithinPrefix(x1, i, x2, tol, rest[k]);
        } else {
          assert m[k] in step;
        }
      }
    }
  }

  /** `x1[i]` appears among the pairs. */
  predicate Paired(m: seq<(nat, nat)>, i: nat)
  {
    exists k :: 0 <= k < |m| && m[k].0 == i
  }

  /** Appending the last probe does not change whether an earlier position
      is paired. */
  lemma PairedEarlier(rest: seq<(nat, nat)>, step: seq<(nat, nat)>, i: nat, i': nat)
    requires forall p :: p in step ==> p.0 == i
    requires i' < i
    ensures Paired(rest + step, i') <==> Paired(rest, i')
  {
    var m := rest + step;
    if Paired(m, i') {
      var k :| 0 <= k < |m| && m[k].0 == i';
    }
    if Paired(rest, i') {
      var k :| 0 <= k < |rest| && rest[k].0 == i';
      assert m[k] == rest[k];
    }
  }

  /** The last position is paired exactly when its probe contributes. */
  lemma PairedLast(rest: seq<(nat, nat)>, step: seq<(nat, nat)>, i: nat)
    requires forall k :: 0 <= k < |rest| ==> rest[k].0 < i
    requires forall p :: p in step ==> p.0 == i
    ensures Paired(rest + step, i) <==> step != []
  {
    var m := rest + step;
    if step != [] {
      assert step[0] in step;
      assert m[|rest|] == step[0];
    }
    if Paired(m, i) {
      var k :| 0 <= k < |m| && m[k].0 == i;
      assert k >= |rest|;
    }
  }

  /** Every x1 value with an x2 value within the tolerance is paired, and
      no other. */
  lemma {:induction false} MatchesComplete(x1: seq<real>, x2: seq<real>, order: seq<nat>, tol: real)
    requires SortsX2(x2, order)
    ensures forall i :: 0 <= i < |x1| ==> (HasPartner(x2, x1[i], tol) <==> Paired(Matches(x1, x2, order, tol), i))
  {
    if x1 != [] {
      var i := |x1| - 1;
      var rest := Matches(x1[..i], x2, order, tol);
      var m := Matches(x1, x2, order, tol);
      MatchesComplete(x1[..i], x2, order, tol);
      MatchesBelow(x1[..i], x2, order, tol);
      StepCorrect(x1, x2, order, tol, i);
      var step := Step(x2, order, tol, i, x1[i]);
      assert m == rest + step;
      assert forall p :: p in step ==> p.0 == i;
      forall i' | 0 <= i' < |x1|
        ensures HasPartner(x2, x1[i'], tol) <==> Paired(m, i')
      {
        if i' < i {
          assert x1[..i][i'] == x1[i'];
          PairedEarlier(rest, step, i, i');
        } else {
          PairedLast(rest, step, i);
        }
      }
    }
  }

  /** `diff < best_diff`, where `None` stands for `f64::INFINITY`. */
  function Closer(diff: real, best: Option<real>): (b: bool)
    ensures best.None? ==> b
  {
    match best
    case None => true
    case Some(d) => diff < d
  }

  /** The body of the loop over x1 up to the tolerance test: the partition
      point of `v < xv` in the sorted x2 values, then the candidates
      `pos - 1` and `pos`, each replacing the best only when strictly closer
      (the best distance starts at infinity). */
  method ProbeCandidates(sx: seq<real>, sortedIndices: seq<nat>, xv: real)
    returns (bestJ: Option<nat>, bestDiff: Option<real>, ghost bestK: nat)
    requires Sorted(sx) && |sortedIndices| == |sx|
    ensures bestJ.None? <==> Probe(sx, xv).None?
    ensures bestJ.Some? ==>
      Probe(sx, xv) == Some(bestK) && bestJ.value == sortedIndices[bestK] &&
      bestDiff == Some(Abs(sx[bestK] - xv))
  {
    SortedPartitioned(sx, xv);
    var pos := PartitionPoint(sx, v => v < xv);
    bestJ, bestDiff, bestK := None, None, 0;
    if 0 < pos && pos - 1 < |sx| {
      var diff := Abs(sx[pos - 1] - xv);
      if Closer(diff, bestDiff) {
        bestDiff, bestJ, bestK := Some(diff), Some(sortedIndices[pos - 1]), pos - 1;
      }
    }
    if pos < |sx| {
      var diff := Abs(sx[pos] - xv);
      if Closer(diff, bestDiff) {
        bestDiff, bestJ, bestK := Some(diff), Some(sortedIndices[pos]), pos;
      }
    }
  }

  /** The join loop of `perform_math`: every x1 value probes the sorted x2
      values, and a nearest one within the tolerance contributes a pair. */
  method JoinNearest(x1: seq<real>, y1: seq<F64>, x2: seq<real>, y2: seq<F64>, op: MathOp, tolerance: real,
                     order: seq<nat>, sortedX2: seq<real>)
    returns (commonX: seq<real>, commonY: seq<F64>, matched: nat, ghost pairs: seq<(nat, nat)>)
    requires |y1| >= |x1| && |y2| >= |x2|
    requires SortsX2(x2, order) && sortedX2 == SortedValues(x2, order)
    ensures pairs == Matches(x1, x2, order, tolerance)
    ensures |commonX| == |commonY| == |pairs| == matched
    ensures forall k :: 0 <= k < |pairs| ==>
      pairs[k].0 < |x1| && pairs[k].1 < |x2| &&
      commonX[k] == x1[pairs[k].0] && commonY[k] == Apply(op, y1[pairs[k].0], y2[pairs[k].1])
  {
    SortedValuesSorted(x2, order);
    commonX, commonY, matched, pairs := [], [], 0, [];
    for i := 0 to |x1|
      invariant pairs == Matches(x1[..i], x2, order, tolerance)
      invariant |commonX| == |commonY| == |pairs| == matched
      invariant forall k :: 0 <= k < |pairs| ==>
        pairs[k].0 < i && pairs[k].1 < |x2| &&
        commonX[k] == x1[pairs[k].0] && commonY[k] == Apply(op, y1[pairs[k].0], y2[pairs[k].1])
    {
      MatchesSnoc(x1, x2, order, tolerance, i);
      var xv := x1[i];
      var bestJ, bestDiff, bestK := ProbeCandidates(sortedX2, order, xv);
      assert Step(x2, order, tolerance, i, xv) ==
        if bestJ.Some? && bestDiff.value <= tolerance then [(i, bestJ.value)] else [];
      if bestJ.Some? && bestDiff.value <= tolerance {
        var j := bestJ.value;
        var result := Apply(op, y1[i], y2[j]);
        commonX, commonY := commonX + [xv], commonY + [result];
        matched := matched + 1;
        pairs := pairs + [(i, j)];
      }
    }
    assert x1[..|x1|] == x1;
  }

  /** The pairs name valid positions on both sides. */
  lemma MatchesInRange(x1: seq<real>, x2: seq<real>, order: seq<nat>, tol: real)
    requires SortsX2(x2, order)
    ensures forall k :: 0 <= k < |Matches(x1, x2, order, tol)| ==>
      Matches(x1, x2, order, tol)[k].0 < |x1| && Matches(x1, x2, order, tol)[k].1 < |x2|
  {
    MatchesNearest(x1, x2, order, tol);
  }

  /** What `perform_math` returns once x2 is searched in the stable sorted
      order `order`: the fixed error when nothing matches, otherwise the
      x1 value and the operation's result of every pair, in x1 order. */
  function Joined(x1: seq<real>, y1: seq<F64>, x2: seq<real>, y2: seq<F64>, op: MathOp, tol: real,
                  order: seq<nat>): Result<MathResult, string>
    requires |y1| >= |x1| && |y2| >= |x2| && SortsX2(x2, order)
  {
    var m := Matches(x1, x2, order, tol);
    MatchesInRange(x1, x2, order, tol);
    if m == [] then Err(NoMatchMessage)
    else
      Ok(MathResult(
        seq(|m|, k requires 0 <= k < |m| => x1[m[k].0]),
        seq(|m|, k requires 0 <= k < |m| => Apply(op, y1[m[k].0], y2[m[k].1])),
        |m|, if |x1| < |x2| then |x1| else |x2|))
  }

  /** A successful join has as many y values as x values, at least one,
      and no more than x1 has; an empty side always fails. */
  lemma JoinedShape(x1: seq<real>, y1: seq<F64>, x2: seq<real>, y2: seq<F64>, op: MathOp, tol: real,
                    order: seq<nat>)
    requires |y1| >= |x1| && |y2| >= |x2| && SortsX2(x2, order)
    ensures var r := Joined(x1, y1, x2, y2, op, tol, order);
      && (r.Err? ==> r.error == NoMatchMessage)
      && (x1 == [] || x2 == [] ==> r.Err?)
      && (r.Ok? ==> 0 < r.value.matchedCount == |r.value.x| == |r.value.y| <= |x1|)
  {
    MatchesAtMost(x1, x2, order, tol);
    if x1 == [] || x2 == [] {
      EmptySideFails(x1, x2, order, tol);
    }
  }

  /** `perform_math`. The ghost `order` is the sorted index permutation the
      join searches. */
  method PerformMath(x1: seq<real>, y1: seq<F64>, x2: seq<real>, y2: seq<F64>, op: MathOp, tolerance: real)
    returns (r: Result<MathResult, string>, ghost order: seq<nat>)
    requires |y1| >= |x1| && |y2| >= |x2|
    ensures r.Err? ==> r.error == NoMatchMessage
    ensures x1 == [] || x2 == [] ==> r.Err?
    ensures r.Ok? ==>
      0 < r.value.matchedCount == |r.value.x| == |r.value.y| <= |x1| &&
      r.value.totalPossible == (if |x1| < |x2| then |x1| else |x2|) &&
      forall k :: 0 <= k < |r.value.x| ==> r.value.x[k] in x1
    ensures SortsX2(x2, order)
    ensures r == Joined(x1, y1, x2, y2, op, tolerance, order)
    ensures var m := Matches(x1, x2, order, tolerance);
      (r.Ok? <==> |m| > 0) &&
      (r.Err? ==> r.error == NoMatchMessage) &&
      (r.Ok? ==>
        r.value.matchedCount == |m| == |r.value.x| == |r.value.y| &&
        r.value.totalPossible == (if |x1| < |x2| then |x1| else |x2|) &&
        forall k :: 0 <= k < |m| ==>
          m[k].0 < |x1| && m[k].1 < |x2| &&
          r.value.x[k] == x1[m[k].0] && r.value.y[k] == Apply(op, y1[m[k].0], y2[m[k].1]))
  {
    var sortedIndices := SortIndicesBy(|x2|, X2Key(x2));
    order := sortedIndices;
    var sortedX2 := SortedValues(x2, sortedIndices);
    var commonX, commonY, matched, pairs := JoinNearest(x1, y1, x2, y2, op, tolerance, sortedIndices, sortedX2);
    if matched == 0 {
      return Err(NoMatchMessage), order;
    }
    var totalPossible := if |x1| < |x2| then |x1| else |x2|;
    r := Ok(MathResult(commonX, commonY, matched, totalPossible));
    MatchesInRange(x1, x2, order, tolerance);
    assert r == Joined(x1, y1, x2, y2, op, tolerance, order) by {
      var m := Matches(x1, x2, order, tolerance);
      assert commonX == seq(|m|, k requires 0 <= k < |m| => x1[m[k].0]);
      assert commonY == seq(|m|, k requires 0 <= k < |m| => Apply(op, y1[m[k].0], y2[m[k].1]));
    }
    MatchesAtMost(x1, x2, order, tolerance);
    forall k | 0 <= k < |commonX|
      ensures commonX[k] in x1
    {
      assert commonX[k] == x1[pairs[k].0];
    }
    if x2 == [] {
      EmptySideFails(x1, x2, order, tolerance);
    }
  }

  /** Each x1 value contributes at most one pair. */
  lemma {:induction false} MatchesAtMost(x1: seq<real>, x2: seq<real>, order: seq<nat>, tol: real)
    ensures |Matches(x1, x2, order, tol)| <= |x1|
  {
    if x1 != [] {
      var i := |x1| - 1;
      MatchesAtMost(x1[..i], x2, order, tol);
      assert Matches(x1, x2, order, tol) ==
        Matches(x1[..i], x2, order, tol) + Step(x2, order, tol, i, x1[i]);
    }
  }

  /** An empty series on either side never matches anything. */
  lemma EmptySideFails(x1: seq<real>, x2: seq<real>, order: seq<nat>, tol: real)
    requires SortsX2(x2, order)
    requires x1 == [] || x2 == []
    ensures Matches(x1, x2, order, tol) == []
  {
    MatchesNearest(x1, x2, order, tol);
  }

  /** Strictly increasing positions sit at least as far along as their index. */
  lemma {:induction false} IncreasingAtLeastIndex(m: seq<(nat, nat)>)
    requires forall a, b :: 0 <= a < b < |m| ==> m[a].0 < m[b].0
    ensures forall a :: 0 <= a < |m| ==> m[a].0 >= a
  {
    if m != [] {
      IncreasingAtLeastIndex(m[..|m| - 1]);
      assert forall a :: 0 <= a < |m| - 1 ==> m[..|m| - 1][a] == m[a];
      if |m| >= 2 {
        assert m[|m| - 2].0 < m[|m| - 1].0;
      }
    }
  }

  /** Strictly increasing positions below `n` that include every position
      below `n` are `0, 1, ..., n - 1`. */
  lemma {:induction false} AllPositionsInOrder(m: seq<(nat, nat)>, n: nat, i: nat)
    requires forall a, b :: 0 <= a < b < |m| ==> m[a].0 < m[b].0
    requires forall k :: 0 <= k < n ==> Paired(m, k)
    requires i < n
    ensures i < |m|
    ensures forall k :: 0 <= k <= i ==> k < |m| && m[k].0 == k
  {
    if i > 0 {
      AllPositionsInOrder(m, n, i - 1);
    }
    IncreasingAtLeastIndex(m);
    assert Paired(m, i);
    var a :| 0 <= a < |m| && m[a].0 == i;
    assert a <= i;
  }

  lemma PositionsCover(m: seq<(nat, nat)>, n: nat)
    requires forall a, b :: 0 <= a < b < |m| ==> m[a].0 < m[b].0
    requires forall k :: 0 <= k < n ==> Paired(m, k)
    requires forall k :: 0 <= k < |m| ==> m[k].0 < n
    ensures |m| == n && forall k :: 0 <= k < n ==> m[k].0 == k
  {
    IncreasingAtLeastIndex(m);
    if n > 0 {
      AllPositionsInOrder(m, n, n - 1);
    }
    if |m| > 0 {
      assert m[|m| - 1].0 >= |m| - 1;
      assert m[|m| - 1].0 < n;
    }
  }

  /** Every value of a series has a partner in the series itself. */
  lemma SelfPaired(x: seq<real>, order: seq<nat>, tol: real)
    requires SortsX2(x, order) && tol >= 0.0
    ensures forall i :: 0 <= i < |x| ==> Paired(Matches(x, x, order, tol), i)
  {
    MatchesComplete(x, x, order, tol);
    forall i | 0 <= i < |x|
      ensures HasPartner(x, x[i], tol)
    {
      assert Abs(x[i] - x[i]) <= tol;
    }
  }

  /** With distinct values, the nearest partner of a value is itself. */
  lemma SelfNearest(x: seq<real>, tol: real, p: (nat, nat))
    requires forall a, b :: 0 <= a < b < |x| ==> x[a] != x[b]
    requires NearestWithin(x, x, tol, p)
    ensures p.1 == p.0
  {
    assert Abs(x[p.1] - x[p.0]) <= Abs(x[p.0] - x[p.0]);
  }

  /** Joining a series with distinct x-values to itself pairs every point
      with itself. */
  lemma SelfMatches(x: seq<real>, order: seq<nat>, tol: real)
    requires SortsX2(x, order) && tol >= 0.0
    requires forall a, b :: 0 <= a < b < |x| ==> x[a] != x[b]
    ensures |Matches(x, x, order, tol)| == |x|
    ensures forall k :: 0 <= k < |x| ==> Matches(x, x, order, tol)[k] == (k, k)
  {
    var m := Matches(x, x, order, tol);
    MatchesNearest(x, x, order, tol);
    MatchesIncreasing(x, x, order, tol);
    SelfPaired(x, order, tol);
    PositionsCover(m, |x|);
    forall k | 0 <= k < |x|
      ensures m[k] == (k, k)
    {
      SelfNearest(x, tol, m[k]);
    }
  }

  /** Subtracting a series from itself (distinct x-values, finite y) gives
      all zeros and matches every point. */
  method SubtractSelf(x: seq<real>, y: seq<F64>) returns (r: Result<MathResult, string>)
    requires x != [] && |y| == |x|
    requires forall a, b :: 0 <= a < b < |x| ==> x[a] != x[b]
    requires forall k :: 0 <= k < |y| ==> y[k].Fin?
    ensures r.Ok? && r.value.matchedCount == |x| && r.value.x == x && |r.value.y| == |x|
    ensures forall k :: 0 <= k < |r.value.y| ==> r.value.y[k] == Fin(0.0)
  {
    ghost var order;
    r, order := PerformMath(x, y, x, y, Subtract, 0.00001);
    SelfMatches(x, order, 0.00001);
  }

  /** Dividing two series over the same distinct x-values matches every
      point; a divisor below `f64::EPSILON` in magnitude (zero in
      particular) yields not-a-number there but still counts as a match. */
  method DivideAligned(x: seq<real>, y1: seq<F64>, y2: seq<F64>) returns (r: Result<MathResult, string>)
    requires x != [] && |y1| == |x| && |y2| == |x|
    requires forall a, b :: 0 <= a < b < |x| ==> x[a] != x[b]
    requires forall k :: 0 <= k < |x| ==> y1[k].Fin? && y2[k].Fin?
    ensures r.Ok? && r.value.matchedCount == |x| && r.value.x == x && |r.value.y| == |x|
    ensures forall k :: 0 <= k < |x| ==>
      r.value.y[k] == if Abs(y2[k].v) < Epsilon then NaN else Fin(y1[k].v / y2[k].v)
  {
    ghost var order;
    r, order := PerformMath(x, y1, x, y2, Divide, 0.00001);
    SelfMatches(x, order, 0.00001);
  }
}
