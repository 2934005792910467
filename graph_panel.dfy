/**
 * The per-frame preparation the graph panel does before drawing: the
 * per-unit normalisation of multi-unit plots, the 3D bounding box and its
 * mapping to the cube [-1, 1]³, the wireframe grid of that cube, the
 * measurement cursors, the table sort cycle and cell lookup, and the list
 * of series entries handed to the 2D GPU callback.
 */
module Panel {
  import opened Common
  import opened Spans
  import opened Series
  import opened PlotView
  import opened Graph
  import GpuPlot
  import Render3D
  import Downsampling
  import Search

  // ---------------------------------------------------------------------
  // Multi-unit normalisation
  // ---------------------------------------------------------------------

  /** The y range of one unit. */
  datatype UnitRange = UnitRange(yMin: real, yMax: real)
  {
    function Span(): real { yMax - yMin }
  }

  /** `UnitRange::normalize`: the position of `y` in the range, 0.5 for a
      degenerate range (even for a not-a-number `y`). */
  function Normalize(r: UnitRange, y: F64): (n: F64)
    ensures Abs(r.Span()) < Tiny ==> n == Fin(0.5)
    ensures Abs(r.Span()) >= Tiny ==> (n.Fin? <==> y.Fin?)
    ensures Abs(r.Span()) >= Tiny && y.Fin? ==> n.v * r.Span() + r.yMin == y.v
  {
    if Abs(r.Span()) < Tiny then Fin(0.5)
    else if y.NaN? then NaN
    else
      DivCancel(y.v - r.yMin, r.Span());
      Fin((y.v - r.yMin) / r.Span())
  }

  /** `UnitRange::denormalize`: 0 and 1 map to the range's ends, and for a
      non-degenerate range normalising the result gives `n` back. */
  function Denormalize(r: UnitRange, n: real): (y: real)
    ensures n == 0.0 ==> y == r.yMin
    ensures n == 1.0 ==> y == r.yMax
    ensures Abs(r.Span()) >= Tiny ==> Normalize(r, Fin(y)) == Fin(n)
  {
    var y := n * r.Span() + r.yMin;
    if Abs(r.Span()) >= Tiny then
      assert (y - r.yMin) / r.Span() == n by {
        assert y - r.yMin == n * r.Span();
        DivCancel(n, r.Span());
      }
      y
    else
      y
  }

  /** Denormalising undoes normalising for a non-degenerate range, and the
      range ends map to 0 and 1. */
  lemma NormalizeRoundTrip(r: UnitRange, y: real)
    requires Abs(r.Span()) >= Tiny
    ensures Normalize(r, Fin(y)).Fin? && Denormalize(r, Normalize(r, Fin(y)).v) == y
    ensures Normalize(r, Fin(r.yMin)) == Fin(0.0) && Normalize(r, Fin(r.yMax)) == Fin(1.0)
  {
  }

  /** Some visible series has unit `u`. */
  predicate VisibleWithUnit(series: seq<DataSeries>, u: string)
  {
    exists k :: 0 <= k < |series| && series[k].visible && series[k].unit == u
  }

  /** The position of the first visible series with unit `u`. */
  function FirstVisible(series: seq<DataSeries>, u: string): (k: nat)
    requires VisibleWithUnit(series, u)
    ensures k < |series| && series[k].visible && series[k].unit == u
    ensures forall m :: 0 <= m < k ==> !(series[m].visible && series[m].unit == u)
  {
    if series[0].visible && series[0].unit == u then 0
    else
      assert VisibleWithUnit(series[1..], u) by {
        var k :| 0 <= k < |series| && series[k].visible && series[k].unit == u;
        assert series[1..][k - 1] == series[k];
      }
      1 + FirstVisible(series[1..], u)
  }

  /** The units of the visible series, each once, in order of first
      appearance. */
  function UnitOrder(series: seq<DataSeries>): (r: seq<string>)
    ensures forall i, j :: 0 <= i < j < |r| ==> r[i] != r[j]
    ensures forall u :: u in r <==> VisibleWithUnit(series, u)
  {
    if series == [] then []
    else
      var init := series[..|series| - 1];
      var s := series[|series| - 1];
      var p := UnitOrder(init);
      assert forall u :: VisibleWithUnit(series, u) <==> VisibleWithUnit(init, u) || (s.visible && s.unit == u) by {
        forall u | VisibleWithUnit(init, u)
          ensures VisibleWithUnit(series, u)
        {
          var k :| 0 <= k < |init| && init[k].visible && init[k].unit == u;
          assert series[k] == init[k];
        }
      }
      if s.visible && s.unit !in p then p + [s.unit] else p
  }

  /** The first visible series of a unit that already appears in a prefix
      is found in that prefix. */
  lemma FirstVisiblePrefix(series: seq<DataSeries>, n: nat, u: string)
    requires n <= |series| && VisibleWithUnit(series[..n], u)
    ensures VisibleWithUnit(series, u) && FirstVisible(series, u) == FirstVisible(series[..n], u)
  {
    var k2 := FirstVisible(series[..n], u);
    assert series[k2] == series[..n][k2];
    var k1 := FirstVisible(series, u);
  }

  /** A unit first seen in the last series is first found there. */
  lemma FirstVisibleLast(series: seq<DataSeries>, u: string)
    requires series != [] && series[|series| - 1].visible && series[|series| - 1].unit == u
    requires !VisibleWithUnit(series[..|series| - 1], u)
    ensures VisibleWithUnit(series, u) && FirstVisible(series, u) == |series| - 1
  {
    var k := FirstVisible(series, u);
  }

  /** Two units of the order of `series`, the earlier one from the order of
      its prefix `series[..n]`, are first found in that order. */
  lemma UnitOrderPair(series: seq<DataSeries>, i: nat, j: nat)
    requires series != [] && i < j < |UnitOrder(series)|
    requires var init := series[..|series| - 1]; var p := UnitOrder(init);
      j < |p| ==> FirstVisible(init, p[i]) < FirstVisible(init, p[j])
    ensures FirstVisible(series, UnitOrder(series)[i]) < FirstVisible(series, UnitOrder(series)[j])
  {
    var n := |series| - 1;
    var init := series[..n];
    var p := UnitOrder(init);
    var r := UnitOrder(series);
    var last := series[n];
    assert r == if last.visible && last.unit !in p then p + [last.unit] else p;
    assert r[i] == p[i] && p[i] in p;
    FirstVisiblePrefix(series, n, p[i]);
    if j < |p| {
      assert r[j] == p[j] && p[j] in p;
      FirstVisiblePrefix(series, n, p[j]);
    } else {
      assert r[j] == last.unit && last.visible && last.unit !in p;
      FirstVisibleLast(series, last.unit);
    }
  }

  /** `collect_unit_order` lists the units in order of first appearance. */
  lemma {:induction false} UnitOrderFirstAppearance(series: seq<DataSeries>)
    ensures forall i, j :: 0 <= i < j < |UnitOrder(series)| ==>
      FirstVisible(series, UnitOrder(series)[i]) < FirstVisible(series, UnitOrder(series)[j])
  {
    if series != [] {
      var init := series[..|series| - 1];
      UnitOrderFirstAppearance(init);
      forall i, j | 0 <= i < j < |UnitOrder(series)|
        ensures FirstVisible(series, UnitOrder(series)[i]) < FirstVisible(series, UnitOrder(series)[j])
      {
        if j < |UnitOrder(init)| {
          assert FirstVisible(init, UnitOrder(init)[i]) < FirstVisible(init, UnitOrder(init)[j]);
        }
        UnitOrderPair(series, i, j);
      }
    }
  }

  /** `collect_unit_order`. */
  method CollectUnitOrder(series: seq<DataSeries>) returns (order: seq<string>)
    ensures order == UnitOrder(series)
  {
    order := [];
    for i := 0 to |series|
      invariant order == UnitOrder(series[..i])
    {
      assert series[..i + 1][..i] == series[..i];
      if series[i].visible && series[i].unit !in order {
        order := order + [series[i].unit];
      }
    }
    assert series[..|series|] == series;
  }

  /** The finite y values of the visible series with unit `u`. */
  function UnitValues(series: seq<DataSeries>, u: string): seq<real>
  {
    if series == [] then []
    else
      var s := series[|series| - 1];
      UnitValues(series[..|series| - 1], u) + (if s.visible && s.unit == u then Finite(s.y) else [])
  }

  /** The range of one unit: the extent of its values padded by 5% of the
      span, or by 1 when the span is below 1e-15. `None` is the range the
      source computes from no value at all, `(+∞, -∞)`, through which every
      value normalises to not-a-number. */
  function RangeOf(vals: seq<real>): (r: Option<UnitRange>)
    ensures r.None? <==> vals == []
    ensures r.Some? ==> r.value.yMin < r.value.yMax && Abs(r.value.Span()) >= Tiny
    ensures r.Some? ==> forall v :: v in vals ==> r.value.yMin < v < r.value.yMax
  {
    SpanOfIsMinMax(vals);
    var s := SpanOf(vals);
    if s.Empty? then None
    else
      var span := s.hi - s.lo;
      var padding := if Abs(span) < Tiny then 1.0 else span * 0.05;
      Some(UnitRange(s.lo - padding, s.hi + padding))
  }

  /** Normalising through a range of `compute_unit_ranges`: the infinite
      range of a unit without finite values gives not-a-number. */
  function NormalizeIn(r: Option<UnitRange>, y: F64): (n: F64)
    ensures r.Some? ==> n == Normalize(r.value, y)
    ensures r.None? ==> n == NaN
  {
    if r.None? then NaN else Normalize(r.value, y)
  }

  /** A value strictly inside a range normalises strictly inside (0, 1). */
  lemma NormalizeInside(r: UnitRange, y: real)
    requires r.yMin < y < r.yMax
    ensures Normalize(r, Fin(y)).Fin? && 0.0 < Normalize(r, Fin(y)).v < 1.0
  {
    var span := r.Span();
    DivLess(0.0, y - r.yMin, span);
    DivLess(y - r.yMin, span, span);
    DivCancel(1.0, span);
  }

  /** The finite values of a unit normalise strictly inside (0, 1). */
  lemma NormalizedInsideUnit(series: seq<DataSeries>, u: string, v: real)
    requires v in UnitValues(series, u)
    ensures RangeOf(UnitValues(series, u)).Some?
    ensures var n := NormalizeIn(RangeOf(UnitValues(series, u)), Fin(v)); n.Fin? && 0.0 < n.v < 1.0
  {
    NormalizeInside(RangeOf(UnitValues(series, u)).value, v);
  }

  /** The fold over the series for one unit. */
  method UnitSpan(series: seq<DataSeries>, u: string) returns (s: Span)
    ensures s == SpanOf(UnitValues(series, u))
  {
    s := Empty;
    for i := 0 to |series|
      invariant s == SpanOf(UnitValues(series[..i], u))
    {
      assert series[..i + 1][..i] == series[..i];
      var t := series[i];
      assert series[..i + 1][i] == t;
      if t.visible && t.unit == u {
        assert UnitValues(series[..i + 1], u) == UnitValues(series[..i], u) + Finite(t.y);
        ExtendAppend(Empty, UnitValues(series[..i], u), Finite(t.y));
        s := AccumulateFinite(s, t.y);
      } else {
        assert UnitValues(series[..i + 1], u) == UnitValues(series[..i], u) + [];
        assert UnitValues(series[..i], u) + [] == UnitValues(series[..i], u);
      }
    }
    assert series[..|series|] == series;
  }

  /** `compute_unit_ranges`: one range per listed unit. */
  method ComputeUnitRanges(series: seq<DataSeries>, order: seq<string>) returns (ranges: seq<Option<UnitRange>>)
    ensures |ranges| == |order|
    ensures forall k :: 0 <= k < |order| ==> ranges[k] == RangeOf(UnitValues(series, order[k]))
  {
    ranges := [];
    for k := 0 to |order|
      invariant |ranges| == k
      invariant forall j :: 0 <= j < k ==> ranges[j] == RangeOf(UnitValues(series, order[j]))
    {
      var s := UnitSpan(series, order[k]);
      SpanOfIsMinMax(UnitValues(series, order[k]));
      var r: Option<UnitRange>;
      if s.Empty? {
        r := None;
      } else {
        var span := s.hi - s.lo;
        var padding := if Abs(span) < Tiny then 1.0 else span * 0.05;
        r := Some(UnitRange(s.lo - padding, s.hi + padding));
      }
      ranges := ranges + [r];
    }
  }

  // ---------------------------------------------------------------------
  // 3D bounding box and normalisation
  // ---------------------------------------------------------------------

  /** The values a visible series contributes to axis `axis` (0 = x,
      1 = y, 2 = z) of the 3D bounding box: all x, the finite y, and z
      only when the series has a z column. */
  function AxisValues(s: DataSeries, axis: nat): seq<real>
  {
    if !s.visible then []
    else if axis == 0 then s.x
    else if axis == 1 then Finite(s.y)
    else if axis == 2 && HasZ(s) then s.z
    else []
  }

  /** The values of all visible series on one axis. */
  function VisibleValues(series: seq<DataSeries>, axis: nat): seq<real>
  {
    if series == [] then []
    else VisibleValues(series[..|series| - 1], axis) + AxisValues(series[|series| - 1], axis)
  }

  /** One axis of the box: the data extent, (-1, 1) when there is no data,
      widened by 0.5 on each side when narrower than 1e-12. */
  function AxisFromSpan(s: Span): (r: (real, real))
    requires s.Span? ==> s.lo <= s.hi
    ensures r.0 < r.1
    ensures s.Empty? ==> r == (-1.0, 1.0)
    ensures s.Span? ==> r.0 <= s.lo && s.hi <= r.1
    ensures s.Span? && s.hi - s.lo >= 0.000000000001 ==> r == (s.lo, s.hi)
  {
    var (lo, hi) := if s.Empty? then (-1.0, 1.0) else (s.lo, s.hi);
    if Abs(hi - lo) < 0.000000000001 then (lo - 0.5, hi + 0.5) else (lo, hi)
  }

  /** The box on one axis. */
  function AxisBounds(series: seq<DataSeries>, axis: nat): (real, real)
  {
    SpanOfIsMinMax(VisibleValues(series, axis));
    AxisFromSpan(SpanOf(VisibleValues(series, axis)))
  }

  /** Every visible value lies in its axis of the box, which is never
      empty. */
  lemma BoundsCoverData(series: seq<DataSeries>, axis: nat, v: real)
    requires v in VisibleValues(series, axis)
    ensures AxisBounds(series, axis).0 <= v <= AxisBounds(series, axis).1
  {
    SpanOfIsMinMax(VisibleValues(series, axis));
  }

  /** Adding one series to the values of a prefix. */
  lemma VisibleValuesStep(series: seq<DataSeries>, i: nat, axis: nat)
    requires i < |series|
    ensures VisibleValues(series[..i + 1], axis) == VisibleValues(series[..i], axis) + AxisValues(series[i], axis)
    ensures SpanOf(VisibleValues(series[..i + 1], axis)) == Extend(SpanOf(VisibleValues(series[..i], axis)), AxisValues(series[i], axis))
  {
    assert series[..i + 1][..i] == series[..i];
    assert series[..i + 1][i] == series[i];
    ExtendAppend(Empty, VisibleValues(series[..i], axis), AxisValues(series[i], axis));
  }

  /** The loop of `compute_data_bounds_3d`: the extent of the visible
      values on each axis. */
  method AxisSpans(series: seq<DataSeries>) returns (sx: Span, sy: Span, sz: Span)
    ensures sx == SpanOf(VisibleValues(series, 0))
    ensures sy == SpanOf(VisibleValues(series, 1))
    ensures sz == SpanOf(VisibleValues(series, 2))
  {
    sx, sy, sz := Empty, Empty, Empty;
    for i := 0 to |series|
      invariant sx == SpanOf(VisibleValues(series[..i], 0))
      invariant sy == SpanOf(VisibleValues(series[..i], 1))
      invariant sz == SpanOf(VisibleValues(series[..i], 2))
    {
      assert Extend(sx, AxisValues(series[i], 0)) == SpanOf(VisibleValues(series[..i + 1], 0)) by {
        VisibleValuesStep(series, i, 0);
      }
      assert Extend(sy, AxisValues(series[i], 1)) == SpanOf(VisibleValues(series[..i + 1], 1)) by {
        VisibleValuesStep(series, i, 1);
      }
      assert Extend(sz, AxisValues(series[i], 2)) == SpanOf(VisibleValues(series[..i + 1], 2)) by {
        VisibleValuesStep(series, i, 2);
      }
      sx := AccumulateSpan(sx, AxisValues(series[i], 0));
      sy := AccumulateSpan(sy, AxisValues(series[i], 1));
      sz := AccumulateSpan(sz, AxisValues(series[i], 2));
    }
    assert series[..|series|] == series;
  }

  /** `compute_data_bounds_3d`: the minimum and maximum corner of the box
      holding every visible value. */
  method ComputeDataBounds3D(series: seq<DataSeries>) returns (lo: seq<real>, hi: seq<real>)
    ensures |lo| == 3 && |hi| == 3
    ensures forall a :: 0 <= a < 3 ==> (lo[a], hi[a]) == AxisBounds(series, a)
  {
    var sx, sy, sz := AxisSpans(series);
    SpanOfIsMinMax(VisibleValues(series, 0));
    SpanOfIsMinMax(VisibleValues(series, 1));
    SpanOfIsMinMax(VisibleValues(series, 2));
    var ax, ay, az := AxisFromSpan(sx), AxisFromSpan(sy), AxisFromSpan(sz);
    assert ax == AxisBounds(series, 0) && ay == AxisBounds(series, 1) && az == AxisBounds(series, 2);
    lo := [ax.0, ay.0, az.0];
    hi := [ax.1, ay.1, az.1];
  }

  /** One coordinate of `normalize_point`. */
  function NormalizeAxis(lo: real, hi: real, v: real): real
    requires lo < hi
  {
    (v - lo) / (hi - lo) * 2.0 - 1.0
  }

  /** The box maps onto [-1, 1]: its ends to -1 and 1, and what lies
      inside it to inside the cube. */
  lemma NormalizeAxisIntoCube(lo: real, hi: real, v: real)
    requires lo < hi
    ensures NormalizeAxis(lo, hi, lo) == -1.0 && NormalizeAxis(lo, hi, hi) == 1.0
    ensures lo <= v <= hi ==> -1.0 <= NormalizeAxis(lo, hi, v) <= 1.0
  {
    DivCancel(1.0, hi - lo);
    if lo < v {
      DivLess(0.0, v - lo, hi - lo);
    }
    if v < hi {
      DivLess(v - lo, hi - lo, hi - lo);
    }
  }

  /** `normalize_point`: a data point in homogeneous cube coordinates. */
  function NormalizePoint(x: real, y: real, z: real, lo: seq<real>, hi: seq<real>): (p: Render3D.P4)
    requires |lo| == 3 && |hi| == 3 && lo[0] < hi[0] && lo[1] < hi[1] && lo[2] < hi[2]
    ensures p.w == 1.0
    ensures lo[0] <= x <= hi[0] && lo[1] <= y <= hi[1] && lo[2] <= z <= hi[2] ==> InCube(p)
    ensures p.x == -1.0 <==> x == lo[0]
  {
    NormalizeAxisIntoCube(lo[0], hi[0], x);
    NormalizeAxisIntoCube(lo[1], hi[1], y);
    NormalizeAxisIntoCube(lo[2], hi[2], z);
    NormalizeAxisInjective(lo[0], hi[0], x, lo[0]);
    Render3D.P4(NormalizeAxis(lo[0], hi[0], x), NormalizeAxis(lo[1], hi[1], y), NormalizeAxis(lo[2], hi[2], z), 1.0)
  }

  /** Distinct values stay distinct. */
  lemma NormalizeAxisInjective(lo: real, hi: real, u: real, v: real)
    requires lo < hi
    ensures NormalizeAxis(lo, hi, u) == NormalizeAxis(lo, hi, v) <==> u == v
  {
    if u < v {
      DivLess(u - lo, v - lo, hi - lo);
    } else if v < u {
      DivLess(v - lo, u - lo, hi - lo);
    }
  }

  // ---------------------------------------------------------------------
  // 3D wireframe grid
  // ---------------------------------------------------------------------

  /** Inside the cube [-1, 1]³, with w = 1. */
  predicate InCube(p: Render3D.P4)
  {
    -1.0 <= p.x <= 1.0 && -1.0 <= p.y <= 1.0 && -1.0 <= p.z <= 1.0 && p.w == 1.0
  }

  /** A corner of the cube. */
  predicate IsCorner(p: Render3D.P4)
  {
    (p.x == -1.0 || p.x == 1.0) && (p.y == -1.0 || p.y == 1.0) && (p.z == -1.0 || p.z == 1.0) && p.w == 1.0
  }

  /** The segment from `a` to `b` runs along exactly one axis. */
  predicate AxisParallel(a: Render3D.P4, b: Render3D.P4)
  {
    (a.x != b.x && a.y == b.y && a.z == b.z)
    || (a.x == b.x && a.y != b.y && a.z == b.z)
    || (a.x == b.x && a.y == b.y && a.z != b.z)
  }

  const CubeCorners: seq<(real, real, real)> := [
    (-1.0, -1.0, -1.0), (1.0, -1.0, -1.0), (1.0, 1.0, -1.0), (-1.0, 1.0, -1.0),
    (-1.0, -1.0, 1.0), (1.0, -1.0, 1.0), (1.0, 1.0, 1.0), (-1.0, 1.0, 1.0)
  ]

  /** Back face, front face, then the four connecting edges. */
  const CubeEdges: seq<(nat, nat)> := [
    (0, 1), (1, 2), (2, 3), (3, 0),
    (4, 5), (5, 6), (6, 7), (7, 4),
    (0, 4), (1, 5), (2, 6), (3, 7)
  ]

  function CornerPoint(i: nat): Render3D.P4
    requires i < 8
  {
    Render3D.P4(CubeCorners[i].0, CubeCorners[i].1, CubeCorners[i].2, 1.0)
  }

  /** The position of the edge between corners `a` and `b` in
      `CubeEdges`, in either direction; -1 when they are not an edge. */
  function EdgeIndex(a: nat, b: nat): int
  {
    var (lo, hi) := if a <= b then (a, b) else (b, a);
    if (lo, hi) == (0, 1) then 0 else if (lo, hi) == (1, 2) then 1
    else if (lo, hi) == (2, 3) then 2 else if (lo, hi) == (0, 3) then 3
    else if (lo, hi) == (4, 5) then 4 else if (lo, hi) == (5, 6) then 5
    else if (lo, hi) == (6, 7) then 6 else if (lo, hi) == (4, 7) then 7
    else if (lo, hi) == (0, 4) then 8 else if (lo, hi) == (1, 5) then 9
    else if (lo, hi) == (2, 6) then 10 else if (lo, hi) == (3, 7) then 11
    else -1
  }

  /** Each listed edge is found at its own position, in both directions. */
  lemma EdgeIndexFindsEdges()
    ensures forall j :: 0 <= j < 12 ==>
      EdgeIndex(CubeEdges[j].0, CubeEdges[j].1) == j && EdgeIndex(CubeEdges[j].1, CubeEdges[j].0) == j
  {
  }

  /** The twelve listed pairs are the twelve edges of the cube, each once. */
  lemma CubeEdgesAreTheEdges()
    ensures forall j :: 0 <= j < 12 ==> CubeEdges[j].0 < 8 && CubeEdges[j].1 < 8
    ensures forall j :: 0 <= j < 12 ==>
      IsCorner(CornerPoint(CubeEdges[j].0)) && IsCorner(CornerPoint(CubeEdges[j].1))
      && AxisParallel(CornerPoint(CubeEdges[j].0), CornerPoint(CubeEdges[j].1))
    ensures forall j, k :: 0 <= j < k < 12 ==>
      CubeEdges[j] != CubeEdges[k] && (CubeEdges[j].1, CubeEdges[j].0) != CubeEdges[k]
  {
    EdgeIndexFindsEdges();
  }

  /** The interior grid coordinate of division `i`. */
  function GridT(i: nat): real
  {
    -1.0 + (i as real) / 5.0 * 2.0
  }

  /** The eight points `build_3d_grid` adds for division coordinate `t`:
      lines on the bottom face along z and along x, vertical lines on the
      back face, and the tick lines on the left edge. */
  function InteriorLines(t: real): (r: seq<Render3D.P4>)
    requires -1.0 <= t <= 1.0
    ensures |r| == 8
    ensures forall k :: 0 <= k < 8 ==> InCube(r[k])
    ensures forall k :: 0 <= k < 8 && k % 2 == 0 ==> AxisParallel(r[k], r[k + 1])
  {
    [ Render3D.P4(t, -1.0, -1.0, 1.0), Render3D.P4(t, -1.0, 1.0, 1.0),
      Render3D.P4(-1.0, -1.0, t, 1.0), Render3D.P4(1.0, -1.0, t, 1.0),
      Render3D.P4(t, -1.0, -1.0, 1.0), Render3D.P4(t, 1.0, -1.0, 1.0),
      Render3D.P4(-1.0, t, -1.0, 1.0), Render3D.P4(-1.0, t, 1.0, 1.0) ]
  }

  /** The first loop of `build_3d_grid`: both ends of every cube edge. */
  method EdgeSegments() returns (segments: seq<Render3D.P4>)
    ensures |segments| == 24
    ensures forall k :: 0 <= k < 24 ==> IsCorner(segments[k])
    ensures forall k :: 0 <= k < 24 && k % 2 == 0 ==> AxisParallel(segments[k], segments[k + 1])
  {
    CubeEdgesAreTheEdges();
    segments := [];
    for j := 0 to 12
      invariant |segments| == 2 * j
      invariant forall k :: 0 <= k < 2 * j ==> IsCorner(segments[k])
      invariant forall k :: 0 <= k < 2 * j && k % 2 == 0 ==> AxisParallel(segments[k], segments[k + 1])
    {
      var (a, b) := CubeEdges[j];
      assert IsCorner(CornerPoint(a)) && IsCorner(CornerPoint(b)) && AxisParallel(CornerPoint(a), CornerPoint(b));
      segments := segments + [CornerPoint(a), CornerPoint(b)];
    }
  }

  /** `build_3d_grid`: line-list segments of the cube's edges followed by
      four interior lines per direction. */
  method Build3dGrid() returns (segments: seq<Render3D.P4>)
    ensures |segments| == 56
    ensures forall k :: 0 <= k < 56 ==> InCube(segments[k])
    ensures forall k :: 0 <= k < 56 && k % 2 == 0 ==> AxisParallel(segments[k], segments[k + 1])
    ensures forall k :: 0 <= k < 24 ==> IsCorner(segments[k])
  {
    segments := EdgeSegments();
    ghost var edges := segments;
    for i := 1 to 5
      invariant |segments| == 24 + 8 * (i - 1)
      invariant segments[..24] == edges
      invariant forall k :: 0 <= k < |segments| ==> InCube(segments[k])
      invariant forall k :: 0 <= k < |segments| && k % 2 == 0 ==> AxisParallel(segments[k], segments[k + 1])
    {
      var lines := InteriorLines(GridT(i));
      ghost var n := |segments|;
      segments := segments + lines;
      assert forall k :: n <= k < |segments| ==> segments[k] == lines[k - n];
    }
  }

  // ---------------------------------------------------------------------
  // Measurement cursors
  // ---------------------------------------------------------------------

  /** Cursor 2 is only ever set after cursor 1. */
  predicate CursorsOrdered(c: CursorState)
  {
    c.cursor2.Some? ==> c.cursor1.Some?
  }

  /** Placing a cursor at `v`: the first free cursor takes it; with both set
      they are cleared and cursor 1 takes it. */
  function PlaceCursor(c: CursorState, v: real): (r: CursorState)
    ensures r.mode == c.mode && CursorsOrdered(r)
    ensures CursorsOrdered(c) ==> r.cursor2 == Some(v) || (r.cursor1 == Some(v) && r.cursor2.None?)
    ensures CursorsOrdered(c) && c.cursor1.Some? && c.cursor2.None? ==> r.cursor1 == c.cursor1
  {
    if c.cursor1.None? then c.(cursor1 := Some(v))
    else if c.cursor2.None? then c.(cursor2 := Some(v))
    else c.(cursor1 := Some(v), cursor2 := None)
  }

  /** From no cursors, two clicks set both cursors in order and a third
      starts over. */
  lemma ThreeClicks(mode: CursorMode, a: real, b: real, c: real)
    ensures var two := PlaceCursor(PlaceCursor(CursorState(mode, None, None), a), b);
      two.cursor1 == Some(a) && two.cursor2 == Some(b)
      && PlaceCursor(two, c) == CursorState(mode, Some(c), None)
  {
  }

  /** The data coordinate a click sets in cursor mode `mode`: x for
      vertical cursors, y for horizontal ones, nothing when cursors are off. */
  function CursorValue(mode: CursorMode, d: Pos): (r: Option<real>)
    ensures r.None? <==> mode == Off
  {
    match mode
    case Vertical => Some(d.x)
    case Horizontal => Some(d.y)
    case Off => None
  }

  /** `handle_cursor_click`: a secondary click inside the plot places a
      cursor at the clicked data coordinate. */
  method HandleCursorClick(g: GraphState, secondaryClicked: bool, mouse: Option<Pos>, plotRect: Rect)
    requires plotRect.Width() != 0.0 && plotRect.Height() != 0.0
    modifies g`cursor
    ensures !secondaryClicked || mouse.None? || old(g.cursor).mode == Off ==> g.cursor == old(g.cursor)
    ensures secondaryClicked && mouse.Some? && old(g.cursor).mode != Off ==>
      var d := ScreenToData(g.view.Bounds(), plotRect, mouse.value);
      g.cursor == PlaceCursor(old(g.cursor), CursorValue(old(g.cursor).mode, d).value)
    ensures CursorsOrdered(old(g.cursor)) ==> CursorsOrdered(g.cursor)
  {
    if secondaryClicked && mouse.Some? {
      var d := ScreenToData(g.view.Bounds(), plotRect, mouse.value);
      var val := CursorValue(g.cursor.mode, d);
      if val.None? {
        return;
      }
      g.cursor := PlaceCursor(g.cursor, val.value);
    }
  }

  // ---------------------------------------------------------------------
  // Data table
  // ---------------------------------------------------------------------

  /** `cycle_sort`: clicking a column header sorts ascending, then
      descending, then not at all; clicking another column starts over. */
  function NextSort(sort: Option<(nat, SortDirection)>, col: nat): (r: Option<(nat, SortDirection)>)
    ensures r.Some? ==> r.value.0 == col
    ensures sort.None? || sort.value.0 != col ==> r == Some((col, Ascending))
  {
    match sort
    case Some((c, Ascending)) => if c == col then Some((col, Descending)) else Some((col, Ascending))
    case Some((c, Descending)) => if c == col then None else Some((col, Ascending))
    case None => Some((col, Ascending))
  }

  /** Three clicks on the same column give back the sort one started with. */
  lemma SortCycleHasPeriodThree(sort: Option<(nat, SortDirection)>, col: nat)
    requires sort.None? || sort.value.0 == col
    ensures NextSort(NextSort(NextSort(sort, col), col), col) == sort
    ensures NextSort(sort, col) != sort && NextSort(NextSort(sort, col), col) != sort
  {
  }

  method CycleSort(g: GraphState, col: nat)
    modifies g`tableSort
    ensures g.tableSort == NextSort(old(g.tableSort), col)
  {
    g.tableSort := NextSort(g.tableSort, col);
  }

  /** `get_table_value`: column 0 is the x of the first series, column
      `k + 1` the y of series `k`; a missing cell reads as not-a-number. */
  function TableValue(series: seq<DataSeries>, col: nat, row: nat): (r: F64)
    ensures col == 0 && series != [] && row < |series[0].x| ==> r == Fin(series[0].x[row])
    ensures col > 0 && col - 1 < |series| && row < |series[col - 1].y| ==> r == series[col - 1].y[row]
    ensures col == 0 && (series == [] || row >= |series[0].x|) ==> r == NaN
    ensures col > 0 && (col - 1 >= |series| || row >= |series[col - 1].y|) ==> r == NaN
  {
    if col == 0 then
      if series != [] && row < |series[0].x| then Fin(series[0].x[row]) else NaN
    else if col - 1 < |series| && row < |series[col - 1].y| then series[col - 1].y[row]
    else NaN
  }

  // ---------------------------------------------------------------------
  // Grid segments of the 2D plot
  // ---------------------------------------------------------------------

  /** The number of major lines. */
  function MajorCount(lines: seq<(real, bool)>): nat
  {
    if lines == [] then 0 else MajorCount(lines[..|lines| - 1]) + (if lines[|lines| - 1].1 then 1 else 0)
  }

  /** Two points per major line, spanning the view: vertical lines at the x
      grid values, horizontal ones at the y grid values; all offset by the
      view origin. */
  function MajorSegments(lines: seq<(real, bool)>, vertical: bool, w: Window): (r: seq<GpuPlot.Pt2>)
    ensures |r| == 2 * MajorCount(lines)
  {
    if lines == [] then []
    else
      var (v, major) := lines[|lines| - 1];
      var pre := MajorSegments(lines[..|lines| - 1], vertical, w);
      var last :=
        if !major then []
        else if vertical then [GpuPlot.Pt2(v - w.xMin, w.yMin - w.yMin), GpuPlot.Pt2(v - w.xMin, w.yMax - w.yMin)]
        else [GpuPlot.Pt2(w.xMin - w.xMin, v - w.yMin), GpuPlot.Pt2(w.xMax - w.xMin, v - w.yMin)];
      pre + last
  }

  /** The segment from `a` to `b` crosses the whole view: from the bottom
      to the top when vertical, else from the left to the right. */
  predicate AcrossView(a: GpuPlot.Pt2, b: GpuPlot.Pt2, vertical: bool, w: Window)
  {
    if vertical then a.x == b.x && a.y == 0.0 && b.y == w.yMax - w.yMin
    else a.y == b.y && a.x == 0.0 && b.x == w.xMax - w.xMin
  }

  /** Each pair of points is one line across the whole view. */
  lemma {:induction false} MajorSegmentsSpanView(lines: seq<(real, bool)>, vertical: bool, w: Window)
    ensures forall k :: 0 <= k < |MajorSegments(lines, vertical, w)| && k % 2 == 0 ==>
      AcrossView(MajorSegments(lines, vertical, w)[k], MajorSegments(lines, vertical, w)[k + 1], vertical, w)
  {
    if lines != [] {
      var pre := MajorSegments(lines[..|lines| - 1], vertical, w);
      MajorSegmentsSpanView(lines[..|lines| - 1], vertical, w);
      var r := MajorSegments(lines, vertical, w);
      forall k | 0 <= k < |r| && k % 2 == 0
        ensures AcrossView(r[k], r[k + 1], vertical, w)
      {
        if k < |pre| {
          assert k + 1 < |pre|;
          assert r[k] == pre[k] && r[k + 1] == pre[k + 1];
        } else {
          var (v, major) := lines[|lines| - 1];
          assert major && k == |pre|;
          assert r == pre + if vertical then [GpuPlot.Pt2(v - w.xMin, w.yMin - w.yMin), GpuPlot.Pt2(v - w.xMin, w.yMax - w.yMin)]
            else [GpuPlot.Pt2(w.xMin - w.xMin, v - w.yMin), GpuPlot.Pt2(w.xMax - w.xMin, v - w.yMin)];
        }
      }
    }
  }

  /** The major lines of the two grids as line-list segments. */
  method GridSegments(xGrid: seq<(real, bool)>, yGrid: seq<(real, bool)>, w: Window) returns (segments: seq<GpuPlot.Pt2>)
    ensures segments == MajorSegments(xGrid, true, w) + MajorSegments(yGrid, false, w)
  {
    segments := [];
    for i := 0 to |xGrid|
      invariant segments == MajorSegments(xGrid[..i], true, w)
    {
      assert xGrid[..i + 1][..i] == xGrid[..i];
      var (v, major) := xGrid[i];
      if major {
        var x := v - w.xMin;
        segments := segments + [GpuPlot.Pt2(x, w.yMin - w.yMin), GpuPlot.Pt2(x, w.yMax - w.yMin)];
      }
    }
    assert xGrid[..|xGrid|] == xGrid;
    ghost var vertical := segments;
    for i := 0 to |yGrid|
      invariant segments == vertical + MajorSegments(yGrid[..i], false, w)
    {
      assert yGrid[..i + 1][..i] == yGrid[..i];
      var (v, major) := yGrid[i];
      if major {
        var y := v - w.yMin;
        segments := segments + [GpuPlot.Pt2(w.xMin - w.xMin, y), GpuPlot.Pt2(w.xMax - w.xMin, y)];
      }
    }
    assert yGrid[..|yGrid|] == yGrid;
  }

  // ---------------------------------------------------------------------
  // Series entries of the 2D plot
  // ---------------------------------------------------------------------

  /** Series longer than this are downsampled to this many points. */
  const MaxPlotPoints: nat := 10000

  /** The first position of `u` in `order`. */
  function Position(order: seq<string>, u: string): (k: nat)
    requires u in order
    ensures k < |order| && order[k] == u
    ensures forall j :: 0 <= j < k ==> order[j] != u
  {
    if order[0] == u then 0 else 1 + Position(order[1..], u)
  }

  /** Every y mapped through one range. */
  function NormalizeAll(r: Option<UnitRange>, ys: seq<F64>): seq<F64>
  {
    seq(|ys|, i requires 0 <= i < |ys| => NormalizeIn(r, ys[i]))
  }

  /** The y values a series is drawn with: normalised through its unit's
      range when several units share the plot, unchanged otherwise. */
  function PlotYs(s: DataSeries, multiUnit: bool, order: seq<string>, ranges: seq<Option<UnitRange>>, ys: seq<F64>): (r: seq<F64>)
    requires multiUnit ==> |ranges| == |order|
    ensures |r| == |ys|
    ensures !multiUnit || s.unit !in order ==> r == ys
    ensures multiUnit && s.unit in order ==>
      forall i :: 0 <= i < |ys| ==> r[i] == NormalizeIn(ranges[Position(order, s.unit)], ys[i])
  {
    if multiUnit && s.unit in order then NormalizeAll(ranges[Position(order, s.unit)], ys) else ys
  }

  /** The zipped points whose coordinates are both finite, offset by the
      view origin. */
  function PlotPoints(px: seq<real>, py: seq<F64>, xOff: real, yOff: real): (r: seq<GpuPlot.Pt2>)
    ensures |r| <= |px| && |r| <= |py|
    ensures forall p :: p in r ==>
      exists j :: 0 <= j < |px| && j < |py| && py[j].Fin? && p == GpuPlot.Pt2(px[j] - xOff, py[j].v - yOff)
  {
    if px == [] || py == [] then []
    else
      var rest := PlotPoints(px[1..], py[1..], xOff, yOff);
      assert forall p :: p in rest ==>
        exists j :: 0 <= j < |px| && j < |py| && py[j].Fin? && p == GpuPlot.Pt2(px[j] - xOff, py[j].v - yOff) by {
        forall p | p in rest
          ensures exists j :: 0 <= j < |px| && j < |py| && py[j].Fin? && p == GpuPlot.Pt2(px[j] - xOff, py[j].v - yOff)
        {
          var j :| 0 <= j < |px[1..]| && j < |py[1..]| && py[1..][j].Fin? && p == GpuPlot.Pt2(px[1..][j] - xOff, py[1..][j].v - yOff);
          assert py[j + 1] == py[1..][j] && px[j + 1] == px[1..][j];
        }
      }
      (if py[0].Fin? then [GpuPlot.Pt2(px[0] - xOff, py[0].v - yOff)] else []) + rest
  }

  /** With nothing to drop, every point is kept, in order. */
  lemma {:induction false} PlotPointsAllFinite(px: seq<real>, py: seq<F64>, xOff: real, yOff: real)
    requires |px| == |py| && forall j :: 0 <= j < |py| ==> py[j].Fin?
    ensures |PlotPoints(px, py, xOff, yOff)| == |px|
    ensures forall j :: 0 <= j < |px| ==> PlotPoints(px, py, xOff, yOff)[j] == GpuPlot.Pt2(px[j] - xOff, py[j].v - yOff)
  {
    if px != [] {
      PlotPointsAllFinite(px[1..], py[1..], xOff, yOff);
    }
  }

  /** The colour channels scaled to [0, 1]. */
  function ColorOf(c: Rgba): (r: GpuPlot.Color)
    ensures 0.0 <= r.r <= 1.0 && 0.0 <= r.g <= 1.0 && 0.0 <= r.b <= 1.0 && 0.0 <= r.a <= 1.0
  {
    GpuPlot.Color(c.r as real / 255.0, c.g as real / 255.0, c.b as real / 255.0, c.a as real / 255.0)
  }

  /** The GPU draw mode of an interpolation mode. */
  function ModeOf(m: InterpolationMode): (d: GpuPlot.DrawMode)
    ensures d == GpuPlot.Points <==> m == Points
  {
    match m
    case Linear => GpuPlot.Lines
    case Step => GpuPlot.Step
    case Points => GpuPlot.Points
  }

  /** The entries one drawn series contributes: its own, then a dots layer
      when dots are on, the series is not already drawn as points and it
      has fewer than 10000 points. */
  function SeriesEntries(s: DataSeries, points: seq<GpuPlot.Pt2>): (r: seq<GpuPlot.SeriesGpuData>)
    ensures 1 <= |r| <= 2
    ensures forall e :: e in r ==> e.points == points && e.color == ColorOf(s.color) && e.lineWidth == s.lineWidth
    ensures r[0].drawMode == ModeOf(s.interpolation) && r[0].pointRadius == s.lineWidth + 1.0
    ensures |r| == 2 <==> s.showDots && s.interpolation != Points && |points| < MaxPlotPoints
    ensures |r| == 2 ==> r[0].drawMode != GpuPlot.Points && r[1].drawMode == GpuPlot.Points
    ensures |r| == 2 ==> r[1].pointRadius == s.lineWidth + 0.5
  {
    var primary := GpuPlot.SeriesGpuData(points, ColorOf(s.color), s.lineWidth, s.lineWidth + 1.0, ModeOf(s.interpolation));
    if s.showDots && s.interpolation != Points && |points| < MaxPlotPoints then
      [primary, GpuPlot.SeriesGpuData(points, ColorOf(s.color), s.lineWidth, s.lineWidth + 0.5, GpuPlot.Points)]
    else [primary]
  }

  /** A series that gets entries: visible and with some x. */
  predicate Drawn(s: DataSeries)
  {
    s.visible && s.x != []
  }

  /** The entries of all series, given the points each drawn series is
      plotted with. */
  function EntriesFor(series: seq<DataSeries>, plotted: seq<seq<GpuPlot.Pt2>>): seq<GpuPlot.SeriesGpuData>
    requires |plotted| == |series|
  {
    if series == [] then []
    else
      var n := |series| - 1;
      EntriesFor(series[..n], plotted[..n]) + (if Drawn(series[n]) then SeriesEntries(series[n], plotted[n]) else [])
  }

  /** Each drawn series gives one or two entries, the others none. */
  lemma {:induction false} EntryCountBounds(series: seq<DataSeries>, plotted: seq<seq<GpuPlot.Pt2>>)
    requires |plotted| == |series|
    ensures DrawnCount(series) <= |EntriesFor(series, plotted)| <= 2 * DrawnCount(series)
  {
    if series != [] {
      EntryCountBounds(series[..|series| - 1], plotted[..|series| - 1]);
    }
  }

  function DrawnCount(series: seq<DataSeries>): nat
  {
    if series == [] then 0 else DrawnCount(series[..|series| - 1]) + (if Drawn(series[|series| - 1]) then 1 else 0)
  }

  /** LTTB output never exceeds its target. */
  lemma LttbAtMost(x: seq<real>, y: seq<F64>, target: nat, ox: seq<real>, oy: seq<F64>, idx: seq<nat>)
    requires |y| >= |x| && target >= 3 && Downsampling.IsLttb(x, y, target, ox, oy, idx)
    ensures |ox| <= target
  {
  }

  /** One more series adds its entries when it is drawn. */
  lemma EntriesForStep(series: seq<DataSeries>, plotted: seq<seq<GpuPlot.Pt2>>, i: nat, points: seq<GpuPlot.Pt2>)
    requires i < |series| && |plotted| == i
    ensures EntriesFor(series[..i + 1], plotted + [points])
      == EntriesFor(series[..i], plotted) + (if Drawn(series[i]) then SeriesEntries(series[i], points) else [])
  {
    assert series[..i + 1][..i] == series[..i];
    assert (plotted + [points])[..i] == plotted;
  }

  /** The points one series is drawn with: all of it up to 10000 points,
      else its downsampled view, `(dx, dy)`. */
  method PlotSeries(s: DataSeries, multiUnit: bool, order: seq<string>, ranges: seq<Option<UnitRange>>, w: Window)
    returns (points: seq<GpuPlot.Pt2>, ghost dx: seq<real>, ghost dy: seq<F64>, ghost idx: seq<nat>)
    requires multiUnit ==> |ranges| == |order|
    requires w.xMin <= w.xMax
    requires |s.x| > MaxPlotPoints ==> |s.y| >= |s.x|
    ensures |s.x| <= MaxPlotPoints ==> points == PlotPoints(s.x, PlotYs(s, multiUnit, order, ranges, s.y), w.xMin, w.yMin)
    ensures |s.x| > MaxPlotPoints ==>
      Downsampling.ViewDownsampled(s.x, s.y, w.xMin, w.xMax, MaxPlotPoints, dx, dy, idx) &&
      points == PlotPoints(dx, PlotYs(s, multiUnit, order, ranges, dy), w.xMin, w.yMin)
    ensures |points| <= MaxPlotPoints
  {
    var px: seq<real>, py: seq<F64>;
    if |s.x| > MaxPlotPoints {
      if Search.Sorted(s.x) {
        Downsampling.ViewWindowCoversView(s.x, w.xMin, w.xMax);
      }
      px, py, idx := Downsampling.DownsampleForView(s.x, s.y, w.xMin, w.xMax, MaxPlotPoints);
      if Search.Sorted(s.x) {
        var a, b := Downsampling.ViewStart(s.x, w.xMin), Downsampling.ViewEnd(s.x, w.xMax);
        LttbAtMost(s.x[a..b], s.y[a..b], MaxPlotPoints, px, py, idx);
      } else {
        var win := Downsampling.InWindow(s.x, s.y, w.xMin, w.xMax);
        LttbAtMost(win.0, win.1, MaxPlotPoints, px, py, idx);
      }
    } else {
      px, py, idx := s.x, s.y, [];
    }
    dx, dy := px, py;
    var ys := PlotYs(s, multiUnit, order, ranges, py);
    points := PlotPoints(px, ys, w.xMin, w.yMin);
  }

  /** `pts` are the points series `s` is drawn with: every finite point,
      normalised and offset, when the series has at most 10000 points,
      otherwise the same for the downsampled view; never more than 10000
      points. */
  ghost predicate PlottedAs(s: DataSeries, pts: seq<GpuPlot.Pt2>, multiUnit: bool, order: seq<string>,
                            ranges: seq<Option<UnitRange>>, w: Window)
    requires multiUnit ==> |ranges| == |order|
  {
    && (|s.x| <= MaxPlotPoints ==> pts == PlotPoints(s.x, PlotYs(s, multiUnit, order, ranges, s.y), w.xMin, w.yMin))
    && (|s.x| > MaxPlotPoints ==>
          exists dx, dy, idx :: Downsampling.ViewDownsampled(s.x, s.y, w.xMin, w.xMax, MaxPlotPoints, dx, dy, idx) &&
            pts == PlotPoints(dx, PlotYs(s, multiUnit, order, ranges, dy), w.xMin, w.yMin))
    && |pts| <= MaxPlotPoints
  }

  /** The series part of the 2D frame: the entries handed to the GPU
      callback, one or two per visible series with data. `plotted` holds
      the points each series was drawn with. */
  method BuildSeriesData(series: seq<DataSeries>, multiUnit: bool, order: seq<string>, ranges: seq<Option<UnitRange>>, w: Window)
    returns (entries: seq<GpuPlot.SeriesGpuData>, ghost plotted: seq<seq<GpuPlot.Pt2>>)
    requires multiUnit ==> |ranges| == |order|
    requires w.xMin <= w.xMax
    requires forall k :: 0 <= k < |series| && |series[k].x| > MaxPlotPoints ==> |series[k].y| >= |series[k].x|
    ensures |plotted| == |series|
    ensures entries == EntriesFor(series, plotted)
    ensures forall k :: 0 <= k < |series| && |series[k].x| <= MaxPlotPoints ==>
      plotted[k] == PlotPoints(series[k].x, PlotYs(series[k], multiUnit, order, ranges, series[k].y), w.xMin, w.yMin)
    ensures forall k :: 0 <= k < |series| ==> |plotted[k]| <= MaxPlotPoints
    ensures forall k :: 0 <= k < |series| ==> PlottedAs(series[k], plotted[k], multiUnit, order, ranges, w)
  {
    entries := [];
    plotted := [];
    for i := 0 to |series|
      invariant |plotted| == i
      invariant entries == EntriesFor(series[..i], plotted)
      invariant forall k :: 0 <= k < i ==> PlottedAs(series[k], plotted[k], multiUnit, order, ranges, w)
    {
      var s := series[i];
      ghost var dx, dy, idx;
      var points;
      points, dx, dy, idx := PlotSeries(s, multiUnit, order, ranges, w);
      EntriesForStep(series, plotted, i, points);
      assert PlottedAs(s, points, multiUnit, order, ranges, w);
      if Drawn(s) {
        entries := entries + SeriesEntries(s, points);
      }
      plotted := plotted + [points];
    }
    assert series[..|series|] == series;
  }

  /** With several units, every finite normalised value of a visible
      series lies strictly between its unit's 0 and 1. */
  lemma PlotYsInUnitBand(series: seq<DataSeries>, k: nat, j: nat)
    requires k < |series| && series[k].visible && j < |series[k].y|
    requires PlotYs(series[k], true, UnitOrder(series), UnitRanges(series), series[k].y)[j].Fin?
    ensures var y := PlotYs(series[k], true, UnitOrder(series), UnitRanges(series), series[k].y)[j]; 0.0 < y.v < 1.0
  {
    var s := series[k];
    var order := UnitOrder(series);
    assert s.unit in order by {
      assert VisibleWithUnit(series, s.unit);
    }
    var ys := PlotYs(s, true, order, UnitRanges(series), s.y);
    var r := RangeOf(UnitValues(series, s.unit));
    assert ys[j] == NormalizeIn(r, s.y[j]);
    assert s.y[j].Fin? && s.y[j].v in UnitValues(series, s.unit) by {
      UnitValuesHold(series, k);
      FiniteMembers(s.y);
    }
    NormalizedInsideUnit(series, s.unit, s.y[j].v);
  }

  /** With several units, every point of a fully drawn series lies in the
      band between its unit's 0 and 1, shifted by the view origin. */
  lemma NormalizedPointsInBand(series: seq<DataSeries>, k: nat, w: Window, p: GpuPlot.Pt2)
    requires k < |series| && series[k].visible
    requires p in PlotPoints(series[k].x, PlotYs(series[k], true, UnitOrder(series), UnitRanges(series), series[k].y), w.xMin, w.yMin)
    ensures -w.yMin < p.y < 1.0 - w.yMin
  {
    var s := series[k];
    var ys := PlotYs(s, true, UnitOrder(series), UnitRanges(series), s.y);
    var j := PlotPointSource(s.x, ys, w.xMin, w.yMin, p);
    PlotYsInUnitBand(series, k, j);
  }

  /** The index a drawn point comes from. */
  lemma PlotPointSource(px: seq<real>, py: seq<F64>, xOff: real, yOff: real, p: GpuPlot.Pt2) returns (j: nat)
    requires p in PlotPoints(px, py, xOff, yOff)
    ensures j < |px| && j < |py| && py[j].Fin? && p == GpuPlot.Pt2(px[j] - xOff, py[j].v - yOff)
  {
    j :| 0 <= j < |px| && j < |py| && py[j].Fin? && p == GpuPlot.Pt2(px[j] - xOff, py[j].v - yOff);
  }

  /** The ranges `compute_unit_ranges` gives for the unit order. */
  function UnitRanges(series: seq<DataSeries>): (r: seq<Option<UnitRange>>)
    ensures |r| == |UnitOrder(series)|
    ensures forall k :: 0 <= k < |r| ==> r[k] == RangeOf(UnitValues(series, UnitOrder(series)[k]))
  {
    var order := UnitOrder(series);
    seq(|order|, k requires 0 <= k < |order| => RangeOf(UnitValues(series, order[k])))
  }

  /** A visible series' finite values are among its unit's values. */
  lemma {:induction false} UnitValuesHold(series: seq<DataSeries>, k: nat)
    requires k < |series| && series[k].visible
    ensures forall v :: v in Finite(series[k].y) ==> v in UnitValues(series, series[k].unit)
  {
    var n := |series| - 1;
    if k < n {
      assert series[..n][k] == series[k];
      UnitValuesHold(series[..n], k);
    }
  }

  /** The unit set-up of a 2D frame: the unit order, whether several units
      share the plot, and then their ranges. */
  method PrepareUnits(series: seq<DataSeries>) returns (order: seq<string>, multiUnit: bool, ranges: seq<Option<UnitRange>>)
    ensures order == UnitOrder(series)
    ensures multiUnit <==> |order| > 1
    ensures multiUnit ==> ranges == UnitRanges(series)
    ensures !multiUnit ==> ranges == []
  {
    order := CollectUnitOrder(series);
    multiUnit := |order| > 1;
    if multiUnit {
      ranges := ComputeUnitRanges(series, order);
    } else {
      ranges := [];
    }
  }
}
