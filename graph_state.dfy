/**
 * One graph of the application: its series, per-unit y axes, sync links
 * to other graphs, and the 2D view and 3D camera it owns. The global graph
 * id counter of the program is replaced by an `id` parameter.
 */
module Graph {
  import opened Common
  import opened Spans
  import opened Series
  import opened PlotView
  import opened Camera

  datatype SortDirection = Ascending | Descending

  datatype CursorMode = Off | Vertical | Horizontal

  /** The measurement cursors of a 2D plot. */
  datatype CursorState = CursorState(mode: CursorMode, cursor1: Option<real>, cursor2: Option<real>)

  const DefaultCursor: CursorState := CursorState(Off, None, None)

  datatype PlotMode = Plot2D | Plot3D

  /** A y axis, one per unit. */
  datatype AxisState = AxisState(name: string, autoRange: bool, min: real, max: real)

  /** The axis created for a unit that has none yet. */
  function AxisFor(unit: string): (a: AxisState)
    ensures a.autoRange && a.min == 0.0 && a.max == 1.0
    ensures a.name == "Y Axis (" + unit + ")"
  {
    AxisState("Y Axis (" + unit + ")", true, 0.0, 1.0)
  }

  /** The position of the first series with id `sid`. */
  function FindSeries(series: seq<DataSeries>, sid: nat): (r: Option<nat>)
    ensures r.Some? ==> r.value < |series| && series[r.value].id == sid
    ensures r.Some? ==> forall k :: 0 <= k < r.value ==> series[k].id != sid
    ensures r.None? ==> forall k :: 0 <= k < |series| ==> series[k].id != sid
  {
    if series == [] then None
    else if series[0].id == sid then Some(0)
    else
      var r := FindSeries(series[1..], sid);
      if r.None? then None else Some(r.value + 1)
  }

  /** Some series uses `unit`. */
  predicate UsesUnit(series: seq<DataSeries>, unit: string)
  {
    exists k :: 0 <= k < |series| && series[k].unit == unit
  }

  /** The series as `add_series` stores it: a transparent colour is replaced
      by the palette colour for the series counter. */
  function Colored(s: DataSeries, counter: nat): (r: DataSeries)
    ensures r == s.(color := r.color)
    ensures r.color != Transparent
    ensures s.color != Transparent ==> r.color == s.color
  {
    if s.color == Transparent then s.(color := ColorForIndex(counter)) else s
  }

  /** The finite y values, among the zipped samples with x in `[lo, hi]`, of
      the visible series with unit `unit`. */
  function UnitYs(series: seq<DataSeries>, unit: string, lo: real, hi: real): seq<real>
  {
    if series == [] then []
    else
      var s := series[|series| - 1];
      UnitYs(series[..|series| - 1], unit, lo, hi) +
        (if s.visible && s.unit == unit then YsInWindow(s.x, s.y, lo, hi, ZipLen(s.x, s.y)) else [])
  }

  lemma UnitYsSnoc(series: seq<DataSeries>, i: nat, unit: string, lo: real, hi: real)
    requires i < |series|
    ensures series[i].visible && series[i].unit == unit ==>
      UnitYs(series[..i + 1], unit, lo, hi) ==
        UnitYs(series[..i], unit, lo, hi) + YsInWindow(series[i].x, series[i].y, lo, hi, ZipLen(series[i].x, series[i].y))
    ensures !(series[i].visible && series[i].unit == unit) ==>
      UnitYs(series[..i + 1], unit, lo, hi) == UnitYs(series[..i], unit, lo, hi)
  {
    assert series[..i + 1][..i] == series[..i];
    if !(series[i].visible && series[i].unit == unit) {
      assert UnitYs(series[..i + 1], unit, lo, hi) == UnitYs(series[..i], unit, lo, hi) + [];
    }
  }

  /** The y fold of `y_range_for_unit`. */
  method UnitYSpan(series: seq<DataSeries>, unit: string, lo: real, hi: real) returns (ys: Span)
    ensures ys == SpanOf(UnitYs(series, unit, lo, hi))
  {
    ys := Empty;
    for i := 0 to |series|
      invariant ys == SpanOf(UnitYs(series[..i], unit, lo, hi))
    {
      var s := series[i];
      UnitYsSnoc(series, i, unit, lo, hi);
      if s.visible && s.unit == unit {
        ExtendAppend(Empty, UnitYs(series[..i], unit, lo, hi), YsInWindow(s.x, s.y, lo, hi, ZipLen(s.x, s.y)));
        ys := AccumulateInWindow(ys, s.x, s.y, lo, hi);
      }
    }
    assert series[..|series|] == series;
  }

  class GraphState {
    const id: nat
    /** The 2D view and the 3D camera belong to this graph alone. */
    const view: PlotViewState
    const camera: OrbitalCamera
    var title: string
    var series: seq<DataSeries>
    var seriesCounter: nat
    var xAxisIsDatetime: Option<bool>
    var xAxisName: Option<string>
    var xAxisUnit: Option<string>
    var autoScaleY: bool
    var yAxes: map<string, AxisState>
    var syncPartnerIds: seq<nat>
    /** The least of the graph's own id and its direct partners' ids;
        `None` when unsynced. Partner lists are not transitive. */
    var syncGroupId: Option<nat>
    var showDataTable: bool
    var plotMode: PlotMode
    var isUpdatingRange: bool
    var tableSort: Option<(nat, SortDirection)>
    var cursor: CursorState
    var removeSeriesSelected: seq<bool>
    var lastFrameRect: Option<Rect>

    /** Every series has a y axis for its unit. */
    predicate AxesCoverUnits()
      reads this
    {
      forall k :: 0 <= k < |series| ==> series[k].unit in yAxes
    }

    /** `GraphState::new` with the next graph id given. */
    constructor (id: nat)
      ensures this.id == id && fresh(view) && fresh(camera)
      ensures title == "Title" && series == [] && seriesCounter == 0
      ensures xAxisIsDatetime.None? && xAxisName.None? && xAxisUnit.None?
      ensures autoScaleY && yAxes == map[] && syncPartnerIds == [] && syncGroupId.None?
      ensures !showDataTable && plotMode == Plot2D && !isUpdatingRange && tableSort.None?
      ensures cursor == DefaultCursor && removeSeriesSelected == [] && lastFrameRect.None?
      ensures view.Bounds() == Window(0.0, 1.0, 0.0, 1.0) && view.autoFit && !view.initialized
      ensures !view.XRangeChanged()
      ensures camera.IsDefault() && camera.InLimits()
      ensures AxesCoverUnits()
    {
      this.id := id;
      view := new PlotViewState();
      camera := new OrbitalCamera();
      title := "Title";
      series := [];
      seriesCounter := 0;
      xAxisIsDatetime, xAxisName, xAxisUnit := None, None, None;
      autoScaleY := true;
      yAxes := map[];
      syncPartnerIds := [];
      syncGroupId := None;
      showDataTable := false;
      plotMode := Plot2D;
      isUpdatingRange := false;
      tableSort := None;
      cursor := DefaultCursor;
      removeSeriesSelected := [];
      lastFrameRect := None;
    }

    /** `add_series`: appends the series (coloured from the palette when its
        colour is unset), counts it, and makes sure its unit has an axis. */
    method AddSeries(s: DataSeries)
      modifies this`series, this`seriesCounter, this`yAxes
      ensures series == old(series) + [Colored(s, old(seriesCounter))]
      ensures seriesCounter == old(seriesCounter) + 1
      ensures s.unit in old(yAxes) ==> yAxes == old(yAxes)
      ensures s.unit !in old(yAxes) ==> yAxes == old(yAxes)[s.unit := AxisFor(s.unit)]
      ensures old(AxesCoverUnits()) ==> AxesCoverUnits()
    {
      var t := s;
      if t.color == Transparent {
        t := t.(color := ColorForIndex(seriesCounter));
      }
      seriesCounter := seriesCounter + 1;
      if t.unit !in yAxes {
        yAxes := yAxes[t.unit := AxisFor(t.unit)];
      }
      series := series + [t];
    }

    /** `remove_series_by_id`: removes the first series with that id, if
        any, and drops its unit's axis when no remaining series uses it. */
    method RemoveSeriesById(sid: nat)
      modifies this`series, this`yAxes
      ensures FindSeries(old(series), sid).None? ==> series == old(series) && yAxes == old(yAxes)
      ensures FindSeries(old(series), sid).Some? ==>
        var p := FindSeries(old(series), sid).value;
        var unit := old(series)[p].unit;
        series == old(series)[..p] + old(series)[p + 1..] &&
        yAxes == (if UsesUnit(series, unit) then old(yAxes) else old(yAxes) - {unit})
      ensures old(AxesCoverUnits()) ==> AxesCoverUnits()
    {
      var pos := FindSeries(series, sid);
      if pos.None? {
        return;
      }
      var p := pos.value;
      var removed := series[p];
      series := series[..p] + series[p + 1..];
      var stillUsed := AnyUsesUnit(series, removed.unit);
      if !stillUsed {
        yAxes := yAxes - {removed.unit};
      }
    }

    /** `series_labels`. */
    function SeriesLabels(): (r: seq<string>)
      reads this
      ensures |r| == |series| && forall k :: 0 <= k < |r| ==> r[k] == series[k].name
    {
      seq(|series|, k requires 0 <= k < |series| reads this => series[k].name)
    }

    /** `x_range`: the smallest and largest x of the shown series. */
    method XRange() returns (r: Option<(real, real)>)
      ensures r.None? <==> VisibleX(series) == []
      ensures r.Some? ==>
        r.value.0 <= r.value.1 && r.value.0 in VisibleX(series) && r.value.1 in VisibleX(series) &&
        forall v :: v in VisibleX(series) ==> r.value.0 <= v <= r.value.1
    {
      var xs := VisibleXSpan(series);
      SpanOfIsMinMax(VisibleX(series));
      if xs.Empty? {
        return None;
      }
      return Some((xs.lo, xs.hi));
    }

    /** The extent `[a, b]` widened by 5% of its span on each side. */
    static function Padded(a: real, b: real): (r: (real, real))
      ensures a <= b ==> r.0 <= a && b <= r.1
      ensures r.1 - r.0 == (b - a) * 1.1
    {
      (a - (b - a) * 0.05, b + (b - a) * 0.05)
    }

    /** `y_range_for_unit`: the y extent of the visible series of `unit` over
        points with x in `[lo, hi]`, padded by 5% with no fallback. */
    method YRangeForUnit(unit: string, lo: real, hi: real) returns (r: Option<(real, real)>)
      ensures r.None? <==> UnitYs(series, unit, lo, hi) == []
      ensures r.Some? ==>
        exists a, b ::
          a in UnitYs(series, unit, lo, hi) && b in UnitYs(series, unit, lo, hi) &&
          r.value == Padded(a, b) &&
          (forall v :: v in UnitYs(series, unit, lo, hi) ==> a <= v <= b)
      ensures r.Some? ==> r.value.0 <= r.value.1
    {
      ghost var vals := UnitYs(series, unit, lo, hi);
      var ys := UnitYSpan(series, unit, lo, hi);
      SpanOfIsMinMax(vals);
      if ys.Empty? {
        return None;
      }
      var padding := (ys.hi - ys.lo) * 0.05;
      r := Some((ys.lo - padding, ys.hi + padding));
      assert ys.lo in vals && ys.hi in vals && forall v :: v in vals ==> ys.lo <= v <= ys.hi;
      assert r.value == Padded(ys.lo, ys.hi);
    }
  }

  /** `iter().any(|s| s.unit == unit)`. */
  method AnyUsesUnit(series: seq<DataSeries>, unit: string) returns (b: bool)
    ensures b <==> UsesUnit(series, unit)
  {
    b := false;
    for i := 0 to |series|
      invariant b <==> exists k :: 0 <= k < i && series[k].unit == unit
    {
      if series[i].unit == unit {
        b := true;
      }
    }
  }
}
