/**
 * The CPU side of the 2D GPU plot callback: `prepare` turns the grid and
 * the series into a list of draw calls (storage contents, uniforms,
 * instance count, pipeline), and `paint` replays that list as instanced
 * draws of a 6-vertex quad. wgpu buffers, bind groups and pipelines are
 * replaced by the data they would be created from; f32 values are reals.
 */
module GpuPlot {
  import opened Common
  import Series

  type u8 = Series.u8

  /** wgpu's minimum storage binding size used by the 2D callback, in bytes. */
  const MinStorage2D: nat := 8

  /** `create_storage_buffer`: the data, zero-padded to `minSize` bytes when
      it is shorter. The padding is built as in the program: a zeroed buffer
      into whose prefix the data is copied. */
  method PaddedStorage(data: seq<u8>, minSize: nat) returns (contents: seq<u8>)
    ensures |contents| == if |data| < minSize then minSize else |data|
    ensures contents[..|data|] == data
    ensures forall k :: |data| <= k < |contents| ==> contents[k] == 0
  {
    if |data| < minSize {
      var padded := new u8[minSize](_ => 0);
      for i := 0 to |data|
        invariant padded[..i] == data[..i]
        invariant forall k :: |data| <= k < minSize ==> padded[k] == 0
      {
        padded[i] := data[i];
      }
      contents := padded[..];
      assert contents[..|data|] == padded[..|data|];
    } else {
      contents := data;
    }
  }

  datatype Pt2 = Pt2(x: real, y: real)

  datatype Color = Color(r: real, g: real, b: real, a: real)

  /** `PlotUniforms`; the padding words are left out. */
  datatype PlotUniforms = PlotUniforms(
    viewMin: Pt2, viewMax: Pt2, resolution: Pt2, lineWidth: real, pointRadius: real, color: Color)

  datatype DrawMode = Lines | Step | Points

  datatype SeriesGpuData = SeriesGpuData(
    points: seq<Pt2>, color: Color, lineWidth: real, pointRadius: real, drawMode: DrawMode)

  datatype GridGpuData = GridGpuData(segments: seq<Pt2>, color: Color, lineWidth: real)

  datatype PipelineType = LinePipeline | PointPipeline

  /** A draw call: what its storage buffer and uniform buffer hold, how many
      instances it draws and with which pipeline. */
  datatype DrawCall = DrawCall(storage: seq<Pt2>, uniforms: PlotUniforms, instanceCount: nat, pipeline: PipelineType)

  /** One `render_pass.draw(0..vertices, 0..instances)` with a pipeline. */
  datatype Draw = Draw(pipeline: PipelineType, vertices: nat, instances: nat)

  /** The segment list of Lines mode: `[p0, p1, p1, p2, ...]`. */
  function SegmentPairs(p: seq<Pt2>): (r: seq<Pt2>)
    ensures |r| == if |p| == 0 then 0 else 2 * (|p| - 1)
    ensures forall i :: 0 <= i < |p| - 1 ==> r[2 * i] == p[i] && r[2 * i + 1] == p[i + 1]
  {
    if |p| < 2 then [] else SegmentPairs(p[..|p| - 1]) + [p[|p| - 2], p[|p| - 1]]
  }

  /** The corner between two consecutive points of a step plot. */
  function Corner(p0: Pt2, p1: Pt2): Pt2
  {
    Pt2(p1.x, p0.y)
  }

  /** The segment list of Step mode: each pair `p0, p1` becomes the two
      segments `p0 → (p1.x, p0.y)` and `(p1.x, p0.y) → p1`. */
  function StepPoints(p: seq<Pt2>): (r: seq<Pt2>)
    ensures |r| == if |p| == 0 then 0 else 4 * (|p| - 1)
    ensures forall i :: 0 <= i < |p| - 1 ==>
      r[4 * i] == p[i] && r[4 * i + 1] == Corner(p[i], p[i + 1]) &&
      r[4 * i + 2] == Corner(p[i], p[i + 1]) && r[4 * i + 3] == p[i + 1]
  {
    if |p| < 2 then []
    else StepPoints(p[..|p| - 1]) + [p[|p| - 2], Corner(p[|p| - 2], p[|p| - 1]), Corner(p[|p| - 2], p[|p| - 1]), p[|p| - 1]]
  }

  /** The pair-building loop of Lines mode. */
  method BuildPairs(p: seq<Pt2>) returns (pairs: seq<Pt2>)
    requires |p| >= 1
    ensures pairs == SegmentPairs(p)
  {
    pairs := [];
    for i := 0 to |p| - 1
      invariant pairs == SegmentPairs(p[..i + 1])
    {
      assert p[..i + 2][..i + 1] == p[..i + 1];
      pairs := pairs + [p[i], p[i + 1]];
    }
    assert p[..|p|] == p;
  }

  /** The step-building loop of Step mode. */
  method BuildSteps(p: seq<Pt2>) returns (steps: seq<Pt2>)
    requires |p| >= 1
    ensures steps == StepPoints(p)
  {
    steps := [];
    for i := 0 to |p| - 1
      invariant steps == StepPoints(p[..i + 1])
    {
      assert p[..i + 2][..i + 1] == p[..i + 1];
      var mid := Corner(p[i], p[i + 1]);
      steps := steps + [p[i], mid, mid, p[i + 1]];
    }
    assert p[..|p|] == p;
  }

  /** Uniforms of a line-like call: the base with colour and line width
      replaced. */
  function LineUniforms(base: PlotUniforms, color: Color, lineWidth: real): (u: PlotUniforms)
    ensures u.color == color && u.lineWidth == lineWidth
    ensures u.(color := base.color, lineWidth := base.lineWidth) == base
  {
    base.(color := color, lineWidth := lineWidth)
  }

  /** Uniforms of a point call: the base with colour and point radius
      replaced. It is kept apart from `LineUniforms` because the program
      builds the two at separate sites (src/render/gpu_plot.rs:417-419 and
      507-509), each overriding a different size field, and a point draw
      must keep the base line width. */
  function PointUniforms(base: PlotUniforms, color: Color, pointRadius: real): (u: PlotUniforms)
    ensures u.color == color && u.pointRadius == pointRadius
    ensures u.(color := base.color, pointRadius := base.pointRadius) == base
  {
    base.(color := color, pointRadius := pointRadius)
  }

  /** The grid call, emitted when the grid has at least one segment. */
  function GridCall(grid: GridGpuData, base: PlotUniforms): (c: Option<DrawCall>)
    ensures c.Some? <==> |grid.segments| >= 2
    ensures c.Some? ==> c.value.storage == grid.segments && c.value.pipeline == LinePipeline
    ensures c.Some? ==> c.value.instanceCount == |grid.segments| / 2 && c.value.uniforms == LineUniforms(base, grid.color, grid.lineWidth)
  {
    if |grid.segments| >= 2 then
      Some(DrawCall(grid.segments, LineUniforms(base, grid.color, grid.lineWidth), |grid.segments| / 2, LinePipeline))
    else None
  }

  /** A series is skipped when it has no point, or a single point in a
      mode that draws segments. */
  predicate Drawable(s: SeriesGpuData)
  {
    |s.points| > 0 && (|s.points| >= 2 || s.drawMode == Points)
  }

  /** The call one series contributes. */
  function SeriesCall(s: SeriesGpuData, base: PlotUniforms): (c: Option<DrawCall>)
    ensures c.Some? <==> Drawable(s)
    ensures c.Some? && s.drawMode == Lines ==>
      c.value.storage == SegmentPairs(s.points) && c.value.instanceCount == |s.points| - 1 &&
      c.value.pipeline == LinePipeline && c.value.uniforms == LineUniforms(base, s.color, s.lineWidth)
    ensures c.Some? && s.drawMode == Step ==>
      c.value.storage == StepPoints(s.points) && c.value.instanceCount == 2 * (|s.points| - 1) &&
      c.value.pipeline == LinePipeline && c.value.uniforms == LineUniforms(base, s.color, s.lineWidth)
    ensures c.Some? && s.drawMode == Points ==>
      c.value.storage == s.points && c.value.instanceCount == |s.points| &&
      c.value.pipeline == PointPipeline && c.value.uniforms == PointUniforms(base, s.color, s.pointRadius)
  {
    if !Drawable(s) then None
    else
      match s.drawMode
      case Lines =>
        var pairs := SegmentPairs(s.points);
        Some(DrawCall(pairs, LineUniforms(base, s.color, s.lineWidth), |pairs| / 2, LinePipeline))
      case Step =>
        var steps := StepPoints(s.points);
        Some(DrawCall(steps, LineUniforms(base, s.color, s.lineWidth), |steps| / 2, LinePipeline))
      case Points =>
        Some(DrawCall(s.points, PointUniforms(base, s.color, s.pointRadius), |s.points|, PointPipeline))
  }

  /** The positions, in order, of the series that are drawn. */
  function DrawnIndices(ss: seq<SeriesGpuData>): (r: seq<nat>)
    ensures forall k :: 0 <= k < |r| ==> r[k] < |ss| && Drawable(ss[r[k]])
    ensures forall k, j :: 0 <= k < j < |r| ==> r[k] < r[j]
    ensures forall i :: 0 <= i < |ss| && Drawable(ss[i]) ==> i in r
  {
    if ss == [] then []
    else DrawnIndices(ss[..|ss| - 1]) + (if Drawable(ss[|ss| - 1]) then [|ss| - 1] else [])
  }

  /** The series calls in input order. */
  function SeriesCalls(ss: seq<SeriesGpuData>, base: PlotUniforms): (r: seq<DrawCall>)
    ensures |r| == |DrawnIndices(ss)|
    ensures forall k :: 0 <= k < |r| ==> SeriesCall(ss[DrawnIndices(ss)[k]], base) == Some(r[k])
  {
    if ss == [] then []
    else
      var c := SeriesCall(ss[|ss| - 1], base);
      assert ss[..|ss| - 1] == ss[..|ss| - 1];
      SeriesCalls(ss[..|ss| - 1], base) + (if c.Some? then [c.value] else [])
  }

  /** One slot for the grid call when the grid has a segment, else none. */
  function GridOffset(grid: GridGpuData): nat
  {
    if |grid.segments| >= 2 then 1 else 0
  }

  /** The whole list built by `prepare`: the grid first, then one call per
      drawn series, in input order. */
  function DrawList(grid: GridGpuData, ss: seq<SeriesGpuData>, base: PlotUniforms): (r: seq<DrawCall>)
    ensures |r| == GridOffset(grid) + |DrawnIndices(ss)|
    ensures GridOffset(grid) == 1 ==> r[0] == GridCall(grid, base).value
  {
    var g := GridCall(grid, base);
    (if g.Some? then [g.value] else []) + SeriesCalls(ss, base)
  }

  /** After the grid slot, the `k`-th call of the list is the call of the
      `k`-th drawn series. */
  lemma DrawListSeriesOrder(grid: GridGpuData, ss: seq<SeriesGpuData>, base: PlotUniforms, k: nat)
    requires k < |DrawnIndices(ss)|
    ensures GridOffset(grid) + k < |DrawList(grid, ss, base)|
    ensures Some(DrawList(grid, ss, base)[GridOffset(grid) + k]) == SeriesCall(ss[DrawnIndices(ss)[k]], base)
  {
    var g := GridCall(grid, base);
    var calls := SeriesCalls(ss, base);
    assert DrawList(grid, ss, base) == (if g.Some? then [g.value] else []) + calls;
    assert DrawList(grid, ss, base)[GridOffset(grid) + k] == calls[k];
  }

  /** The instanced draws `paint` issues for a list of calls. */
  function Draws(calls: seq<DrawCall>): (r: seq<Draw>)
    ensures |r| == |calls|
    ensures forall k :: 0 <= k < |r| ==> r[k] == Draw(calls[k].pipeline, 6, calls[k].instanceCount)
  {
    if calls == [] then [] else Draws(calls[..|calls| - 1]) + [Draw(calls[|calls| - 1].pipeline, 6, calls[|calls| - 1].instanceCount)]
  }

  /** Every emitted call carries at least one point per instance, so with
      8-byte points no emitted storage buffer needs padding. */
  lemma EmittedStorageNeedsNoPadding(grid: GridGpuData, ss: seq<SeriesGpuData>, base: PlotUniforms, k: nat)
    requires k < |DrawList(grid, ss, base)|
    ensures 8 * |DrawList(grid, ss, base)[k].storage| >= MinStorage2D
    ensures DrawList(grid, ss, base)[k].instanceCount >= 1
  {
    var off := GridOffset(grid);
    if k >= off {
      var j := k - off;
      DrawListSeriesOrder(grid, ss, base, j);
      CallNotEmpty(ss[DrawnIndices(ss)[j]], base);
    }
  }

  lemma CallNotEmpty(s: SeriesGpuData, base: PlotUniforms)
    requires Drawable(s)
    ensures |SeriesCall(s, base).value.storage| >= 1 && SeriesCall(s, base).value.instanceCount >= 1
  {
  }

  /** One plot's paint callback and the draw list shared by its `prepare`
      and `paint`. */
  class GpuPlotCallback {
    const seriesData: seq<SeriesGpuData>
    const gridData: GridGpuData
    const uniformsBase: PlotUniforms
    var drawCalls: seq<DrawCall>

    /** `create_plot_paint_callback`. */
    constructor (seriesData: seq<SeriesGpuData>, gridData: GridGpuData, uniformsBase: PlotUniforms)
      ensures this.seriesData == seriesData && this.gridData == gridData && this.uniformsBase == uniformsBase
      ensures drawCalls == []
    {
      this.seriesData := seriesData;
      this.gridData := gridData;
      this.uniformsBase := uniformsBase;
      drawCalls := [];
    }

    /** `prepare`: without the plot resources nothing happens; otherwise the
        stored list becomes the grid call and the series calls. */
    method Prepare(hasResources: bool)
      modifies this`drawCalls
      ensures !hasResources ==> drawCalls == old(drawCalls)
      ensures hasResources ==> drawCalls == DrawList(gridData, seriesData, uniformsBase)
    {
      if !hasResources {
        return;
      }
      var calls: seq<DrawCall> := [];
      if |gridData.segments| >= 2 {
        var u := uniformsBase.(color := gridData.color, lineWidth := gridData.lineWidth);
        calls := calls + [DrawCall(gridData.segments, u, |gridData.segments| / 2, LinePipeline)];
      }
      var seriesCalls := BuildSeriesCalls(seriesData, uniformsBase);
      drawCalls := calls + seriesCalls;
    }

    /** `paint`: nothing without resources, with an empty list or with a
        non-positive viewport; otherwise one 6-vertex instanced draw per
        call, in list order. */
    method Paint(hasResources: bool, viewportWidth: int, viewportHeight: int) returns (draws: seq<Draw>)
      ensures !hasResources || drawCalls == [] || viewportWidth <= 0 || viewportHeight <= 0 ==> draws == []
      ensures hasResources && drawCalls != [] && viewportWidth > 0 && viewportHeight > 0 ==> draws == Draws(drawCalls)
    {
      draws := [];
      if !hasResources || drawCalls == [] || viewportWidth <= 0 || viewportHeight <= 0 {
        return;
      }
      for k := 0 to |drawCalls|
        invariant draws == Draws(drawCalls[..k])
      {
        assert drawCalls[..k + 1][..k] == drawCalls[..k];
        draws := draws + [Draw(drawCalls[k].pipeline, 6, drawCalls[k].instanceCount)];
      }
      assert drawCalls[..|drawCalls|] == drawCalls;
    }
  }

  /** The series loop of `prepare`: skipped series contribute nothing, the
      others one call each. */
  method BuildSeriesCalls(ss: seq<SeriesGpuData>, base: PlotUniforms) returns (calls: seq<DrawCall>)
    ensures calls == SeriesCalls(ss, base)
  {
    calls := [];
    for i := 0 to |ss|
      invariant calls == SeriesCalls(ss[..i], base)
    {
      var s := ss[i];
      assert ss[..i + 1][..i] == ss[..i];
      if |s.points| == 0 || (|s.points| < 2 && s.drawMode != Points) {
        continue;
      }
      var call := SeriesDrawCall(s, base);
      calls := calls + [call];
    }
    assert ss[..|ss|] == ss;
  }

  /** The body of the series loop for a series that passed the skip rules.
      The program's second emptiness test after building the segment list
      never fires: two points give at least two entries. */
  method SeriesDrawCall(s: SeriesGpuData, base: PlotUniforms) returns (call: DrawCall)
    requires Drawable(s)
    ensures SeriesCall(s, base) == Some(call)
  {
    match s.drawMode {
      case Lines =>
        var pairs := BuildPairs(s.points);
        assert |pairs| >= 2;
        call := DrawCall(pairs, base.(color := s.color, lineWidth := s.lineWidth), |pairs| / 2, LinePipeline);
      case Step =>
        var steps := BuildSteps(s.points);
        assert |steps| >= 2;
        call := DrawCall(steps, base.(color := s.color, lineWidth := s.lineWidth), |steps| / 2, LinePipeline);
      case Points =>
        call := DrawCall(s.points, base.(color := s.color, pointRadius := s.pointRadius), |s.points|, PointPipeline);
    }
  }
}
