/**
 * The CPU side of the 3D plot callback. `prepare` makes sure the cached
 * offscreen colour and depth textures match the viewport and the target
 * format, records the offscreen pass (line entries first, then scatter
 * entries) and stores the blit state; `paint` blits the offscreen texture
 * with one 6-vertex draw. The type map of callback resources is a class
 * with one optional slot per stored type; a texture is its key, and the
 * number of texture allocations is counted.
 */
module Render3D {
  import opened Common
  import GpuPlot

  /** The 3D storage buffers hold vec4 values: at least 16 bytes. */
  const MinStorage3D: nat := 16

  /** `create_storage_buffer_3d`. */
  method PaddedStorage3D(data: seq<GpuPlot.u8>) returns (contents: seq<GpuPlot.u8>)
    ensures |contents| == if |data| < MinStorage3D then MinStorage3D else |data|
    ensures contents[..|data|] == data
    ensures forall k :: |data| <= k < |contents| ==> contents[k] == 0
  {
    contents := GpuPlot.PaddedStorage(data, MinStorage3D);
  }

  /** An `[x, y, z, w]` position. */
  datatype P4 = P4(x: real, y: real, z: real, w: real)

  /** `Plot3DUniforms`; the view-projection matrix is kept as its sixteen
      entries. */
  datatype Plot3DUniforms = Plot3DUniforms(
    viewProj: seq<real>, cameraPos: P4, color: GpuPlot.Color, resolution: GpuPlot.Pt2, pointSize: real, lineWidth: real)

  datatype Scatter3DData = Scatter3DData(positions: seq<P4>, color: GpuPlot.Color, pointSize: real)

  datatype Line3DData = Line3DData(segments: seq<P4>, color: GpuPlot.Color, lineWidth: real)

  /** The identity of an offscreen texture pair: size and colour format. */
  datatype TextureKey = TextureKey(width: nat, height: nat, format: nat)

  datatype ScenePipeline = LinePipeline | ScatterPipeline

  /** One draw of the offscreen pass. */
  datatype SceneDraw = SceneDraw(pipeline: ScenePipeline, storage: seq<P4>, uniforms: Plot3DUniforms, vertices: nat, instances: nat)

  /** One draw of the blit pass: the texture it samples. */
  datatype BlitDraw = BlitDraw(source: TextureKey, vertices: nat, instances: nat)

  /** The stored blit bind group, identified by the texture it samples. */
  datatype BlitState = BlitState(source: TextureKey)

  /** The callback resources shared between frames. */
  class CallbackResources {
    /** The target format of `Plot3DResources`; `None` when the 3D
        resources were never initialised. */
    var targetFormat: Option<nat>
    var cached: Option<TextureKey>
    /** Offscreen texture pairs created so far. */
    var allocations: nat

    constructor (targetFormat: Option<nat>)
      ensures this.targetFormat == targetFormat && cached.None? && allocations == 0
    {
      this.targetFormat := targetFormat;
      cached := None;
      allocations := 0;
    }
  }

  /** The size the offscreen textures get: zero dimensions become 1. */
  function TextureSize(viewportSize: (nat, nat), format: nat): (k: TextureKey)
    ensures k.width >= 1 && k.height >= 1 && k.format == format
    ensures viewportSize.0 >= 1 ==> k.width == viewportSize.0
    ensures viewportSize.1 >= 1 ==> k.height == viewportSize.1
  {
    TextureKey(if viewportSize.0 < 1 then 1 else viewportSize.0, if viewportSize.1 < 1 then 1 else viewportSize.1, format)
  }

  /** Textures are recreated exactly when there is no cache or it was
      made for another size or format. */
  predicate NeedsRecreate(cached: Option<TextureKey>, key: TextureKey)
  {
    cached.None? || cached.value != key
  }

  predicate LineDrawn(l: Line3DData) { |l.segments| >= 2 }

  predicate ScatterDrawn(s: Scatter3DData) { |s.positions| > 0 }

  function Resolution(key: TextureKey): GpuPlot.Pt2
  {
    GpuPlot.Pt2(key.width as real, key.height as real)
  }

  /** The draw of one line entry. */
  function LineDraw(l: Line3DData, base: Plot3DUniforms, key: TextureKey): (d: SceneDraw)
    ensures d.pipeline == LinePipeline && d.storage == l.segments && d.vertices == 6 && d.instances == |l.segments| / 2
    ensures d.uniforms == base.(color := l.color, lineWidth := l.lineWidth, resolution := Resolution(key))
  {
    SceneDraw(LinePipeline, l.segments, base.(color := l.color, lineWidth := l.lineWidth, resolution := Resolution(key)), 6, |l.segments| / 2)
  }

  /** The draw of one scatter entry. */
  function ScatterDraw(s: Scatter3DData, base: Plot3DUniforms, key: TextureKey): (d: SceneDraw)
    ensures d.pipeline == ScatterPipeline && d.storage == s.positions && d.vertices == 6 && d.instances == |s.positions|
    ensures d.uniforms == base.(color := s.color, pointSize := s.pointSize, resolution := Resolution(key))
  {
    SceneDraw(ScatterPipeline, s.positions, base.(color := s.color, pointSize := s.pointSize, resolution := Resolution(key)), 6, |s.positions|)
  }

  /** The line draws, skipping entries with fewer than two endpoints. */
  function LineDraws(ls: seq<Line3DData>, base: Plot3DUniforms, key: TextureKey): (r: seq<SceneDraw>)
    ensures |r| == |KeptIndices(ls, LineDrawn)|
    ensures forall k :: 0 <= k < |r| ==> r[k] == LineDraw(ls[KeptIndices(ls, LineDrawn)[k]], base, key)
  {
    if ls == [] then []
    else LineDraws(ls[..|ls| - 1], base, key) + (if LineDrawn(ls[|ls| - 1]) then [LineDraw(ls[|ls| - 1], base, key)] else [])
  }

  /** The scatter draws, skipping entries without positions. */
  function ScatterDraws(ss: seq<Scatter3DData>, base: Plot3DUniforms, key: TextureKey): (r: seq<SceneDraw>)
    ensures |r| == |KeptIndices(ss, ScatterDrawn)|
    ensures forall k :: 0 <= k < |r| ==> r[k] == ScatterDraw(ss[KeptIndices(ss, ScatterDrawn)[k]], base, key)
  {
    if ss == [] then []
    else ScatterDraws(ss[..|ss| - 1], base, key) + (if ScatterDrawn(ss[|ss| - 1]) then [ScatterDraw(ss[|ss| - 1], base, key)] else [])
  }

  /** Lines are drawn before any scatter entry. */
  lemma LinesBeforeScatter(ls: seq<Line3DData>, ss: seq<Scatter3DData>, base: Plot3DUniforms, key: TextureKey)
    ensures var r := LineDraws(ls, base, key) + ScatterDraws(ss, base, key);
      forall i, j :: 0 <= i < j < |r| && r[j].pipeline == LinePipeline ==> r[i].pipeline == LinePipeline
  {
    var a, b := LineDraws(ls, base, key), ScatterDraws(ss, base, key);
    var r: seq<SceneDraw> := a + b;
    forall j | 0 <= j < |r| && r[j].pipeline == LinePipeline
      ensures j < |a|
    {
      if j >= |a| {
        assert false;
      }
    }
  }

  /** The line loop of the offscreen pass. */
  method DrawLines(ls: seq<Line3DData>, base: Plot3DUniforms, key: TextureKey) returns (draws: seq<SceneDraw>)
    ensures draws == LineDraws(ls, base, key)
  {
    draws := [];
    for i := 0 to |ls|
      invariant draws == LineDraws(ls[..i], base, key)
    {
      assert ls[..i + 1][..i] == ls[..i];
      var line := ls[i];
      if |line.segments| < 2 {
        continue;
      }
      var u := base.(color := line.color, lineWidth := line.lineWidth, resolution := GpuPlot.Pt2(key.width as real, key.height as real));
      draws := draws + [SceneDraw(LinePipeline, line.segments, u, 6, |line.segments| / 2)];
    }
    assert ls[..|ls|] == ls;
  }

  /** The scatter loop of the offscreen pass. */
  method DrawScatter(ss: seq<Scatter3DData>, base: Plot3DUniforms, key: TextureKey) returns (draws: seq<SceneDraw>)
    ensures draws == ScatterDraws(ss, base, key)
  {
    draws := [];
    for i := 0 to |ss|
      invariant draws == ScatterDraws(ss[..i], base, key)
    {
      assert ss[..i + 1][..i] == ss[..i];
      var scatter := ss[i];
      if |scatter.positions| == 0 {
        continue;
      }
      var u := base.(color := scatter.color, pointSize := scatter.pointSize, resolution := GpuPlot.Pt2(key.width as real, key.height as real));
      draws := draws + [SceneDraw(ScatterPipeline, scatter.positions, u, 6, |scatter.positions|)];
    }
    assert ss[..|ss|] == ss;
  }

  class Plot3DCallback {
    const scatterData: seq<Scatter3DData>
    const lineData: seq<Line3DData>
    const uniformsBase: Plot3DUniforms
    const bgColor: GpuPlot.Color
    const viewportSize: (nat, nat)
    var blitState: Option<BlitState>
    /** The draws of the last offscreen pass. */
    var sceneDraws: seq<SceneDraw>

    /** `create_3d_paint_callback`. */
    constructor (scatterData: seq<Scatter3DData>, lineData: seq<Line3DData>, uniformsBase: Plot3DUniforms,
                 bgColor: GpuPlot.Color, viewportSize: (nat, nat))
      ensures this.scatterData == scatterData && this.lineData == lineData && this.uniformsBase == uniformsBase
      ensures this.bgColor == bgColor && this.viewportSize == viewportSize
      ensures blitState.None? && sceneDraws == []
    {
      this.scatterData := scatterData;
      this.lineData := lineData;
      this.uniformsBase := uniformsBase;
      this.bgColor := bgColor;
      this.viewportSize := viewportSize;
      blitState := None;
      sceneDraws := [];
    }

    /** `prepare`. */
    method Prepare(res: CallbackResources)
      modifies res`cached, res`allocations, this`blitState, this`sceneDraws
      ensures res.targetFormat.None? ==>
        res.cached == old(res.cached) && res.allocations == old(res.allocations) &&
        blitState == old(blitState) && sceneDraws == old(sceneDraws)
      ensures res.targetFormat.Some? ==>
        var key := TextureSize(viewportSize, res.targetFormat.value);
        res.cached == Some(key) &&
        res.allocations == old(res.allocations) + (if NeedsRecreate(old(res.cached), key) then 1 else 0) &&
        sceneDraws == LineDraws(lineData, uniformsBase, key) + ScatterDraws(scatterData, uniformsBase, key) &&
        blitState == Some(BlitState(key))
    {
      if res.targetFormat.None? {
        return;
      }
      var format := res.targetFormat.value;
      var width := if viewportSize.0 < 1 then 1 else viewportSize.0;
      var height := if viewportSize.1 < 1 then 1 else viewportSize.1;
      var key := TextureKey(width, height, format);
      var needsRecreate := match res.cached
        case Some(c) => c.width != width || c.height != height || c.format != format
        case None => true;
      if needsRecreate {
        res.cached := Some(key);
        res.allocations := res.allocations + 1;
      }
      var lines := DrawLines(lineData, uniformsBase, key);
      var points := DrawScatter(scatterData, uniformsBase, key);
      sceneDraws := lines + points;
      blitState := Some(BlitState(key));
    }

    /** `paint`: one blit of the offscreen texture, unless the resources or
        the blit state are missing or the viewport is empty. */
    method Paint(hasResources: bool, viewportWidth: int, viewportHeight: int) returns (draws: seq<BlitDraw>)
      ensures !hasResources || blitState.None? || viewportWidth <= 0 || viewportHeight <= 0 ==> draws == []
      ensures hasResources && blitState.Some? && viewportWidth > 0 && viewportHeight > 0 ==>
        draws == [BlitDraw(blitState.value.source, 6, 1)]
    {
      draws := [];
      if !hasResources || blitState.None? || viewportWidth <= 0 || viewportHeight <= 0 {
        return;
      }
      draws := [BlitDraw(blitState.value.source, 6, 1)];
    }
  }

  /** Two frames at the same size allocate the offscreen textures at most
      once, and the second frame blits the same texture as the first. */
  method TwoFrames(cb: Plot3DCallback, res: CallbackResources)
    requires res.targetFormat.Some?
    modifies res`cached, res`allocations, cb`blitState, cb`sceneDraws
    ensures res.allocations <= old(res.allocations) + 1
    ensures old(res.cached) == Some(TextureSize(cb.viewportSize, res.targetFormat.value)) ==>
      res.allocations == old(res.allocations)
    ensures cb.blitState == Some(BlitState(TextureSize(cb.viewportSize, res.targetFormat.value)))
  {
    cb.Prepare(res);
    cb.Prepare(res);
  }
}
