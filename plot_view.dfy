/**
 * The 2D view of a plot: the visible data window, how it is fitted to the
 * data, how dragging and scrolling move it, the affine maps between screen
 * and data coordinates, and the axis grid generator.
 */
module PlotView {
  import opened Common
  import opened Spans
  import opened Series

  /** `1e-15`, the threshold below which a padding or a change counts as zero. */
  const Tiny: real := 0.000000000000001

  /** A screen rectangle given by its edges. */
  datatype Rect = Rect(left: real, top: real, right: real, bottom: real)
  {
    function Width(): real { right - left }
    function Height(): real { bottom - top }
  }

  datatype Pos = Pos(x: real, y: real)

  /** The visible data window. */
  datatype Window = Window(xMin: real, xMax: real, yMin: real, yMax: real)

  // ---------------------------------------------------------------------
  // Screen <-> data
  // ---------------------------------------------------------------------

  /** `screen_to_data`: screen y grows downwards, data y upwards. */
  function ScreenToData(w: Window, rect: Rect, p: Pos): (d: Pos)
    requires rect.Width() != 0.0 && rect.Height() != 0.0
    ensures p.x == rect.left ==> d.x == w.xMin
    ensures p.x == rect.right ==> d.x == w.xMax
    ensures p.y == rect.top ==> d.y == w.yMax
    ensures p.y == rect.bottom ==> d.y == w.yMin
  {
    var tx := (p.x - rect.left) / rect.Width();
    var ty := 1.0 - (p.y - rect.top) / rect.Height();
    Pos(w.xMin + tx * (w.xMax - w.xMin), w.yMin + ty * (w.yMax - w.yMin))
  }

  /** `data_to_screen`. */
  function DataToScreen(w: Window, rect: Rect, d: Pos): (p: Pos)
    requires w.xMax != w.xMin && w.yMax != w.yMin
    ensures d.x == w.xMin ==> p.x == rect.left
    ensures d.x == w.xMax ==> p.x == rect.right
    ensures d.y == w.yMax ==> p.y == rect.top
    ensures d.y == w.yMin ==> p.y == rect.bottom
  {
    var tx := (d.x - w.xMin) / (w.xMax - w.xMin);
    var ty := 1.0 - (d.y - w.yMin) / (w.yMax - w.yMin);
    Pos(rect.left + tx * rect.Width(), rect.top + ty * rect.Height())
  }

  lemma DivCancel(a: real, b: real)
    requires b != 0.0
    ensures (a * b) / b == a && (a / b) * b == a
  {
  }

  lemma MulLess(a: real, b: real, c: real)
    requires c > 0.0 && a < b
    ensures a * c < b * c
  {
  }

  lemma MulAtMost(a: real, b: real, c: real)
    requires c > 0.0 && a <= b
    ensures a * c <= b * c
  {
  }

  lemma DivAtMost(a: real, b: real, c: real)
    requires c > 0.0 && a <= b
    ensures a / c <= b / c
  {
    if a < b {
      DivLess(a, b, c);
    }
  }

  lemma DivLess(a: real, b: real, c: real)
    requires c > 0.0 && a < b
    ensures a / c < b / c
  {
    DivCancel(a, c);
    DivCancel(b, c);
    if a / c >= b / c {
      if a / c > b / c {
        MulLess(b / c, a / c, c);
      }
    }
  }

  /** Scaling a fraction onto an interval and measuring it back gives the
      fraction again. */
  lemma ScaleBack(origin: real, size: real, t: real)
    requires size != 0.0
    ensures ((origin + t * size) - origin) / size == t
  {
    DivCancel(t, size);
  }

  /** One axis, data to screen and back: the fraction of the data range
      is laid out on the screen interval (as `p`) and measured back. */
  lemma AxisRoundTrip(lo: real, span: real, origin: real, size: real, v: real, p: real)
    requires span != 0.0 && size != 0.0
    requires p == origin + ((v - lo) / span) * size
    ensures lo + ((p - origin) / size) * span == v
  {
    ScaleBack(origin, size, (v - lo) / span);
    DivCancel(v - lo, span);
  }

  /** The same with the axis flipped (screen y grows downwards). */
  lemma FlippedAxisRoundTrip(lo: real, span: real, origin: real, size: real, v: real, p: real)
    requires span != 0.0 && size != 0.0
    requires p == origin + (1.0 - (v - lo) / span) * size
    ensures lo + (1.0 - (p - origin) / size) * span == v
  {
    ScaleBack(origin, size, 1.0 - (v - lo) / span);
    DivCancel(v - lo, span);
  }

  lemma DataScreenDataX(w: Window, rect: Rect, d: Pos)
    requires rect.Width() != 0.0 && rect.Height() != 0.0
    requires w.xMax != w.xMin && w.yMax != w.yMin
    ensures ScreenToData(w, rect, DataToScreen(w, rect, d)).x == d.x
  {
    var p := DataToScreen(w, rect, d);
    AxisRoundTrip(w.xMin, w.xMax - w.xMin, rect.left, rect.Width(), d.x, p.x);
  }

  lemma DataScreenDataY(w: Window, rect: Rect, d: Pos)
    requires rect.Width() != 0.0 && rect.Height() != 0.0
    requires w.xMax != w.xMin && w.yMax != w.yMin
    ensures ScreenToData(w, rect, DataToScreen(w, rect, d)).y == d.y
  {
    var p := DataToScreen(w, rect, d);
    FlippedAxisRoundTrip(w.yMin, w.yMax - w.yMin, rect.top, rect.Height(), d.y, p.y);
  }

  /** Data to screen and back. */
  lemma DataScreenData(w: Window, rect: Rect, d: Pos)
    requires rect.Width() != 0.0 && rect.Height() != 0.0
    requires w.xMax != w.xMin && w.yMax != w.yMin
    ensures ScreenToData(w, rect, DataToScreen(w, rect, d)) == d
  {
    DataScreenDataX(w, rect, d);
    DataScreenDataY(w, rect, d);
  }

  lemma ScreenDataScreenX(w: Window, rect: Rect, p: Pos)
    requires rect.Width() != 0.0 && rect.Height() != 0.0
    requires w.xMax != w.xMin && w.yMax != w.yMin
    ensures DataToScreen(w, rect, ScreenToData(w, rect, p)).x == p.x
  {
    var d := ScreenToData(w, rect, p);
    AxisRoundTrip(rect.left, rect.Width(), w.xMin, w.xMax - w.xMin, p.x, d.x);
  }

  lemma ScreenDataScreenY(w: Window, rect: Rect, p: Pos)
    requires rect.Width() != 0.0 && rect.Height() != 0.0
    requires w.xMax != w.xMin && w.yMax != w.yMin
    ensures DataToScreen(w, rect, ScreenToData(w, rect, p)).y == p.y
  {
    var d := ScreenToData(w, rect, p);
    FlippedAxisRoundTrip(rect.top, rect.Height(), w.yMin, w.yMax - w.yMin, p.y, d.y);
  }

  /** Screen to data and back. */
  lemma ScreenDataScreen(w: Window, rect: Rect, p: Pos)
    requires rect.Width() != 0.0 && rect.Height() != 0.0
    requires w.xMax != w.xMin && w.yMax != w.yMin
    ensures DataToScreen(w, rect, ScreenToData(w, rect, p)) == p
  {
    ScreenDataScreenX(w, rect, p);
    ScreenDataScreenY(w, rect, p);
  }

  /** For a non-degenerate rectangle and window the two maps are mutual
      inverses. */
  lemma ScreenDataInverse(w: Window, rect: Rect, p: Pos, d: Pos)
    requires rect.Width() != 0.0 && rect.Height() != 0.0
    requires w.xMax != w.xMin && w.yMax != w.yMin
    ensures ScreenToData(w, rect, DataToScreen(w, rect, d)) == d
    ensures DataToScreen(w, rect, ScreenToData(w, rect, p)) == p
  {
    DataScreenData(w, rect, d);
    ScreenDataScreen(w, rect, p);
  }

  // ---------------------------------------------------------------------
  // Fitting the window to the data
  // ---------------------------------------------------------------------

  /** Padding added on each side of a fitted range: 5% of its span, or 0.5
      when that is below `1e-15` in magnitude. */
  function Pad(lo: real, hi: real): (p: real)
    ensures lo <= hi ==> p > 0.0
    ensures hi - lo >= 20.0 * Tiny ==> p == (hi - lo) * 0.05
    ensures -20.0 * Tiny < hi - lo < 20.0 * Tiny ==> p == 0.5
  {
    var p := (hi - lo) * 0.05;
    if Abs(p) < Tiny then 0.5 else p
  }

  /** A series contributes to fitting when it is visible and has samples. */
  predicate Shown(s: DataSeries)
  {
    s.visible && s.x != []
  }

  /** The x samples of the shown series, in order. */
  function VisibleX(series: seq<DataSeries>): seq<real>
  {
    if series == [] then []
    else
      var s := series[|series| - 1];
      VisibleX(series[..|series| - 1]) + (if Shown(s) then s.x else [])
  }

  /** The finite y samples of the shown series, in order. */
  function VisibleY(series: seq<DataSeries>): seq<real>
  {
    if series == [] then []
    else
      var s := series[|series| - 1];
      VisibleY(series[..|series| - 1]) + (if Shown(s) then Finite(s.y) else [])
  }

  /** The finite y values among the first `n` zipped samples whose x lies in
      `[lo, hi]`. */
  function YsInWindow(x: seq<real>, y: seq<F64>, lo: real, hi: real, n: nat): seq<real>
    requires n <= |x| && n <= |y|
  {
    if n == 0 then []
    else YsInWindow(x, y, lo, hi, n - 1) + (if y[n - 1].Fin? && lo <= x[n - 1] <= hi then [y[n - 1].v] else [])
  }

  function ZipLen(x: seq<real>, y: seq<F64>): nat
  {
    if |x| < |y| then |x| else |y|
  }

  /** The y values `auto_scale_y_to_visible` looks at. */
  function VisibleYInWindow(series: seq<DataSeries>, lo: real, hi: real): seq<real>
  {
    if series == [] then []
    else
      var s := series[|series| - 1];
      VisibleYInWindow(series[..|series| - 1], lo, hi) +
        (if Shown(s) then YsInWindow(s.x, s.y, lo, hi, ZipLen(s.x, s.y)) else [])
  }

  /** The padded range of a non-empty span; it strictly contains the span. */
  function Padded(a: Span): (r: (real, real))
    requires a.Span? && a.lo <= a.hi
    ensures r.0 < a.lo && a.hi < r.1
  {
    (a.lo - Pad(a.lo, a.hi), a.hi + Pad(a.lo, a.hi))
  }

  /** The window `fit_to_data` sets, or `None` when x or y has no data. */
  function FitWindow(series: seq<DataSeries>): (r: Option<Window>)
    ensures r.None? <==> VisibleX(series) == [] || VisibleY(series) == []
    ensures r.Some? ==> r.value.xMin < r.value.xMax && r.value.yMin < r.value.yMax
    ensures r.Some? ==> forall v :: v in VisibleX(series) ==> r.value.xMin < v < r.value.xMax
    ensures r.Some? ==> forall v :: v in VisibleY(series) ==> r.value.yMin < v < r.value.yMax
  {
    var xs, ys := SpanOf(VisibleX(series)), SpanOf(VisibleY(series));
    SpanOfIsMinMax(VisibleX(series));
    SpanOfIsMinMax(VisibleY(series));
    if xs.Empty? || ys.Empty? then None
    else
      var px, py := Padded(xs), Padded(ys);
      Some(Window(px.0, px.1, py.0, py.1))
  }

  /** The x range `fit_to_data_normalized` sets, or `None` without x data. */
  function FitXNormalized(series: seq<DataSeries>): (r: Option<(real, real)>)
    ensures r.None? <==> VisibleX(series) == []
    ensures r.Some? ==> forall v :: v in VisibleX(series) ==> r.value.0 < v < r.value.1
    ensures r.Some? && FitWindow(series).Some? ==>
      r.value == (FitWindow(series).value.xMin, FitWindow(series).value.xMax)
  {
    var xs := SpanOf(VisibleX(series));
    SpanOfIsMinMax(VisibleX(series));
    if xs.Empty? then None else Some(Padded(xs))
  }

  /** The y range `auto_scale_y_to_visible` sets, or `None` when no point is
      visible in `[lo, hi]`. */
  function AutoScaleY(series: seq<DataSeries>, lo: real, hi: real): (r: Option<(real, real)>)
    ensures r.None? <==> VisibleYInWindow(series, lo, hi) == []
    ensures r.Some? ==> forall v :: v in VisibleYInWindow(series, lo, hi) ==> r.value.0 < v < r.value.1
  {
    var ys := SpanOf(VisibleYInWindow(series, lo, hi));
    SpanOfIsMinMax(VisibleYInWindow(series, lo, hi));
    if ys.Empty? then None else Some(Padded(ys))
  }

  /** Fitting one series with x in [0, 10] and y in [-5, 5] gives the window
      [-0.5, 10.5] x [-5.5, 5.5]. */
  lemma FitExample(s: DataSeries)
    requires s.visible && s.x == [0.0, 10.0] && s.y == [Fin(-5.0), Fin(5.0)]
    ensures FitWindow([s]) == Some(Window(-0.5, 10.5, -5.5, 5.5))
  {
    assert [s][..0] == [];
    assert VisibleX([s]) == [0.0, 10.0];
    assert Finite(s.y) == [-5.0, 5.0] by {
      assert s.y[..1][..0] == [];
      assert Finite(s.y[..1]) == [-5.0];
    }
    assert VisibleY([s]) == [-5.0, 5.0];
    assert [0.0, 10.0][..1] == [0.0];
    assert [0.0, 10.0][..1][..0] == [];
    assert SpanOf([0.0, 10.0]) == Span(0.0, 10.0);
    assert [-5.0, 5.0][..1] == [-5.0];
    assert [-5.0, 5.0][..1][..0] == [];
    assert SpanOf([-5.0, 5.0]) == Span(-5.0, 5.0);
  }

  // ---------------------------------------------------------------------
  // Pan and zoom
  // ---------------------------------------------------------------------

  /** Dragging by `drag` pixels moves the window against the drag, by the
      same amount on both bounds of an axis. */
  function PanWindow(w: Window, drag: Pos, rect: Rect): (r: Window)
    requires rect.Width() != 0.0 && rect.Height() != 0.0
    ensures r.xMax - r.xMin == w.xMax - w.xMin && r.yMax - r.yMin == w.yMax - w.yMin
    ensures r.xMin - w.xMin == -drag.x * (w.xMax - w.xMin) / rect.Width()
    ensures r.yMin - w.yMin == drag.y * (w.yMax - w.yMin) / rect.Height()
  {
    var dx := -drag.x * (w.xMax - w.xMin) / rect.Width();
    var dy := drag.y * (w.yMax - w.yMin) / rect.Height();
    Window(w.xMin + dx, w.xMax + dx, w.yMin + dy, w.yMax + dy)
  }

  /** `(1 - 0.001 * scroll).clamp(0.5, 2.0)`: scrolling up zooms in. */
  function ZoomFactor(scroll: real): (f: real)
    ensures 0.5 <= f <= 2.0
    ensures scroll > 0.0 ==> f < 1.0
    ensures scroll < 0.0 ==> f > 1.0
  {
    Clamp(1.0 - scroll * 0.001, 0.5, 2.0)
  }

  /** One bound scaled about the anchor `c`. */
  function ZoomBound(c: real, b: real, f: real): real
  {
    c + (b - c) * f
  }

  /** Zooming about an anchor scales the span by the factor and keeps the
      anchor at the same relative position inside the range. */
  lemma ZoomAboutAnchor(c: real, lo: real, hi: real, f: real)
    requires f > 0.0
    ensures ZoomBound(c, hi, f) - ZoomBound(c, lo, f) == (hi - lo) * f
    ensures lo != hi ==>
      (c - ZoomBound(c, lo, f)) / (ZoomBound(c, hi, f) - ZoomBound(c, lo, f)) == (c - lo) / (hi - lo)
  {
    if lo != hi {
      var t := (c - lo) / (hi - lo);
      assert c - ZoomBound(c, lo, f) == (c - lo) * f;
      assert (c - lo) * f == t * ((hi - lo) * f);
    }
  }

  /** The window after a scroll of `scroll` with the mouse at `hover`
      (or nowhere). */
  function ZoomWindow(w: Window, scroll: real, hover: Option<Pos>, rect: Rect): (r: Window)
    requires rect.Width() != 0.0 && rect.Height() != 0.0
    ensures scroll == 0.0 || hover.None? ==> r == w
    ensures r.xMax - r.xMin == (if scroll != 0.0 && hover.Some? then ZoomFactor(scroll) else 1.0) * (w.xMax - w.xMin)
    ensures r.yMax - r.yMin == (if scroll != 0.0 && hover.Some? then ZoomFactor(scroll) else 1.0) * (w.yMax - w.yMin)
  {
    if Abs(scroll) > 0.0 && hover.Some? then
      var c := ScreenToData(w, rect, hover.value);
      var f := ZoomFactor(scroll);
      ZoomAboutAnchor(c.x, w.xMin, w.xMax, f);
      ZoomAboutAnchor(c.y, w.yMin, w.yMax, f);
      Window(ZoomBound(c.x, w.xMin, f), ZoomBound(c.x, w.xMax, f), ZoomBound(c.y, w.yMin, f), ZoomBound(c.y, w.yMax, f))
    else w
  }

  /** On one axis: the value at fraction `t` of a range stays at fraction
      `t` after scaling the range about that value. */
  lemma ZoomAxisFixed(lo: real, hi: real, t: real, f: real)
    ensures ZoomBound(lo + t * (hi - lo), lo, f)
      + t * (ZoomBound(lo + t * (hi - lo), hi, f) - ZoomBound(lo + t * (hi - lo), lo, f)) == lo + t * (hi - lo)
  {
    var c := lo + t * (hi - lo);
    assert ZoomBound(c, hi, f) - ZoomBound(c, lo, f) == (hi - lo) * f;
    assert t * ((hi - lo) * f) == (t * (hi - lo)) * f;
    assert ZoomBound(c, lo, f) == c - (t * (hi - lo)) * f;
  }

  lemma ZoomKeepsMouseFixedX(w: Window, scroll: real, p: Pos, rect: Rect)
    requires rect.Width() != 0.0 && rect.Height() != 0.0
    ensures ScreenToData(ZoomWindow(w, scroll, Some(p), rect), rect, p).x == ScreenToData(w, rect, p).x
  {
    if scroll != 0.0 {
      var tx := (p.x - rect.left) / rect.Width();
      ZoomAxisFixed(w.xMin, w.xMax, tx, ZoomFactor(scroll));
    }
  }

  lemma ZoomKeepsMouseFixedY(w: Window, scroll: real, p: Pos, rect: Rect)
    requires rect.Width() != 0.0 && rect.Height() != 0.0
    ensures ScreenToData(ZoomWindow(w, scroll, Some(p), rect), rect, p).y == ScreenToData(w, rect, p).y
  {
    if scroll != 0.0 {
      var ty := 1.0 - (p.y - rect.top) / rect.Height();
      ZoomAxisFixed(w.yMin, w.yMax, ty, ZoomFactor(scroll));
    }
  }

  /** The data point under the mouse stays under the mouse. */
  lemma ZoomKeepsMouseFixed(w: Window, scroll: real, p: Pos, rect: Rect)
    requires rect.Width() != 0.0 && rect.Height() != 0.0
    ensures ScreenToData(ZoomWindow(w, scroll, Some(p), rect), rect, p) == ScreenToData(w, rect, p)
  {
    ZoomKeepsMouseFixedX(w, scroll, p, rect);
    ZoomKeepsMouseFixedY(w, scroll, p, rect);
  }

  // ---------------------------------------------------------------------
  // The view state
  // ---------------------------------------------------------------------

  class PlotViewState {
    var xMin: real
    var xMax: real
    var yMin: real
    var yMax: real
    /** Re-fit to the data on the next frame. */
    var autoFit: bool
    var initialized: bool
    /** The x range at the last snapshot, for change detection. */
    var prevXMin: real
    var prevXMax: real

    /** `PlotViewState::default()`: unit window, fit pending. */
    constructor ()
      ensures Bounds() == Window(0.0, 1.0, 0.0, 1.0)
      ensures autoFit && !initialized
      ensures prevXMin == 0.0 && prevXMax == 1.0
      ensures !XRangeChanged()
    {
      xMin, xMax, yMin, yMax := 0.0, 1.0, 0.0, 1.0;
      autoFit, initialized := true, false;
      prevXMin, prevXMax := 0.0, 1.0;
    }

    function Bounds(): Window
      reads this
    {
      Window(xMin, xMax, yMin, yMax)
    }

    /** An x bound moved by more than `1e-15` since the last snapshot. */
    predicate XRangeChanged()
      reads this
    {
      Abs(xMin - prevXMin) > Tiny || Abs(xMax - prevXMax) > Tiny
    }

    method SnapshotXRange()
      modifies this`prevXMin, this`prevXMax
      ensures prevXMin == xMin && prevXMax == xMax
      ensures Bounds() == old(Bounds()) && autoFit == old(autoFit) && initialized == old(initialized)
      ensures !XRangeChanged()
    {
      prevXMin, prevXMax := xMin, xMax;
    }

    method SetXRange(lo: real, hi: real)
      modifies this
      ensures Bounds() == old(Bounds()).(xMin := lo, xMax := hi)
      ensures autoFit == old(autoFit) && initialized == old(initialized)
      ensures prevXMin == old(prevXMin) && prevXMax == old(prevXMax)
    {
      xMin, xMax := lo, hi;
    }

    /** `auto_scale_y_to_visible`: fit y to the points visible in the
        current x range; nothing changes when there are none. */
    method AutoScaleYToVisible(series: seq<DataSeries>)
      modifies this
      ensures var r := AutoScaleY(series, old(xMin), old(xMax));
        Bounds() == (if r.None? then old(Bounds()) else old(Bounds()).(yMin := r.value.0, yMax := r.value.1))
      ensures autoFit == old(autoFit) && initialized == old(initialized)
      ensures prevXMin == old(prevXMin) && prevXMax == old(prevXMax)
    {
      var ys := WindowYSpan(series, xMin, xMax);
      SpanOfIsMinMax(VisibleYInWindow(series, xMin, xMax));
      if ys.Empty? {
        return;
      }
      var p := Padded(ys);
      yMin, yMax := p.0, p.1;
    }

    /** `auto_scale_y_normalized`. */
    method AutoScaleYNormalized()
      modifies this
      ensures Bounds() == old(Bounds()).(yMin := -0.05, yMax := 1.05)
      ensures autoFit == old(autoFit) && initialized == old(initialized)
      ensures prevXMin == old(prevXMin) && prevXMax == old(prevXMax)
    {
      yMin, yMax := -0.05, 1.05;
    }

    /** `fit_to_data`: nothing changes unless both axes have data. */
    method FitToData(series: seq<DataSeries>)
      modifies this
      ensures FitWindow(series).None? ==>
        Bounds() == old(Bounds()) && initialized == old(initialized)
      ensures FitWindow(series).Some? ==> Bounds() == FitWindow(series).value && initialized
      ensures autoFit == old(autoFit)
      ensures prevXMin == old(prevXMin) && prevXMax == old(prevXMax)
    {
      var xs, ys := VisibleSpans(series);
      SpanOfIsMinMax(VisibleX(series));
      SpanOfIsMinMax(VisibleY(series));
      if xs.Empty? || ys.Empty? {
        return;
      }
      var px, py := Padded(xs), Padded(ys);
      xMin, xMax, yMin, yMax := px.0, px.1, py.0, py.1;
      initialized := true;
    }

    /** `fit_to_data_normalized`: x as in `fit_to_data`, y to [-0.05, 1.05]. */
    method FitToDataNormalized(series: seq<DataSeries>)
      modifies this
      ensures FitXNormalized(series).None? ==>
        Bounds() == old(Bounds()) && initialized == old(initialized)
      ensures FitXNormalized(series).Some? ==>
        Bounds() == Window(FitXNormalized(series).value.0, FitXNormalized(series).value.1, -0.05, 1.05) &&
        initialized
      ensures autoFit == old(autoFit)
      ensures prevXMin == old(prevXMin) && prevXMax == old(prevXMax)
    {
      var xs := VisibleXSpan(series);
      SpanOfIsMinMax(VisibleX(series));
      if xs.Empty? {
        return;
      }
      var px := Padded(xs);
      xMin, xMax, yMin, yMax := px.0, px.1, -0.05, 1.05;
      initialized := true;
    }

    /** The pan and zoom part of `handle_input`, with the mouse events as
        parameters: a primary-button drag by `drag` (when `dragged`), a
        scroll of `scroll` while hovered, the mouse position `hover`, and
        a double click. */
    method HandleInput(dragged: bool, drag: Pos, scroll: real, hover: Option<Pos>, doubleClicked: bool, rect: Rect)
      requires rect.Width() != 0.0 && rect.Height() != 0.0
      modifies this
      ensures var panned := if dragged then PanWindow(old(Bounds()), drag, rect) else old(Bounds());
        Bounds() == ZoomWindow(panned, scroll, hover, rect)
      ensures autoFit == (doubleClicked || (old(autoFit) && !dragged && scroll == 0.0))
      ensures initialized == old(initialized)
      ensures prevXMin == old(prevXMin) && prevXMax == old(prevXMax)
    {
      if dragged {
        var w := PanWindow(Bounds(), drag, rect);
        xMin, xMax, yMin, yMax := w.xMin, w.xMax, w.yMin, w.yMax;
        autoFit := false;
      }
      if Abs(scroll) > 0.0 {
        var w := ZoomWindow(Bounds(), scroll, hover, rect);
        xMin, xMax, yMin, yMax := w.xMin, w.xMax, w.yMin, w.yMax;
        autoFit := false;
      }
      if doubleClicked {
        autoFit := true;
      }
    }
  }

  /** Unfolding the collections of visible samples by one series. */
  lemma VisibleSnoc(series: seq<DataSeries>, i: nat, lo: real, hi: real)
    requires i < |series|
    ensures var s := series[i];
      Shown(s) ==>
        VisibleX(series[..i + 1]) == VisibleX(series[..i]) + s.x &&
        VisibleY(series[..i + 1]) == VisibleY(series[..i]) + Finite(s.y) &&
        VisibleYInWindow(series[..i + 1], lo, hi) ==
          VisibleYInWindow(series[..i], lo, hi) + YsInWindow(s.x, s.y, lo, hi, ZipLen(s.x, s.y))
    ensures var s := series[i];
      !Shown(s) ==>
        VisibleX(series[..i + 1]) == VisibleX(series[..i]) &&
        VisibleY(series[..i + 1]) == VisibleY(series[..i]) &&
        VisibleYInWindow(series[..i + 1], lo, hi) == VisibleYInWindow(series[..i], lo, hi)
  {
    assert series[..i + 1][..i] == series[..i];
    var s := series[i];
    if !Shown(s) {
      assert VisibleX(series[..i + 1]) == VisibleX(series[..i]) + [];
      assert VisibleY(series[..i + 1]) == VisibleY(series[..i]) + [];
      assert VisibleYInWindow(series[..i + 1], lo, hi) == VisibleYInWindow(series[..i], lo, hi) + [];
    }
  }

  /** The x and y folds of `fit_to_data`, over the shown series. */
  method VisibleSpans(series: seq<DataSeries>) returns (xs: Span, ys: Span)
    ensures xs == SpanOf(VisibleX(series)) && ys == SpanOf(VisibleY(series))
  {
    xs, ys := Empty, Empty;
    for i := 0 to |series|
      invariant xs == SpanOf(VisibleX(series[..i]))
      invariant ys == SpanOf(VisibleY(series[..i]))
    {
      var s := series[i];
      VisibleSnoc(series, i, 0.0, 0.0);
      if s.visible && |s.x| != 0 {
        ExtendAppend(Empty, VisibleX(series[..i]), s.x);
        ExtendAppend(Empty, VisibleY(series[..i]), Finite(s.y));
        xs := AccumulateSpan(xs, s.x);
        ys := AccumulateFinite(ys, s.y);
      }
    }
    assert series[..|series|] == series;
  }

  /** The x fold of `fit_to_data_normalized`. */
  method VisibleXSpan(series: seq<DataSeries>) returns (xs: Span)
    ensures xs == SpanOf(VisibleX(series))
  {
    xs := Empty;
    for i := 0 to |series|
      invariant xs == SpanOf(VisibleX(series[..i]))
    {
      var s := series[i];
      VisibleSnoc(series, i, 0.0, 0.0);
      if s.visible && |s.x| != 0 {
        ExtendAppend(Empty, VisibleX(series[..i]), s.x);
        xs := AccumulateSpan(xs, s.x);
      }
    }
    assert series[..|series|] == series;
  }

  /** The y fold of `auto_scale_y_to_visible` over points with x in `[lo, hi]`. */
  method WindowYSpan(series: seq<DataSeries>, lo: real, hi: real) returns (ys: Span)
    ensures ys == SpanOf(VisibleYInWindow(series, lo, hi))
  {
    ys := Empty;
    for i := 0 to |series|
      invariant ys == SpanOf(VisibleYInWindow(series[..i], lo, hi))
    {
      var s := series[i];
      VisibleSnoc(series, i, lo, hi);
      if s.visible && |s.x| != 0 {
        var t := YsInWindow(s.x, s.y, lo, hi, ZipLen(s.x, s.y));
        ExtendAppend(Empty, VisibleYInWindow(series[..i], lo, hi), t);
        ys := AccumulateInWindow(ys, s.x, s.y, lo, hi);
      }
    }
    assert series[..|series|] == series;
  }

  /** Folding one more value. */
  lemma ExtendSnoc(a: Span, t: seq<real>, v: real)
    ensures Extend(a, t + [v]) == Include(Extend(a, t), v)
  {
    assert (t + [v])[..|t|] == t;
  }

  /** The finite-y fold of one series. */
  method AccumulateFinite(a: Span, vals: seq<F64>) returns (r: Span)
    ensures r == Extend(a, Finite(vals))
  {
    r := a;
    for i := 0 to |vals|
      invariant r == Extend(a, Finite(vals[..i]))
    {
      assert vals[..i + 1][..i] == vals[..i];
      if vals[i].Fin? {
        assert Finite(vals[..i + 1]) == Finite(vals[..i]) + [vals[i].v];
        ExtendSnoc(a, Finite(vals[..i]), vals[i].v);
        assert Extend(a, Finite(vals[..i + 1])) == Include(r, vals[i].v);
        r := Include(r, vals[i].v);
      } else {
        assert Finite(vals[..i + 1]) == Finite(vals[..i]) + [];
        assert Finite(vals[..i + 1]) == Finite(vals[..i]);
      }
    }
    assert vals[..|vals|] == vals;
  }

  /** The windowed y fold of one series over its zipped samples. */
  method AccumulateInWindow(a: Span, x: seq<real>, y: seq<F64>, lo: real, hi: real) returns (r: Span)
    ensures r == Extend(a, YsInWindow(x, y, lo, hi, ZipLen(x, y)))
  {
    r := a;
    for i := 0 to ZipLen(x, y)
      invariant r == Extend(a, YsInWindow(x, y, lo, hi, i))
    {
      if y[i].Fin? && lo <= x[i] <= hi {
        ExtendSnoc(a, YsInWindow(x, y, lo, hi, i), y[i].v);
        r := Include(r, y[i].v);
      } else {
        assert YsInWindow(x, y, lo, hi, i + 1) == YsInWindow(x, y, lo, hi, i) + [];
        assert YsInWindow(x, y, lo, hi, i + 1) == YsInWindow(x, y, lo, hi, i);
      }
    }
  }

  // ---------------------------------------------------------------------
  // Grid lines
  // ---------------------------------------------------------------------

  /** Comparing the normalized step with a threshold compares the raw step
      with that multiple of the order. */
  lemma NormalizedThreshold(raw: real, order: real, c: real)
    requires order > 0.0
    ensures raw / order <= c <==> raw <= c * order
  {
    DivCancel(raw, order);
    if raw / order > c {
      MulLess(c, raw / order, order);
    } else {
      MulAtMost(raw / order, c, order);
    }
  }

  /** The step chosen for a raw step `raw` whose power of ten is `order`
      (`order <= raw < 10 * order`, the floor of `log10` taken as given):
      the smallest of 1, 2, 5, 10 times `order` not below `raw`. */
  function NiceStep(raw: real, order: real): (nice: real)
    requires 0.0 < order <= raw < 10.0 * order
    ensures nice == order || nice == 2.0 * order || nice == 5.0 * order || nice == 10.0 * order
    ensures raw <= nice < 2.5 * raw
  {
    var normalized := raw / order;
    NormalizedThreshold(raw, order, 1.0);
    NormalizedThreshold(raw, order, 2.0);
    NormalizedThreshold(raw, order, 5.0);
    if normalized <= 1.0 then order
    else if normalized <= 2.0 then 2.0 * order
    else if normalized <= 5.0 then 5.0 * order
    else 10.0 * order
  }

  /** Rust's `f64::round`: half-way cases round away from zero. */
  function Round(r: real): int
  {
    if r >= 0.0 then (r + 0.5).Floor else -((-r + 0.5).Floor)
  }

  function Ceil(r: real): int
  {
    -((-r).Floor)
  }

  /** A grid value is major when it is within 1% of a multiple of the step. */
  predicate IsMajor(val: real, nice: real)
    requires nice > 0.0
  {
    Abs((Round(val / nice) as real) * nice - val) < nice * 0.01
  }

  /** Rounding `q + m/5`: down for m <= 2, up otherwise, on either side of
      zero. */
  lemma RoundFifth(q: int, m: int)
    requires 0 <= m < 5
    ensures Round((q as real) + (m as real) / 5.0) == if m <= 2 then q else q + 1
  {
    var r := (q as real) + (m as real) / 5.0;
    if m == 0 {
      assert r == q as real;
    } else if m == 1 {
      assert r == (q as real) + 0.2;
    } else if m == 2 {
      assert r == (q as real) + 0.4;
    } else if m == 3 {
      assert r == (q as real) + 0.6;
    } else {
      assert r == (q as real) + 0.8;
    }
  }

  /** The distance from `(q + f)·nice` to a multiple `(q + k)·nice`. */
  lemma OffsetFromMultiple(q: real, f: real, k: real, nice: real)
    ensures (q + k) * nice - (q + f) * nice == (k - f) * nice
  {
  }

  /** A fifth of the step, `i` times. */
  lemma FifthScale(i: int, t: real, nice: real)
    requires (i as real) == 5.0 * t
    ensures (i as real) * (nice / 5.0) == t * nice
  {
  }

  /** `x`, at `q + m/5` steps, is a major line exactly when `m` is zero. */
  lemma MajorAtFifth(q: int, m: int, t: real, nice: real, x: real)
    requires 0 <= m < 5 && nice > 0.0
    requires t == (q as real) + (m as real) / 5.0 && x == t * nice
    ensures IsMajor(x, nice) <==> m == 0
  {
    var f := (m as real) / 5.0;
    var k := if m <= 2 then 0.0 else 1.0;
    var e := (k - f) * nice;
    DivCancel(t, nice);
    RoundFifth(q, m);
    assert Round(x / nice) as real == (q as real) + k;
    OffsetFromMultiple(q as real, f, k, nice);
    assert (Round(x / nice) as real) * nice - x == e;
    if m == 0 {
      assert e == 0.0;
    } else if m == 1 {
      assert e == -0.2 * nice;
    } else if m == 2 {
      assert e == -0.4 * nice;
    } else if m == 3 {
      assert e == 0.4 * nice;
    } else {
      assert e == 0.2 * nice;
    }
  }

  /** On the minor grid (a fifth of the step) exactly every fifth line is
      major. */
  lemma MajorEveryFifth(i: int, nice: real)
    requires nice > 0.0
    ensures IsMajor((i as real) * (nice / 5.0), nice) <==> i % 5 == 0
  {
    var q, m := i / 5, i % 5;
    var t := (q as real) + (m as real) / 5.0;
    FifthScale(i, t, nice);
    MajorAtFifth(q, m, t, nice, (i as real) * (nice / 5.0));
  }

  /** The axis range the grid is computed for is usable. */
  predicate GridRange(lo: real, hi: real, order: real)
  {
    hi - lo > 0.0 && 0.0 < order <= (hi - lo) / 8.0 < 10.0 * order
  }

  /** The minor step: a fifth of the nice step for an eighth of the range. */
  function MinorStep(lo: real, hi: real, order: real): (m: real)
    requires GridRange(lo, hi, order)
    ensures m > 0.0
  {
    NiceStep((hi - lo) / 8.0, order) / 5.0
  }

  /** `j` times the minor step lies inside `[lo, hi]`. */
  predicate OnGrid(j: int, lo: real, hi: real, minor: real)
  {
    lo <= (j as real) * minor <= hi
  }

  /** Every multiplier on the grid lies between the floor of `lo / minor`
      and the ceiling of `hi / minor`, the loop bounds of the program. */
  lemma GridIndexBounds(j: int, lo: real, hi: real, minor: real)
    requires minor > 0.0 && OnGrid(j, lo, hi, minor)
    ensures (lo / minor).Floor <= j <= Ceil(hi / minor)
  {
    DivCancel(j as real, minor);
    DivAtMost(lo, (j as real) * minor, minor);
    DivAtMost((j as real) * minor, hi, minor);
  }

  /** The grid line for multiplier `j`: its value and whether it is major. */
  function GridLine(j: int, nice: real): (real, bool)
  {
    ((j as real) * (nice / 5.0), j % 5 == 0)
  }

  /** The line the loop emits for `val`, the `i`-th minor step, is
      `GridLine(i, nice)`. */
  lemma GridLineAt(i: int, nice: real, val: real)
    requires nice > 0.0 && val == (i as real) * (nice / 5.0)
    ensures (val, IsMajor(val, nice)) == GridLine(i, nice)
  {
    MajorEveryFifth(i, nice);
  }

  /** The loop of `compute_grid_lines` over the multipliers `start..=end`. */
  method GridLoop(lo: real, hi: real, nice: real, start: int, end: int) returns (lines: seq<(real, bool)>, ghost ks: seq<int>)
    requires nice > 0.0 && start <= end + 1
    ensures |lines| <= end + 1 - start
    ensures forall k :: 0 <= k < |lines| ==> lo <= lines[k].0 <= hi && lines[k].1 == IsMajor(lines[k].0, nice)
    ensures forall a, b :: 0 <= a < b < |lines| ==> lines[a].0 < lines[b].0
    ensures |ks| == |lines|
    ensures forall k :: 0 <= k < |lines| ==> lines[k] == GridLine(ks[k], nice) && OnGrid(ks[k], lo, hi, nice / 5.0)
    ensures forall a, b :: 0 <= a < b < |lines| ==> ks[a] < ks[b]
    ensures forall j: int :: start <= j <= end && OnGrid(j, lo, hi, nice / 5.0) ==> j in ks
  {
    var minor := nice / 5.0;
    lines, ks := [], [];
    for i := start to end + 1
      invariant |ks| == |lines| <= i - start
      invariant forall k :: 0 <= k < |lines| ==> lines[k] == GridLine(ks[k], nice)
      invariant forall k :: 0 <= k < |ks| ==> OnGrid(ks[k], lo, hi, minor) && ks[k] < i
      invariant forall a, b :: 0 <= a < b < |lines| ==> ks[a] < ks[b]
      invariant forall j: int :: start <= j < i && OnGrid(j, lo, hi, minor) ==> j in ks
    {
      var val := (i as real) * minor;
      if val >= lo && val <= hi {
        GridLineAt(i, nice, val);
        assert OnGrid(i, lo, hi, minor);
        var line := (val, IsMajor(val, nice));
        lines, ks := lines + [line], ks + [i];
      } else {
        assert !OnGrid(i, lo, hi, minor);
      }
    }
    GridValuesIncrease(lines, ks, nice);
    GridLinesInRange(lines, ks, lo, hi, nice);
  }

  /** Lines on in-range multipliers lie in `[lo, hi]` and carry the major
      flag of their value. */
  lemma GridLinesInRange(lines: seq<(real, bool)>, ks: seq<int>, lo: real, hi: real, nice: real)
    requires nice > 0.0 && |ks| == |lines|
    requires forall k :: 0 <= k < |lines| ==> lines[k] == GridLine(ks[k], nice) && OnGrid(ks[k], lo, hi, nice / 5.0)
    ensures forall k :: 0 <= k < |lines| ==> lo <= lines[k].0 <= hi && lines[k].1 == IsMajor(lines[k].0, nice)
  {
    forall k | 0 <= k < |lines|
      ensures lo <= lines[k].0 <= hi && lines[k].1 == IsMajor(lines[k].0, nice)
    {
      GridLineAt(ks[k], nice, lines[k].0);
    }
  }

  /** Lines on increasing multipliers have increasing values. */
  lemma GridValuesIncrease(lines: seq<(real, bool)>, ks: seq<int>, nice: real)
    requires nice > 0.0 && |ks| == |lines|
    requires forall k :: 0 <= k < |lines| ==> lines[k] == GridLine(ks[k], nice)
    requires forall a, b :: 0 <= a < b < |lines| ==> ks[a] < ks[b]
    ensures forall a, b :: 0 <= a < b < |lines| ==> lines[a].0 < lines[b].0
  {
    forall a, b | 0 <= a < b < |lines|
      ensures lines[a].0 < lines[b].0
    {
      MulLess(ks[a] as real, ks[b] as real, nice / 5.0);
    }
  }

  /** `compute_grid_lines`, with the power of ten `order` of the raw step
      given: the lines are the multiples of the minor step that lie in
      `[lo, hi]`, each once and in increasing order, every fifth one major;
      `ks` are their multipliers. */
  method ComputeGridLines(lo: real, hi: real, order: real) returns (lines: seq<(real, bool)>, ghost ks: seq<int>)
    requires hi - lo > 0.0 ==> GridRange(lo, hi, order)
    ensures hi - lo <= 0.0 ==> lines == []
    ensures |ks| == |lines|
    ensures hi - lo > 0.0 ==>
      forall k :: 0 <= k < |lines| ==>
        lines[k] == GridLine(ks[k], NiceStep((hi - lo) / 8.0, order)) && OnGrid(ks[k], lo, hi, MinorStep(lo, hi, order))
    ensures forall a, b :: 0 <= a < b < |lines| ==> lines[a].0 < lines[b].0
    ensures hi - lo > 0.0 ==>
      forall j: int :: OnGrid(j, lo, hi, MinorStep(lo, hi, order)) ==> j in ks
  {
    lines, ks := [], [];
    var range := hi - lo;
    if range <= 0.0 {
      return;
    }
    var nice := NiceStep(range / 8.0, order);
    var minor := nice / 5.0;
    var start := (lo / minor).Floor;
    var end := Ceil(hi / minor);
    DivLess(lo, hi, minor);
    lines, ks := GridLoop(lo, hi, nice, start, end);
    GridValuesIncrease(lines, ks, nice);
    forall j: int | OnGrid(j, lo, hi, minor)
      ensures j in ks
    {
      GridIndexBounds(j, lo, hi, minor);
    }
  }
}
