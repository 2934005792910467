/**
 * A plotted data series: its samples, how it is drawn, and the palette that
 * colours series added without an explicit colour. The global id counter of
 * the program is replaced by an explicit `id` parameter.
 */
module Series {
  import opened Common

  newtype u8 = x: int | 0 <= x < 256

  /** An RGBA colour with one byte per channel. */
  datatype Rgba = Rgba(r: u8, g: u8, b: u8, a: u8)

  /** All-zero colour: the marker for "pick a colour from the palette". */
  const Transparent: Rgba := Rgba(0, 0, 0, 0)

  /** The 12-colour palette, in order: red, green, blue, yellow, magenta,
      cyan, orange, purple, dark green, navy, pink, brown. */
  const Palette: seq<Rgba> := [
    Rgba(255, 0, 0, 255), Rgba(0, 255, 0, 255), Rgba(0, 0, 255, 255),
    Rgba(255, 255, 0, 255), Rgba(255, 0, 255, 255), Rgba(0, 255, 255, 255),
    Rgba(255, 165, 0, 255), Rgba(128, 0, 128, 255), Rgba(0, 128, 0, 255),
    Rgba(0, 0, 128, 255), Rgba(255, 192, 203, 255), Rgba(165, 42, 42, 255)
  ]

  /** `color_for_index`: the palette entry at `index` modulo the palette size. */
  function ColorForIndex(index: nat): (c: Rgba)
    ensures c.a == 255 && c != Transparent
  {
    PaletteEntry(index % 12)
  }

  /** Entry `k` of the palette, one test per entry. */
  function PaletteEntry(k: nat): Rgba
  {
    if k == 0 then Rgba(255, 0, 0, 255) else if k == 1 then Rgba(0, 255, 0, 255)
    else if k == 2 then Rgba(0, 0, 255, 255) else if k == 3 then Rgba(255, 255, 0, 255)
    else if k == 4 then Rgba(255, 0, 255, 255) else if k == 5 then Rgba(0, 255, 255, 255)
    else if k == 6 then Rgba(255, 165, 0, 255) else if k == 7 then Rgba(128, 0, 128, 255)
    else if k == 8 then Rgba(0, 128, 0, 255) else if k == 9 then Rgba(0, 0, 128, 255)
    else if k == 10 then Rgba(255, 192, 203, 255) else Rgba(165, 42, 42, 255)
  }

  /** Every index gets a palette colour; the palette repeats with period 12,
      and within one period every index gets its own colour. */
  lemma ColorForIndexPeriodic(i: nat, j: nat)
    ensures ColorForIndex(i) == Palette[i % |Palette|]
    ensures ColorForIndex(i + 12) == ColorForIndex(i)
    ensures i < 12 && j < 12 && i != j ==> ColorForIndex(i) != ColorForIndex(j)
  {
    assert (i + 12) % 12 == i % 12;
  }

  datatype InterpolationMode = Linear | Step | Points

  function InterpolationLabel(m: InterpolationMode): (s: string)
    ensures |s| > 0
  {
    match m
    case Linear => "Linear"
    case Step => "Step"
    case Points => "Points Only"
  }

  /** The three modes carry distinct labels. */
  lemma InterpolationLabelsDistinct(m: InterpolationMode, n: InterpolationMode)
    ensures m != n ==> InterpolationLabel(m) != InterpolationLabel(n)
  {
  }

  /** A data series; `name` is its legend label. `x` and `z` hold finite
      samples (ingestion keeps only finite values); `y` may hold the
      not-a-number results of series math. */
  datatype DataSeries = DataSeries(
    id: nat,
    name: string,
    x: seq<real>,
    y: seq<F64>,
    z: seq<real>,
    color: Rgba,
    unit: string,
    interpolation: InterpolationMode,
    showDots: bool,
    visible: bool,
    lineWidth: real,
    downsampledX: seq<real>,
    downsampledY: seq<F64>,
    needsResample: bool)

  /** Default presentation of a new series: linear, dots shown, visible,
      width 2, empty downsampling cache that needs filling. */
  predicate FreshDefaults(s: DataSeries)
  {
    s.interpolation == Linear && s.showDots && s.visible && s.lineWidth == 2.0 &&
    s.downsampledX == [] && s.downsampledY == [] && s.needsResample
  }

  /** `DataSeries::new`: a 2D series (no z samples). */
  function NewSeries(id: nat, name: string, x: seq<real>, y: seq<F64>, color: Rgba, unit: string): (s: DataSeries)
    ensures s.id == id && s.name == name && s.x == x && s.y == y
    ensures s.color == color && s.unit == unit
    ensures !HasZ(s) && FreshDefaults(s)
  {
    DataSeries(id, name, x, y, [], color, unit, Linear, true, true, 2.0, [], [], true)
  }

  /** `DataSeries::new_3d`: the same defaults, keeping the given z samples. */
  function NewSeries3d(id: nat, name: string, x: seq<real>, y: seq<F64>, z: seq<real>, color: Rgba, unit: string): (s: DataSeries)
    ensures s.id == id && s.name == name && s.x == x && s.y == y && s.z == z
    ensures s.color == color && s.unit == unit
    ensures HasZ(s) <==> z != []
    ensures FreshDefaults(s)
  {
    DataSeries(id, name, x, y, z, color, unit, Linear, true, true, 2.0, [], [], true)
  }

  /** A series is three-dimensional exactly when it has z samples. */
  predicate HasZ(s: DataSeries)
  {
    s.z != []
  }

  function PointCount(s: DataSeries): (n: nat)
    ensures n == |s.x|
  {
    |s.x|
  }

  /** The two constructors agree except for z: a 3D series built with no z
      samples is exactly the 2D series. */
  lemma NewSeries3dWithoutZ(id: nat, name: string, x: seq<real>, y: seq<F64>, color: Rgba, unit: string)
    ensures NewSeries3d(id, name, x, y, [], color, unit) == NewSeries(id, name, x, y, color, unit)
    ensures PointCount(NewSeries3d(id, name, x, y, [], color, unit)) == |x|
  {
  }
}
