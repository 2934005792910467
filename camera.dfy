/**
 * The orbital camera of the 3D view: spherical coordinates around a target
 * point. Positions, view and projection matrices need trigonometry and are
 * not modelled; `pan` receives the camera's right and up vectors (rows of
 * the view matrix) as parameters.
 */
module Camera {
  import opened Common
  import PlotView

  /** `std::f32::consts::PI`, the single-precision value. */
  const Pi: real := 3.1415927410125732421875

  const ElevationMin: real := -Pi / 2.0 + 0.01
  const ElevationMax: real := Pi / 2.0 - 0.01
  const DistanceMin: real := 0.1
  const DistanceMax: real := 50.0

  datatype Vec3 = Vec3(x: real, y: real, z: real)
  {
    function Add(o: Vec3): Vec3 { Vec3(x + o.x, y + o.y, z + o.z) }
    function Scale(k: real): Vec3 { Vec3(x * k, y * k, z * k) }
  }

  const Origin: Vec3 := Vec3(0.0, 0.0, 0.0)

  /** The elevation after a rotation by `delta`, clamped away from the poles. */
  function RotatedElevation(elevation: real, delta: real): (e: real)
    ensures ElevationMin <= e <= ElevationMax
    ensures -Pi / 2.0 < e < Pi / 2.0
    ensures ElevationMin <= elevation + delta <= ElevationMax ==> e == elevation + delta
  {
    Clamp(elevation + delta, ElevationMin, ElevationMax)
  }

  /** The distance after zooming by `factor`, clamped to [0.1, 50]. */
  function ZoomedDistance(distance: real, factor: real): (d: real)
    ensures DistanceMin <= d <= DistanceMax
    ensures DistanceMin <= distance * factor <= DistanceMax ==> d == distance * factor
  {
    Clamp(distance * factor, DistanceMin, DistanceMax)
  }

  /** Rotating back by the opposite deltas restores the azimuth, and the
      elevation too when neither rotation hit a clamp. */
  lemma RotateRoundTrip(azimuth: real, elevation: real, da: real, de: real)
    requires ElevationMin <= elevation <= ElevationMax
    requires ElevationMin <= elevation + de <= ElevationMax
    ensures (azimuth + da) + -da == azimuth
    ensures RotatedElevation(RotatedElevation(elevation, de), -de) == elevation
  {
  }

  /** Zooming `n` times by the same factor. */
  function ZoomedTimes(distance: real, factor: real, n: nat): real
  {
    if n == 0 then distance else ZoomedDistance(ZoomedTimes(distance, factor, n - 1), factor)
  }

  /** Repeated zooming in (0 < factor < 1) never increases the distance and
      never takes it below 0.1. */
  lemma {:induction false} ZoomInRepeatedly(distance: real, factor: real, n: nat)
    requires DistanceMin <= distance <= DistanceMax
    requires 0.0 < factor < 1.0
    ensures DistanceMin <= ZoomedTimes(distance, factor, n + 1) <= ZoomedTimes(distance, factor, n) <= distance
  {
    if n > 0 {
      ZoomInRepeatedly(distance, factor, n - 1);
    }
    var d := ZoomedTimes(distance, factor, n);
    assert d * factor <= d;
  }

  /** How far a pan by `(dx, dy)` pixels moves the target: along `right`
      against the drag and along `up` with it, 0.002 units per pixel per
      unit of distance. */
  function PanOffset(distance: real, dx: real, dy: real, right: Vec3, up: Vec3): (o: Vec3)
    ensures dx == 0.0 && dy == 0.0 ==> o == Origin
    ensures distance == 0.0 ==> o == Origin
  {
    var scale := distance * 0.002;
    right.Scale(-dx * scale).Add(up.Scale(dy * scale))
  }

  class OrbitalCamera {
    var target: Vec3
    var distance: real
    var azimuth: real
    var elevation: real
    var fovY: real

    /** The default pose, which satisfies both clamps. */
    predicate IsDefault()
      reads this
    {
      target == Origin && distance == 3.0 && azimuth == Pi / 4.0 &&
      elevation == Pi / 6.0 && fovY == Pi / 4.0
    }

    /** The angle and distance limits. */
    predicate InLimits()
      reads this
    {
      ElevationMin <= elevation <= ElevationMax && DistanceMin <= distance <= DistanceMax
    }

    /** `OrbitalCamera::default()`. */
    constructor ()
      ensures IsDefault() && InLimits()
    {
      target, distance, azimuth, elevation, fovY := Origin, 3.0, Pi / 4.0, Pi / 6.0, Pi / 4.0;
    }

    method Rotate(deltaAzimuth: real, deltaElevation: real)
      modifies this
      ensures azimuth == old(azimuth) + deltaAzimuth
      ensures elevation == RotatedElevation(old(elevation), deltaElevation)
      ensures target == old(target) && distance == old(distance) && fovY == old(fovY)
      ensures old(InLimits()) ==> InLimits()
    {
      azimuth := azimuth + deltaAzimuth;
      elevation := Clamp(elevation + deltaElevation, ElevationMin, ElevationMax);
    }

    method Zoom(factor: real)
      modifies this
      ensures distance == ZoomedDistance(old(distance), factor)
      ensures target == old(target) && azimuth == old(azimuth) && elevation == old(elevation) && fovY == old(fovY)
      ensures old(InLimits()) ==> InLimits()
    {
      distance := Clamp(distance * factor, DistanceMin, DistanceMax);
    }

    /** Moves only the target, by `PanOffset`. */
    method Pan(dx: real, dy: real, right: Vec3, up: Vec3)
      modifies this
      ensures target == old(target).Add(PanOffset(old(distance), dx, dy, right, up))
      ensures distance == old(distance) && azimuth == old(azimuth) && elevation == old(elevation) && fovY == old(fovY)
    {
      target := target.Add(PanOffset(distance, dx, dy, right, up));
    }

    method Reset()
      modifies this
      ensures IsDefault() && InLimits()
    {
      target, distance, azimuth, elevation, fovY := Origin, 3.0, Pi / 4.0, Pi / 6.0, Pi / 4.0;
    }

    /** `handle_input` with the mouse events as parameters: a primary drag
        rotates by -0.005 rad per pixel, a secondary drag pans (along the
        camera vectors `right` and `up` after the rotation), a scroll while
        hovered zooms by the clamped factor, and a double click resets. */
    method HandleInput(primaryDrag: Option<(real, real)>, secondaryDrag: Option<(real, real)>,
                       hovered: bool, scroll: real, doubleClicked: bool, right: Vec3, up: Vec3)
      modifies this
      ensures doubleClicked ==> IsDefault()
      ensures !doubleClicked ==>
        azimuth == old(azimuth) + (if primaryDrag.Some? then primaryDrag.value.0 * -0.005 else 0.0) &&
        elevation == (if primaryDrag.Some? then RotatedElevation(old(elevation), primaryDrag.value.1 * -0.005) else old(elevation)) &&
        distance == (if hovered && scroll != 0.0 then ZoomedDistance(old(distance), PlotView.ZoomFactor(scroll)) else old(distance)) &&
        fovY == old(fovY) &&
        (secondaryDrag.None? ==> target == old(target)) &&
        (secondaryDrag.Some? ==>
          target == old(target).Add(PanOffset(old(distance), secondaryDrag.value.0, secondaryDrag.value.1, right, up)))
      ensures old(InLimits()) ==> InLimits()
    {
      if primaryDrag.Some? {
        Rotate(primaryDrag.value.0 * -0.005, primaryDrag.value.1 * -0.005);
      }
      if secondaryDrag.Some? {
        Pan(secondaryDrag.value.0, secondaryDrag.value.1, right, up);
      }
      if hovered && Abs(scroll) > 0.0 {
        Zoom(PlotView.ZoomFactor(scroll));
      }
      if doubleClicked {
        Reset();
      }
    }
  }
}
