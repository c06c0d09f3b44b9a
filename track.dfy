/**
 * Tracks: straight lines through the monitor (Track.kt), built from a base
 * point and a direction, and this file's uniform track generator.
 */
module Tracks {
  import opened Wrappers
  import opened Geometry
  import opened MonitorConstants

  datatype Track = Track(line: Line)

  /** The base plane of getX/getY is z = 0. */
  const BASE_Z: real := 0.0

  /** Elevation angle (Vector3D.getDelta of the direction). */
  function Theta(m: MathFns, t: Track): real { m.delta(t.line.direction) }

  /** Azimuthal angle (Vector3D.getAlpha of the direction). */
  function Phi(m: MathFns, t: Track): real { m.alpha(t.line.direction) }

  /**
   * The intersection of the track with the base plane; None where the
   * library returns null and Kotlin's `.x` throws.
   */
  function BasePoint(t: Track): (r: Option<Vec>)
    ensures r.None? <==> Parallel(t.line.direction)
    ensures r.Some? ==> r.value.z == BASE_Z && OnLine(t.line, r.value)
  {
    IntersectZ(BASE_Z, t.line)
  }

  function GetX(t: Track): Option<real>
  {
    match BasePoint(t)
    case None => None
    case Some(p) => Some(p.x)
  }

  function GetY(t: Track): Option<real>
  {
    match BasePoint(t)
    case None => None
    case Some(p) => Some(p.y)
  }

  /**
   * `makeTrack(start, direction)`: the line through `start` and
   * `start + direction`; None where Line's constructor throws because the
   * two points coincide.
   */
  function MakeTrack(start: Vec, direction: Vec): (r: Option<Track>)
    ensures r.None? <==> direction == Zero
    ensures r.Some? ==> OnLine(r.value.line, start) && OnLine(r.value.line, Add(start, direction))
    ensures r.Some? ==> r.value.line.origin == start
  {
    match LineThrough(start, Add(start, direction))
    case None => None
    case Some(l) =>
      assert l.direction == direction;
      Some(Track(l))
  }

  /** `makeTrack(x, y, theta, phi)`: anchored in the central layer, direction from the angles. */
  function MakeTrackAt(m: MathFns, x: real, y: real, theta: real, phi: real): (r: Option<Track>)
    ensures r.None? <==> FromAngles(m, phi, theta) == Zero
    ensures r.Some? ==> r.value.line.origin == Vec(x, y, CENTRAL_LAYER_Z)
    ensures r.Some? ==> OnLine(r.value.line, Add(Vec(x, y, CENTRAL_LAYER_Z), FromAngles(m, phi, theta)))
  {
    MakeTrack(Vec(x, y, CENTRAL_LAYER_Z), FromAngles(m, phi, theta))
  }

  /** getX and getY give back the base point a track was made with, unless it is parallel to the plane. */
  lemma MakeTrackAtRoundTrip(m: MathFns, x: real, y: real, theta: real, phi: real)
    requires MakeTrackAt(m, x, y, theta, phi).Some?
    requires !Parallel(MakeTrackAt(m, x, y, theta, phi).value.line.direction)
    ensures GetX(MakeTrackAt(m, x, y, theta, phi).value) == Some(x)
    ensures GetY(MakeTrackAt(m, x, y, theta, phi).value) == Some(y)
  {
    var t := MakeTrackAt(m, x, y, theta, phi).value;
    var d := t.line.direction;
    assert (BASE_Z - t.line.origin.z) / d.z == 0.0;
  }

  /** The four numbers a generator turns into a track. */
  datatype TrackParams = TrackParams(x: real, y: real, theta: real, phi: real)

  function TrackOf(m: MathFns, p: TrackParams): Option<Track>
  {
    MakeTrackAt(m, p.x, p.y, p.theta, p.phi)
  }

  predicate IsDraw(u: real) { 0.0 <= u < 1.0 }

  /** `(1 - 2u) * max`: for a draw u and max > 0 it lies in (-max, max]. */
  function Symmetric(u: real, max: real): (r: real)
    ensures IsDraw(u) && max > 0.0 ==> -max < r <= max
  {
    var a := 1.0 - u * 2.0;
    assert IsDraw(u) && max > 0.0 ==> (1.0 - a) * max >= 0.0 && (a + 1.0) * max > 0.0;
    a * max
  }

  /** `2u * c`: for a draw u and c > 0 it lies in [0, 2c). */
  function Doubled(u: real, c: real): (r: real)
    ensures IsDraw(u) && c > 0.0 ==> 0.0 <= r < 2.0 * c
  {
    assert IsDraw(u) && c > 0.0 ==> (2.0 - u * 2.0) * c > 0.0;
    u * 2.0 * c
  }

  /** Track.kt's UniformTrackGenerator: base point in a rectangle, phi uniform, cos(theta) uniform. */
  datatype UniformTrackGenerator = UniformTrackGenerator(maxX: real, maxY: real)

  const DefaultUniform: UniformTrackGenerator := UniformTrackGenerator(2.0 * PIXEL_XY_SIZE, 2.0 * PIXEL_XY_SIZE)

  /** The parameters drawn from four successive draws u1..u4 of `rnd.nextDouble()`. */
  function UniformParams(g: UniformTrackGenerator, m: MathFns, u1: real, u2: real, u3: real, u4: real): TrackParams
  {
    TrackParams(Symmetric(u1, g.maxX), Symmetric(u2, g.maxY), m.acos(u4), Doubled(u3, PI))
  }

  function UniformGenerate(g: UniformTrackGenerator, m: MathFns, u1: real, u2: real, u3: real, u4: real): Option<Track>
  {
    TrackOf(m, UniformParams(g, m, u1, u2, u3, u4))
  }

  lemma UniformBounds(g: UniformTrackGenerator, m: MathFns, u1: real, u2: real, u3: real, u4: real)
    requires IsDraw(u1) && IsDraw(u2) && IsDraw(u3) && IsDraw(u4)
    requires g.maxX > 0.0 && g.maxY > 0.0
    ensures -g.maxX < UniformParams(g, m, u1, u2, u3, u4).x <= g.maxX
    ensures -g.maxY < UniformParams(g, m, u1, u2, u3, u4).y <= g.maxY
    ensures 0.0 <= UniformParams(g, m, u1, u2, u3, u4).phi < 2.0 * PI
  {
  }
}
