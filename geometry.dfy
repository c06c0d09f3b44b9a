/**
 * The part of commons-math's Euclidean 3D geometry that the simulator uses:
 * vectors (Vector3D), lines through two points (Line) and the intersection
 * of a line with a horizontal plane (Plane.intersection). Real numbers stand
 * for doubles; trigonometry and square roots are given from outside in
 * `MathFns`.
 */
module Geometry {
  import opened Wrappers

  datatype Vec = Vec(x: real, y: real, z: real)

  const Zero: Vec := Vec(0.0, 0.0, 0.0)

  /** java.lang.Math.PI, the double nearest to pi, written out exactly. */
  const PI: real := 3.141592653589793115997963468544185161590576171875

  function Add(a: Vec, b: Vec): Vec { Vec(a.x + b.x, a.y + b.y, a.z + b.z) }

  function Sub(a: Vec, b: Vec): Vec { Vec(a.x - b.x, a.y - b.y, a.z - b.z) }

  function Scale(k: real, v: Vec): Vec { Vec(k * v.x, k * v.y, k * v.z) }

  function NormSq(v: Vec): real { v.x * v.x + v.y * v.y + v.z * v.z }

  function Cross(a: Vec, b: Vec): Vec
  {
    Vec(a.y * b.z - a.z * b.y, a.z * b.x - a.x * b.z, a.x * b.y - a.y * b.x)
  }

  /**
   * Library functions of java.lang.Math and commons-math that the model does
   * not define: `alpha` and `delta` are Vector3D.getAlpha (azimuth) and
   * Vector3D.getDelta (elevation).
   */
  datatype MathFns = MathFns(
    sin: real -> real,
    cos: real -> real,
    acos: real -> real,
    sqrt: real -> real,
    pow: (real, real) -> real,
    alpha: Vec -> real,
    delta: Vec -> real)

  /** `Vector3D(alpha, delta)`: the unit vector with azimuth alpha and elevation delta. */
  function FromAngles(m: MathFns, alpha: real, delta: real): Vec
  {
    Vec(m.cos(alpha) * m.cos(delta), m.sin(alpha) * m.cos(delta), m.sin(delta))
  }

  /**
   * A commons-math Line: a point on it and a direction. The library stores
   * the direction normalised; the model keeps the difference of the two
   * defining points, which spans the same line.
   */
  datatype LineRep = LineRep(origin: Vec, direction: Vec)

  type Line = l: LineRep | l.direction != Zero witness LineRep(Zero, Vec(0.0, 0.0, 1.0))

  /** `Line(p1, p2, tolerance)`: fails (the library throws) when the points coincide. */
  function LineThrough(p1: Vec, p2: Vec): (r: Option<Line>)
    ensures r.None? <==> p1 == p2
    ensures r.Some? ==> r.value.origin == p1 && Add(p1, r.value.direction) == p2
  {
    var d := Sub(p2, p1);
    if d == Zero then None else Some(LineRep(p1, d))
  }

  /** The point p lies on line l: p - origin is parallel to the direction. */
  predicate OnLine(l: Line, p: Vec)
  {
    Cross(Sub(p, l.origin), l.direction) == Zero
  }

  /**
   * Plane.intersection returns null when |n . u| < 1e-10 for the plane's
   * unit normal n = (0, 0, 1) and the line's unit direction u = d / |d|;
   * squared, that is d.z^2 < 1e-20 |d|^2, which needs no square root. For a
   * non-zero d with d.z = 0 the inequality holds; the first disjunct says so
   * outright.
   */
  predicate Parallel(d: Vec)
  {
    d.z == 0.0 || d.z * d.z < 0.00000000000000000001 * NormSq(d)
  }

  /** Plane.intersection(line) for the plane z = `z` (null becomes None). */
  function IntersectZ(z: real, l: Line): (r: Option<Vec>)
    ensures r.None? <==> Parallel(l.direction)
    ensures r.Some? ==> r.value.z == z && OnLine(l, r.value)
  {
    var d := l.direction;
    if Parallel(d) then None
    else
      var k := (z - l.origin.z) / d.z;
      var p := Add(l.origin, Scale(k, d));
      assert Sub(p, l.origin) == Scale(k, d);
      Some(p)
  }
}
