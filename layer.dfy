/** A horizontal detector plane (Layer.kt). */
module Layers {
  import opened Wrappers
  import opened Geometry
  import opened Tracks

  datatype Layer = Layer(name: string, z: real)

  /** `intersect`: the point where the track crosses the plane; None where the library returns null. */
  function Intersect(layer: Layer, t: Track): (r: Option<Vec>)
    ensures r.None? <==> Parallel(t.line.direction)
    ensures r.Some? ==> r.value.z == layer.z && OnLine(t.line, r.value)
  {
    IntersectZ(layer.z, t.line)
  }

  /** A track whose direction has no vertical component never meets a layer. */
  lemma HorizontalMissesLayer(layer: Layer, t: Track)
    requires t.line.direction.z == 0.0
    ensures Intersect(layer, t) == None
  {
  }

  /** Only the height of a layer matters, never its name. */
  lemma IntersectIgnoresName(n1: string, n2: string, z: real, t: Track)
    ensures Intersect(Layer(n1, z), t) == Intersect(Layer(n2, z), t)
  {
  }
}
