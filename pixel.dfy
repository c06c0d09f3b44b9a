/** A single detector pixel: a box around its centre and the hit test (Pixel.kt). */
module Pixels {
  import opened Wrappers
  import opened Geometry
  import opened MonitorConstants
  import opened Tracks
  import opened Layers
  import opened MonitorLayers

  /**
   * The efficiency a pixel starts with. Pixel.kt declares no efficiency
   * field; the model starts every pixel fully efficient, and only the
   * efficiency step of buildPixels changes it.
   */
  const DEFAULT_EFFICIENCY: real := 1.0

  class Pixel {
    const name: string
    const center: Vec
    const xSize: real
    const ySize: real
    const zSize: real
    /** The layer found for center.z. */
    const layer: Layer
    const upLayer: Layer
    const bottomLayer: Layer
    /**
     * Assigned by the efficiency step of buildPixels in Monitor.kt; Pixel.kt
     * itself declares no such field and never reads it.
     */
    var efficiency: real

    /** The heights of the three planes follow from the centre and the thickness. */
    predicate Valid()
    {
      layer.z == center.z
      && upLayer == Layer(name + "_up", center.z + zSize / 2.0)
      && bottomLayer == Layer(name + "_bottom", center.z - zSize / 2.0)
    }

    /** `layer` is the result of findLayer(center.z); see NewPixel. */
    constructor (name: string, center: Vec, xSize: real, ySize: real, zSize: real, layer: Layer)
      requires layer.z == center.z
      ensures this.name == name && this.center == center
      ensures this.xSize == xSize && this.ySize == ySize && this.zSize == zSize
      ensures this.layer == layer
      ensures Valid()
      ensures efficiency == DEFAULT_EFFICIENCY
    {
      this.name := name;
      this.center := center;
      this.xSize := xSize;
      this.ySize := ySize;
      this.zSize := zSize;
      this.layer := layer;
      this.upLayer := Layer(name + "_up", center.z + zSize / 2.0);
      this.bottomLayer := Layer(name + "_bottom", center.z - zSize / 2.0);
      this.efficiency := DEFAULT_EFFICIENCY;
    }

    /** `containsPoint(x, y, z)`: each coordinate within half a size of the centre, bounds included. */
    predicate ContainsPoint(x: real, y: real, z: real)
    {
      x <= center.x + xSize / 2.0 && x >= center.x - xSize / 2.0 &&
      y <= center.y + ySize / 2.0 && y >= center.y - ySize / 2.0 &&
      z <= center.z + zSize / 2.0 && z >= center.z - zSize / 2.0
    }

    predicate Contains(p: Vec)
    {
      ContainsPoint(p.x, p.y, p.z)
    }

    /** The horizontal footprint of the box. */
    predicate InFootprint(x: real, y: real)
    {
      center.x - xSize / 2.0 <= x <= center.x + xSize / 2.0 &&
      center.y - ySize / 2.0 <= y <= center.y + ySize / 2.0
    }

    /** The track meets the plane at height h inside the box. */
    predicate CrossesAt(t: Track, h: real)
    {
      IntersectZ(h, t.line).Some? && Contains(IntersectZ(h, t.line).value)
    }

    /**
     * `isHit`: the track crosses the centre, top or bottom plane of the box
     * inside it. Kotlin evaluates the disjunction left to right; the first
     * null intersection throws, and that happens exactly for a track
     * parallel to the planes (None).
     */
    function IsHit(t: Track): (r: Option<bool>)
      ensures r.None? <==> Parallel(t.line.direction)
      ensures r == Some(true) <==> CrossesAt(t, layer.z) || CrossesAt(t, upLayer.z) || CrossesAt(t, bottomLayer.z)
    {
      match Intersect(layer, t)
      case None => None
      case Some(p) =>
        if Contains(p) then Some(true)
        else
          match Intersect(upLayer, t)
          case None => None
          case Some(q) =>
            if Contains(q) then Some(true)
            else
              match Intersect(bottomLayer, t)
              case None => None
              case Some(s) => Some(Contains(s))
    }

    /** A box of non-negative size contains its own centre. */
    lemma ContainsCenter()
      requires xSize >= 0.0 && ySize >= 0.0 && zSize >= 0.0
      ensures Contains(center)
    {
    }

    /**
     * For a box of non-negative thickness, a hit means the track's point on
     * one of the three planes lies in the horizontal footprint.
     */
    lemma {:induction false} IsHitFootprint(t: Track)
      requires Valid() && zSize >= 0.0
      requires !Parallel(t.line.direction)
      ensures IsHit(t) == Some(true) <==>
        exists h :: h in [center.z, center.z + zSize / 2.0, center.z - zSize / 2.0] &&
          InFootprint(IntersectZ(h, t.line).value.x, IntersectZ(h, t.line).value.y)
    {
      var hs := [center.z, center.z + zSize / 2.0, center.z - zSize / 2.0];
      forall h | h in hs
        ensures CrossesAt(t, h) <==> InFootprint(IntersectZ(h, t.line).value.x, IntersectZ(h, t.line).value.y)
      {
        assert IntersectZ(h, t.line).value.z == h;
      }
      if IsHit(t) == Some(true) {
        if CrossesAt(t, hs[0]) {
          assert hs[0] in hs;
        } else if CrossesAt(t, hs[1]) {
          assert hs[1] in hs;
        } else {
          assert hs[2] in hs;
        }
      }
    }

    /** A vertical track through the footprint hits the pixel (in its centre plane). */
    lemma VerticalTrackHits(t: Track)
      requires Valid() && zSize >= 0.0
      requires t.line.direction.x == 0.0 && t.line.direction.y == 0.0
      requires InFootprint(t.line.origin.x, t.line.origin.y)
      ensures IsHit(t) == Some(true)
    {
      var d := t.line.direction;
      assert d.z != 0.0;
      assert NormSq(d) == d.z * d.z;
      assert !Parallel(d);
      var p := IntersectZ(center.z, t.line).value;
      assert p.x == t.line.origin.x && p.y == t.line.origin.y;
      assert CrossesAt(t, layer.z);
    }
  }

  /**
   * `Pixel(name, center, ...)`: fails, as findLayer throws, unless center.z
   * is one of the layer heights.
   */
  method NewPixel(name: string, center: Vec, xSize: real, ySize: real, zSize: real) returns (r: Result<Pixel>)
    ensures r.Err? <==> !IsLayerHeight(center.z)
    ensures r.Ok? ==> fresh(r.value) && r.value.Valid()
    ensures r.Ok? ==> r.value.name == name && r.value.center == center
    ensures r.Ok? ==> r.value.xSize == xSize && r.value.ySize == ySize && r.value.zSize == zSize
    ensures r.Ok? ==> r.value.layer in LAYERS
    ensures r.Ok? ==> r.value.efficiency == DEFAULT_EFFICIENCY
  {
    var found := FindLayer(center.z);
    if found.Err? {
      return Err(found.msg);
    }
    var p := new Pixel(name, center, xSize, ySize, zSize, found.value);
    return Ok(p);
  }

  /** `Pixel(name, center)` with the default sizes. */
  method NewDefaultPixel(name: string, center: Vec) returns (r: Result<Pixel>)
    ensures r.Err? <==> !IsLayerHeight(center.z)
    ensures r.Ok? ==> fresh(r.value) && r.value.Valid() && r.value.name == name && r.value.center == center
    ensures r.Ok? ==> r.value.xSize == PIXEL_XY_SIZE && r.value.ySize == PIXEL_XY_SIZE && r.value.zSize == PIXEL_Z_SIZE
    ensures r.Ok? ==> r.value.efficiency == DEFAULT_EFFICIENCY
  {
    r := NewPixel(name, center, PIXEL_XY_SIZE, PIXEL_XY_SIZE, PIXEL_Z_SIZE);
  }
}
