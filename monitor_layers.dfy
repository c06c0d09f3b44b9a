/** The nine layer planes of the monitor and the lookup by height (Monitor.kt). */
module MonitorLayers {
  import opened Wrappers
  import opened MonitorConstants
  import opened Layers

  /** `layers`: each of the three centre heights, then that height plus and minus half a pixel's thickness. */
  const LAYERS: seq<Layer> := [
    Layer("center", CENTRAL_LAYER_Z),
    Layer("center+", CENTRAL_LAYER_Z + PIXEL_Z_SIZE / 2.0),
    Layer("center-", CENTRAL_LAYER_Z - PIXEL_Z_SIZE / 2.0),
    Layer("up", UPPER_LAYER_Z),
    Layer("up+", UPPER_LAYER_Z + PIXEL_Z_SIZE / 2.0),
    Layer("up-", UPPER_LAYER_Z - PIXEL_Z_SIZE / 2.0),
    Layer("bottom", LOWER_LAYER_Z),
    Layer("bottom+", LOWER_LAYER_Z + PIXEL_Z_SIZE / 2.0),
    Layer("bottom-", LOWER_LAYER_Z - PIXEL_Z_SIZE / 2.0)
  ]

  /** Some layer lies at height z. */
  predicate IsLayerHeight(z: real)
  {
    exists i :: 0 <= i < |LAYERS| && LAYERS[i].z == z
  }

  /** The layer heights are 0, 166 and -180, each also shifted by +15 and -15. */
  lemma LayerHeights(z: real)
    ensures IsLayerHeight(z) <==> z in {0.0, 15.0, -15.0, 166.0, 181.0, 151.0, -180.0, -165.0, -195.0}
  {
    if z in {0.0, 15.0, -15.0, 166.0, 181.0, 151.0, -180.0, -165.0, -195.0} {
      var i := if z == 0.0 then 0 else if z == 15.0 then 1 else if z == -15.0 then 2
        else if z == 166.0 then 3 else if z == 181.0 then 4 else if z == 151.0 then 5
        else if z == -180.0 then 6 else if z == -165.0 then 7 else 8;
      assert LAYERS[i].z == z;
    }
  }

  /** No two layers share a height, so the layer at a height is unique. */
  lemma LayerHeightsDistinct()
    ensures forall i, j :: 0 <= i < j < |LAYERS| ==> LAYERS[i].z != LAYERS[j].z
  {
  }

  /** `findLayer(z)`: the first layer at exactly height z, or the source's RuntimeException. */
  method FindLayer(z: real) returns (r: Result<Layer>)
    ensures r.Err? <==> !IsLayerHeight(z)
    ensures r.Ok? ==> r.value.z == z
    ensures r.Ok? ==> exists i :: 0 <= i < |LAYERS| && LAYERS[i] == r.value && forall j :: 0 <= j < i ==> LAYERS[j].z != z
  {
    var i := 0;
    while i < |LAYERS|
      invariant 0 <= i <= |LAYERS|
      invariant forall j :: 0 <= j < i ==> LAYERS[j].z != z
    {
      if LAYERS[i].z == z {
        return Ok(LAYERS[i]);
      }
      i := i + 1;
    }
    // The source appends the decimal form of z, which the model does not format.
    return Err("Could not find layer with z = ");
  }
}
