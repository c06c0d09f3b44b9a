/** The fixed dimensions of the monitor, in millimetres (Monitor.kt). */
module MonitorConstants {
  const GEOMETRY_TOLERANCE: real := 0.01
  const PIXEL_XY_SIZE: real := 122.0
  const PIXEL_XY_SPACING: real := 125.0
  const PIXEL_Z_SIZE: real := 30.0
  const CENTRAL_LAYER_Z: real := 0.0
  const UPPER_LAYER_Z: real := 166.0
  const LOWER_LAYER_Z: real := -180.0
}
