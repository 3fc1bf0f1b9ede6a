/**
 * The surface interface (src/surface.rs) and the constants the scene and the
 * sphere share (src/constants.rs).
 */
module Surfaces {
  import opened Vectors
  import opened Rays
  import opened Materials

  /** Hits closer than this are taken to be the surface the ray starts on. */
  const BIAS: real := 0.000001

  /** The up direction of the world, which the background gradient follows. */
  const UP: Vector3 := Vector3(0.0, 1.0, 0.0)

  /**
   * A surface: `intersect` reports whether a ray hits and at which distance,
   * `at` gives the normal and the material at a point of the surface.
   */
  datatype Surface = Surface(intersect: Ray3 -> (bool, real),
                             at: Vector3 -> (Vector3, ValidMaterial))
}
