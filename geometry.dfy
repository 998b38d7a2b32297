/** Exact fixed-point geometry for the platformer's world space.

    Coordinates and speeds are integers in thousandths of a pixel, so every
    constant of the movement core (12, 14, 28.5, 29, 6, 5.5 pixels, and the
    per-hundredth-of-deflection steps 0.02 and 0.007 pixels) is exact.
    As on screen, y grows downwards. */
module Geometry {

  /** A point or a displacement, in thousandths of a pixel. */
  datatype Vec = Vec(x: int, y: int) {

    /** Componentwise sum: `Point + Point` of the source. */
    function Add(d: Vec): Vec {
      Vec(x + d.x, y + d.y)
    }
  }

  /** `Vector2D.ZERO`. */
  const ZERO: Vec := Vec(0, 0)
}
