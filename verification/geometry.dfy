/** Points, sizes and the two point helpers the interpreter uses.
    Coordinates are exact reals: no rounding or overflow of the
    platform's floating-point coordinate type is modelled. */
module Geometry {

  /** A 2D point (a coordinate pair). */
  datatype Point = Point(x: real, y: real)

  /** The viewport size every parsed coordinate is a fraction of. */
  datatype Size = Size(width: real, height: real)

  /** The coordinate-system origin. */
  const Origin: Point := Point(0.0, 0.0)

  /** Component-wise sum of two points. */
  function Add(p: Point, rhs: Point): Point {
    Point(p.x + rhs.x, p.y + rhs.y)
  }

  /** Component-wise scaling of a point by two factors. */
  function Times(p: Point, x1: real, y1: real): Point {
    Point(p.x * x1, p.y * y1)
  }
}
