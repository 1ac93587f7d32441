/** Value types of the game framework and vector library that the core
    passes around: 2- and 3-component vectors and an axis-aligned box given
    by its two corners. Components are reals; single-precision rounding is
    not modelled. */
module Geometry {

  datatype Vec2 = Vec2(x: real, y: real)

  /** A vector whose components the source indexes as [0], [1], [2]. */
  datatype Vec3 = Vec3(x: real, y: real, z: real)

  const ZeroVec3 := Vec3(0.0, 0.0, 0.0)

  /** Extends a 2-D vector with a third component. */
  function Extend(v: Vec2, z: real): Vec3 { Vec3(v.x, v.y, z) }

  datatype Point = Point(x: real, y: real)

  /** An axis-aligned box; the zero value is the empty box at the origin. */
  datatype Aabb = Aabb(min: Point, max: Point)

  const ZeroAabb := Aabb(Point(0.0, 0.0), Point(0.0, 0.0))
}
