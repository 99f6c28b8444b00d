/** Planar geometry used by the robot state model: points, vectors and angles
    over the reals. Angles are plain radians and are never wrapped. */
module Geom {

  datatype Point = Point(x: real, y: real)

  datatype Vector = Vector(x: real, y: real)

  /** An orientation in radians. */
  type Angle = real

  /** A rate of rotation in radians per second. */
  type AngularVelocity = real

  function Origin(): Point { Point(0.0, 0.0) }

  function ZeroVector(): Vector { Vector(0.0, 0.0) }

  /** `Point + Vector`: the point reached by moving along the vector. */
  function Translate(p: Point, v: Vector): Point
  {
    Point(p.x + v.x, p.y + v.y)
  }

  /** The vector that leads from `from` to `to`. */
  function Displacement(from: Point, to: Point): Vector
  {
    Vector(to.x - from.x, to.y - from.y)
  }

  function Scale(v: Vector, k: real): Vector
  {
    Vector(v.x * k, v.y * k)
  }

  function Dot(a: Vector, b: Vector): real
  {
    a.x * b.x + a.y * b.y
  }

  /** The z-component of the cross product; zero exactly when `a` and `b` are parallel. */
  function Cross(a: Vector, b: Vector): real
  {
    a.x * b.y - a.y * b.x
  }

  function LengthSquared(v: Vector): real
  {
    Dot(v, v)
  }

  /** `v.norm(v.len() * s)`: the vector pointing along `v` whose length is
      `|v| * s`. For a non-zero `v` this is `v / |v| * (|v| * s)`, which is
      `v * s`; a zero `v` is normalised to the zero vector, which is `v * s`
      as well. Working over the reals keeps the square root out of the model
      while keeping the meaning: the result is parallel to `v`, points the
      same way for `s >= 0`, and has length `|v| * |s|`. */
  function Stretched(v: Vector, s: real): Vector
  {
    Scale(v, s)
  }

  /** The stretched vector is parallel to `v`, points the same way for
      `s >= 0`, and its squared length is `s * s` times that of `v`. */
  lemma StretchedAlongRay(v: Vector, s: real)
    ensures LengthSquared(Stretched(v, s)) == s * s * LengthSquared(v)
    ensures Cross(v, Stretched(v, s)) == 0.0
    ensures Dot(v, Stretched(v, s)) == s * LengthSquared(v)
    ensures Stretched(v, 0.0) == ZeroVector()
  {
  }

  lemma DisplacementOfTranslate(p: Point, v: Vector)
    ensures Displacement(p, Translate(p, v)) == v
  {
  }
}
