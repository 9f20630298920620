/**
 * Exact geometry over the reals: the vector, triangle and line-segment
 * value types that the toolkit passes around by copy.
 */
module Geometry {

  /** A point or direction in space (the toolkit's `Vector`). */
  datatype Vector = Vector(x: real, y: real, z: real)

  const Origin: Vector := Vector(0.0, 0.0, 0.0)

  function Dot(a: Vector, b: Vector): real {
    a.x * b.x + a.y * b.y + a.z * b.z
  }

  function Add(a: Vector, b: Vector): Vector {
    Vector(a.x + b.x, a.y + b.y, a.z + b.z)
  }

  function Sub(a: Vector, b: Vector): Vector {
    Vector(a.x - b.x, a.y - b.y, a.z - b.z)
  }

  function Scale(a: Vector, s: real): Vector {
    Vector(a.x * s, a.y * s, a.z * s)
  }

  /** The squared length; comparing squared lengths replaces square roots. */
  function LengthSquared(a: Vector): real {
    Dot(a, a)
  }

  /** `Distance(a, b) <= limit` written without a square root. */
  predicate WithinDistance(a: Vector, b: Vector, limit: real) {
    limit >= 0.0 && LengthSquared(Sub(a, b)) <= limit * limit
  }

  /** The point `(1 - t) * a + t * b`. */
  function Lerp(a: Vector, b: Vector, t: real): Vector {
    Add(Scale(a, 1.0 - t), Scale(b, t))
  }

  function Cross(a: Vector, b: Vector): Vector {
    Vector(a.y * b.z - a.z * b.y, a.z * b.x - a.x * b.z, a.x * b.y - a.y * b.x)
  }

  lemma DotAddLeft(a: Vector, b: Vector, n: Vector)
    ensures Dot(Add(a, b), n) == Dot(a, n) + Dot(b, n)
  {
  }

  lemma DotScaleLeft(a: Vector, s: real, n: Vector)
    ensures Dot(Scale(a, s), n) == s * Dot(a, n)
  {
  }

  /** Dot products are affine along a segment. */
  lemma DotLerp(a: Vector, b: Vector, t: real, n: Vector)
    ensures Dot(Lerp(a, b, t), n) == (1.0 - t) * Dot(a, n) + t * Dot(b, n)
  {
    DotAddLeft(Scale(a, 1.0 - t), Scale(b, t), n);
    DotScaleLeft(a, 1.0 - t, n);
    DotScaleLeft(b, t, n);
  }

  /** A triangle given by its three corner positions (`Triangle::vertex[3]`). */
  datatype Triangle = Triangle(v0: Vector, v1: Vector, v2: Vector) {
    function Vertex(i: nat): Vector
      requires i < 3
    {
      if i == 0 then v0 else if i == 1 then v1 else v2
    }

    /** The triangle with corner i replaced by v (`triangle.vertex[i] = v`). */
    function WithVertex(i: nat, v: Vector): (r: Triangle)
      requires i < 3
      ensures r.Vertex(i) == v
      ensures forall k :: 0 <= k < 3 && k != i ==> r.Vertex(k) == Vertex(k)
    {
      if i == 0 then Triangle(v, v1, v2) else if i == 1 then Triangle(v0, v, v2) else Triangle(v0, v1, v)
    }
  }

  /** A segment given by its two end points (`LineSegment::vertex[2]`). */
  datatype LineSegment = LineSegment(v0: Vector, v1: Vector) {
    function Vertex(i: nat): Vector
      requires i < 2
    {
      if i == 0 then v0 else v1
    }

    function Midpoint(): Vector {
      Lerp(v0, v1, 0.5)
    }
  }
}
