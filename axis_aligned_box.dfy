/**
 * Axis-aligned boxes (AxisAlignedBox.cpp). The datatype `Box` is the value a
 * box holds and carries the read-only containment predicates; the class
 * `AxisAlignedBox` is a box object whose corner fields the mutators update
 * in place.
 */
module Boxes {
  import opened Geometry

  /** True when `value` lies in the closed interval `[min, max]`. */
  predicate InInterval(min: real, max: real, value: real): (b: bool)
    ensures b ==> min <= max
    ensures (value == min || value == max) ==> (b <==> min <= max)
  {
    min <= value && value <= max
  }

  datatype Box = Box(negCorner: Vector, posCorner: Vector) {

    /**
     * Only a box whose negative corner is below its positive corner on
     * every axis contains anything, and such a box contains both corners.
     */
    predicate ContainsPoint(p: Vector): (b: bool)
      ensures b ==> Ordered()
      ensures (p == negCorner || p == posCorner) ==> (b <==> Ordered())
    {
      && InInterval(negCorner.x, posCorner.x, p.x)
      && InInterval(negCorner.y, posCorner.y, p.y)
      && InInterval(negCorner.z, posCorner.z, p.z)
    }

    /** The negative corner is nowhere above the positive one. */
    predicate Ordered() {
      negCorner.x <= posCorner.x && negCorner.y <= posCorner.y && negCorner.z <= posCorner.z
    }

    predicate ContainsTriangle(t: Triangle) {
      ContainsPoint(t.v0) && ContainsPoint(t.v1) && ContainsPoint(t.v2)
    }

    predicate ContainsLineSegment(s: LineSegment) {
      ContainsPoint(s.v0) && ContainsPoint(s.v1)
    }

    /**
     * The two output boxes as SplitInTwo leaves them: its body computes
     * the extent and branches on it but assigns to neither output.
     */
    function SplitInTwo(boxA: Box, boxB: Box): (r: (Box, Box))
      ensures r.0 == boxA && r.1 == boxB
    {
      (boxA, boxB)
    }
  }

  /** The box a default-constructed AxisAlignedBox holds. */
  const DefaultBox: Box := Box(Origin, Origin)

  /** A default box contains the origin and nothing else. */
  lemma DefaultBoxContainsOnlyOrigin(p: Vector)
    ensures DefaultBox.ContainsPoint(p) <==> p == Origin
  {
    if DefaultBox.ContainsPoint(p) {
      assert p.x == 0.0 && p.y == 0.0 && p.z == 0.0;
    }
  }

  /** The smaller and the larger of two reals. */
  function Min(a: real, b: real): real { if b < a then b else a }
  function Max(a: real, b: real): real { if b > a then b else a }

  class AxisAlignedBox {
    var negCorner: Vector
    var posCorner: Vector

    function Value(): Box
      reads this
    {
      Box(negCorner, posCorner)
    }

    /** The default constructor puts both corners at the origin. */
    constructor ()
      ensures Value() == DefaultBox
    {
      negCorner := Origin;
      posCorner := Origin;
    }

    constructor FromCorners(negCorner: Vector, posCorner: Vector)
      ensures Value() == Box(negCorner, posCorner)
    {
      this.negCorner := negCorner;
      this.posCorner := posCorner;
    }

    /**
     * Widens `[min, max]` just enough to reach `value`: the new bounds are
     * the minimum and the maximum of the old bound and the value, so they
     * enclose the value whatever order the old bounds were in.
     */
    static method ExpandInterval(min: real, max: real, value: real) returns (newMin: real, newMax: real)
      ensures newMin <= value && newMin <= min && (newMin == value || newMin == min)
      ensures newMax >= value && newMax >= max && (newMax == value || newMax == max)
    {
      newMin, newMax := min, max;
      if value < newMin {
        newMin := value;
      }
      if value > newMax {
        newMax := value;
      }
    }

    method GrowToIncludePoint(point: Vector)
      modifies this
      ensures Value().ContainsPoint(point)
      ensures forall p :: old(Value()).ContainsPoint(p) ==> Value().ContainsPoint(p)
      ensures negCorner == Vector(Min(old(negCorner).x, point.x), Min(old(negCorner).y, point.y), Min(old(negCorner).z, point.z))
      ensures posCorner == Vector(Max(old(posCorner).x, point.x), Max(old(posCorner).y, point.y), Max(old(posCorner).z, point.z))
    {
      var nx, px := ExpandInterval(negCorner.x, posCorner.x, point.x);
      var ny, py := ExpandInterval(negCorner.y, posCorner.y, point.y);
      var nz, pz := ExpandInterval(negCorner.z, posCorner.z, point.z);
      negCorner := Vector(nx, ny, nz);
      posCorner := Vector(px, py, pz);
    }

    /** Always reports "no intersection" and changes nothing. */
    method Intersect(boxA: Box, boxB: Box) returns (r: bool)
      ensures !r
    {
      r := false;
    }

    /**
     * The negative corner becomes the componentwise minimum of both boxes'
     * negative corners; the positive corner is the componentwise maximum of
     * boxA's positive corner with itself, so boxB's positive corner is ignored.
     */
    method Combine(boxA: Box, boxB: Box)
      modifies this
      ensures negCorner == Vector(Min(boxA.negCorner.x, boxB.negCorner.x), Min(boxA.negCorner.y, boxB.negCorner.y), Min(boxA.negCorner.z, boxB.negCorner.z))
      ensures posCorner == boxA.posCorner
    {
      negCorner := Vector(Min(boxA.negCorner.x, boxB.negCorner.x), Min(boxA.negCorner.y, boxB.negCorner.y), Min(boxA.negCorner.z, boxB.negCorner.z));
      posCorner := Vector(Max(boxA.posCorner.x, boxA.posCorner.x), Max(boxA.posCorner.y, boxA.posCorner.y), Max(boxA.posCorner.z, boxA.posCorner.z));
    }

    /** Checks the three vertices in order and stops at the first one outside. */
    method ContainsTriangle(triangle: Triangle) returns (r: bool)
      ensures r <==> forall i :: 0 <= i < 3 ==> Value().ContainsPoint(triangle.Vertex(i))
      ensures r == Value().ContainsTriangle(triangle)
    {
      var i := 0;
      while i < 3
        invariant 0 <= i <= 3
        invariant forall j :: 0 <= j < i ==> Value().ContainsPoint(triangle.Vertex(j))
      {
        if !Value().ContainsPoint(triangle.Vertex(i)) {
          return false;
        }
        i := i + 1;
      }
      assert triangle.Vertex(0) == triangle.v0 && triangle.Vertex(1) == triangle.v1 && triangle.Vertex(2) == triangle.v2;
      return true;
    }

    /** Checks both end points in order and stops at the first one outside. */
    method ContainsLineSegment(segment: LineSegment) returns (r: bool)
      ensures r <==> forall i :: 0 <= i < 2 ==> Value().ContainsPoint(segment.Vertex(i))
      ensures r == Value().ContainsLineSegment(segment)
    {
      var i := 0;
      while i < 2
        invariant 0 <= i <= 2
        invariant forall j :: 0 <= j < i ==> Value().ContainsPoint(segment.Vertex(j))
      {
        if !Value().ContainsPoint(segment.Vertex(i)) {
          return false;
        }
        i := i + 1;
      }
      assert segment.Vertex(0) == segment.v0 && segment.Vertex(1) == segment.v1;
      return true;
    }
  }
}
