/**
 * Planes (Plane.cpp): a plane is a normal and an offset `dot`, so that the
 * signed distance of a point p is p . normal + dot. Exact reals stand in for
 * doubles; the caller supplies the normalised normal, since normalising
 * needs a square root.
 */
module Planes {
  import opened Geometry

  /** `Plane::Side`. */
  datatype Side = Front | Back | Neither

  /**
   * `Plane::Intersect(LineSegment)`: no crossing (false, the output point
   * untouched), a crossing at a point, or both end points on the plane,
   * where the source computes 0 / 0 and writes a point of NaNs.
   */
  datatype Crossing = NoCrossing | CrossingAt(point: Vector) | SegmentInPlane

  function Abs(r: real): real { if r < 0.0 then -r else r }

  class Plane {
    var normal: Vector
    var dot: real

    /** The plane z = 0. */
    constructor ()
      ensures normal == Vector(0.0, 0.0, 1.0) && dot == 0.0
      ensures forall p :: Distance(p) == p.z
    {
      normal := Vector(0.0, 0.0, 1.0);
      dot := 0.0;
    }

    /** A copy of another plane (the source copies planes by value). */
    constructor Copy(other: Plane)
      ensures normal == other.normal && dot == other.dot
      ensures forall p :: Distance(p) == other.Distance(p)
    {
      normal := other.normal;
      dot := other.dot;
    }

    /**
     * `unitNormal` is the normalised `normal` argument. The plane then
     * passes through `center`.
     */
    method SetCenterAndNormal(center: Vector, unitNormal: Vector)
      modifies this
      ensures normal == unitNormal && dot == -Dot(center, unitNormal)
      ensures Distance(center) == 0.0
    {
      normal := unitNormal;
      dot := -Dot(center, normal);
    }

    /**
     * The signed distance of a point: with a unit normal, the component
     * along the normal of the point's offset from the plane's center.
     */
    function Distance(point: Vector): (d: real)
      reads this
      ensures LengthSquared(normal) == 1.0 ==> d == Dot(Sub(point, GetCenterOnPlane()), normal)
    {
      DotScaleLeft(normal, -dot, normal);
      Dot(point, normal) + dot
    }

    function GetSide(point: Vector, eps: real): (side: Side)
      reads this
      ensures side == Front <==> Distance(point) > eps
      ensures eps >= 0.0 ==> (side == Back <==> Distance(point) < -eps)
      ensures eps >= 0.0 ==> (side == Neither <==> -eps <= Distance(point) <= eps)
    {
      var distance := Distance(point);
      if distance > eps then Front
      else if distance < -eps then Back
      else Neither
    }

    /**
     * The point moved along the normal by minus its distance: the offset
     * back to the point is the normal scaled by the signed distance, and
     * with a unit normal the result lies on the plane.
     */
    function NearestPoint(point: Vector): (r: Vector)
      reads this
      ensures Sub(point, r) == Scale(normal, Distance(point))
      ensures LengthSquared(normal) == 1.0 ==> Distance(r) == 0.0
    {
      if LengthSquared(normal) == 1.0 then
        DistanceAlongNormal(this, point, -Distance(point));
        Add(point, Scale(normal, -Distance(point)))
      else
        Add(point, Scale(normal, -Distance(point)))
    }

    /**
     * The end points' distances d0, d1: a crossing when they have opposite
     * signs or one is zero, at t = |d0| / (|d0| + |d1|).
     */
    function Intersect(segment: LineSegment): (c: Crossing)
      reads this
      ensures c != NoCrossing <==> Distance(segment.v0) * Distance(segment.v1) <= 0.0
      ensures c == SegmentInPlane <==> Distance(segment.v0) == 0.0 && Distance(segment.v1) == 0.0
    {
      var dist0 := Distance(segment.v0);
      var dist1 := Distance(segment.v1);
      if (dist0 <= 0.0 && dist1 >= 0.0) || (dist1 <= 0.0 && dist0 >= 0.0) then
        var a0 := Abs(dist0);
        var a1 := Abs(dist1);
        if a0 + a1 == 0.0 then SegmentInPlane
        else CrossingAt(Lerp(segment.v0, segment.v1, a0 / (a0 + a1)))
      else
        NoCrossing
    }

    /**
     * `Plane::GetCenter`, as written: the normal scaled by `dot`, which
     * sits 2 * dot along the normal from the center the plane means.
     */
    function GetCenter(): (r: Vector)
      reads this
      ensures Sub(r, GetCenterOnPlane()) == Scale(normal, 2.0 * dot)
    {
      Scale(normal, dot)
    }

    /** The center the plane evidently means: the normal scaled by `-dot`. */
    function GetCenterOnPlane(): Vector
      reads this
    {
      Scale(normal, -dot)
    }
  }

  /** Distance moves linearly along the normal. */
  lemma DistanceAlongNormal(plane: Plane, p: Vector, t: real)
    requires LengthSquared(plane.normal) == 1.0
    ensures plane.Distance(Add(p, Scale(plane.normal, t))) == plane.Distance(p) + t
  {
    DotAddLeft(p, Scale(plane.normal, t), plane.normal);
    DotScaleLeft(plane.normal, t, plane.normal);
  }

  /**
   * With a unit normal, NearestPoint lands on the plane, is idempotent, and
   * the point is classified Neither for every tolerance.
   */
  lemma NearestPointOnPlane(plane: Plane, p: Vector, eps: real)
    requires LengthSquared(plane.normal) == 1.0
    ensures plane.Distance(plane.NearestPoint(p)) == 0.0
    ensures plane.NearestPoint(plane.NearestPoint(p)) == plane.NearestPoint(p)
    ensures eps >= 0.0 ==> plane.GetSide(plane.NearestPoint(p), eps) == Neither
  {
    DistanceAlongNormal(plane, p, -plane.Distance(p));
    var q := plane.NearestPoint(p);
    assert Scale(plane.normal, -plane.Distance(q)) == Scale(plane.normal, 0.0);
  }

  /**
   * GetCenter as written lies at distance 2 * dot from a unit-normal plane,
   * so on the plane only when dot == 0: for the plane z = 1 it answers
   * (0, 0, -1).
   */
  lemma GetCenterIsOffPlane(plane: Plane)
    requires LengthSquared(plane.normal) == 1.0
    ensures plane.Distance(plane.GetCenter()) == 2.0 * plane.dot
    ensures plane.Distance(plane.GetCenter()) == 0.0 <==> plane.dot == 0.0
  {
    DotScaleLeft(plane.normal, plane.dot, plane.normal);
  }

  lemma GetCenterCounterexample(plane: Plane)
    requires plane.normal == Vector(0.0, 0.0, 1.0) && plane.dot == -1.0
    ensures plane.GetCenter() == Vector(0.0, 0.0, -1.0)
    ensures plane.Distance(plane.GetCenter()) == -2.0
    ensures plane.GetCenterOnPlane() == Vector(0.0, 0.0, 1.0)
  {
  }

  /**
   * The corrected center lies on a unit-normal plane, and a plane set up by
   * SetCenterAndNormal gives back the foot of the perpendicular from the
   * origin.
   */
  lemma GetCenterOnPlaneIsOnPlane(plane: Plane)
    requires LengthSquared(plane.normal) == 1.0
    ensures plane.Distance(plane.GetCenterOnPlane()) == 0.0
    ensures plane.NearestPoint(Origin) == plane.GetCenterOnPlane()
  {
    DotScaleLeft(plane.normal, -plane.dot, plane.normal);
  }

  /** The interpolation weight of a crossing zeroes the interpolated distance. */
  lemma CrossingWeight(d0: real, d1: real)
    requires (d0 <= 0.0 && d1 >= 0.0) || (d1 <= 0.0 && d0 >= 0.0)
    requires Abs(d0) + Abs(d1) != 0.0
    ensures var t := Abs(d0) / (Abs(d0) + Abs(d1));
            0.0 <= t <= 1.0 && (1.0 - t) * d0 + t * d1 == 0.0
  {
    var a0, a1 := Abs(d0), Abs(d1);
    var sum := a0 + a1;
    var t := a0 / sum;
    assert t * sum == a0;
    assert (1.0 - t) * sum == a1;
    var e := (1.0 - t) * d0 + t * d1;
    assert e * sum == (1.0 - t) * sum * d0 + t * sum * d1;
    assert e * sum == a1 * d0 + a0 * d1;
    assert a1 * d0 + a0 * d1 == 0.0;
  }

  /**
   * A reported crossing lies on the segment, at a parameter in [0, 1], and
   * on the plane.
   */
  lemma IntersectOnSegmentAndPlane(plane: Plane, segment: LineSegment)
    requires plane.Intersect(segment).CrossingAt?
    ensures exists t: real :: 0.0 <= t <= 1.0
              && plane.Intersect(segment).point == Lerp(segment.v0, segment.v1, t)
    ensures plane.Distance(plane.Intersect(segment).point) == 0.0
  {
    var d0 := plane.Distance(segment.v0);
    var d1 := plane.Distance(segment.v1);
    CrossingWeight(d0, d1);
    var t := Abs(d0) / (Abs(d0) + Abs(d1));
    DotLerp(segment.v0, segment.v1, t, plane.normal);
  }
}
