/**
 * Surfaces (Surface.cpp): the side test, nearest surface point,
 * segment intersection and direct-path builder of the plane surface and
 * the sphere surface, and the generic divide-and-conquer path builder every
 * surface inherits.
 *
 * A surface point is a value: the handle of the surface that made it and
 * its location. The sphere's distance, ray cast and segment intersection
 * are not defined in the toolkit (ray casting is a stub answering 0), so
 * they are parameters here.
 */
module Surfaces {
  import opened Wrappers
  import opened Geometry
  import opened Planes

  /** `Surface::Side`. */
  datatype SurfaceSide = Inside | Outside | NeitherSide

  /** A point on a surface, tagged with the handle of that surface. */
  datatype SurfacePoint = SurfacePoint(surfaceHandle: int, location: Vector)

  /** Front of a plane is outside its surface, back is inside. */
  function SideOfPlane(side: Side): SurfaceSide {
    match side
    case Front => Outside
    case Back => Inside
    case Neither => NeitherSide
  }

  // ------------------------------------------------------ generic direct path

  /** `Surface::GetNearestSurfacePoint`: a surface point, or null. */
  type NearestOracle = Vector -> Option<SurfacePoint>

  /**
   * The chord from u to v passes the midpoint test: the surface point nearest
   * to its midpoint lies within `maxDistance` of that midpoint.
   */
  predicate ChordAccepted(u: Vector, v: Vector, maxDistance: real, nearest: NearestOracle) {
    var mid := LineSegment(u, v).Midpoint();
    nearest(mid).Some? && WithinDistance(nearest(mid).value.location, mid, maxDistance)
  }

  /**
   * The points the generic FindDirectPath appends from a to b: the chord
   * itself when it passes the midpoint test, otherwise the path to the
   * midpoint's surface point and on from there, that point listed once.
   * `depth` bounds the recursion; running out of it is a failure.
   */
  function DirectPath(a: Vector, b: Vector, maxDistance: real, nearest: NearestOracle, depth: nat): (r: Option<seq<Vector>>)
    ensures r.Some? ==> |r.value| >= 2 && r.value[0] == a && r.value[|r.value| - 1] == b
    decreases depth
  {
    var mid := LineSegment(a, b).Midpoint();
    match nearest(mid)
    case None => None
    case Some(surfacePoint) =>
      if WithinDistance(surfacePoint.location, mid, maxDistance) then Some([a, b])
      else if depth == 0 then None
      else
        match DirectPath(a, surfacePoint.location, maxDistance, nearest, depth - 1)
        case None => None
        case Some(pathA) =>
          match DirectPath(surfacePoint.location, b, maxDistance, nearest, depth - 1)
          case None => None
          case Some(pathB) =>
            JoinedEnds(pathA, pathB);
            Some(pathA[..|pathA| - 1] + pathB)
  }

  /** Joining two paths keeps the first one's start and the second one's end. */
  lemma JoinedEnds(pathA: seq<Vector>, pathB: seq<Vector>)
    requires |pathA| >= 2 && |pathB| >= 2
    ensures var path := pathA[..|pathA| - 1] + pathB;
            path[0] == pathA[0] && path[|path| - 1] == pathB[|pathB| - 1]
  {
  }

  /**
   * A found path whose chord failed the midpoint test is the join of the
   * two found halves through the midpoint's surface point m.
   */
  lemma DirectPathHalves(a: Vector, b: Vector, maxDistance: real, nearest: NearestOracle, depth: nat) returns (m: Vector)
    requires DirectPath(a, b, maxDistance, nearest, depth).Some?
    requires !ChordAccepted(a, b, maxDistance, nearest)
    ensures m == nearest(LineSegment(a, b).Midpoint()).value.location
    ensures depth > 0
    ensures DirectPath(a, m, maxDistance, nearest, depth - 1).Some? && DirectPath(m, b, maxDistance, nearest, depth - 1).Some?
    ensures DirectPath(a, b, maxDistance, nearest, depth).value
            == DirectPath(a, m, maxDistance, nearest, depth - 1).value[..|DirectPath(a, m, maxDistance, nearest, depth - 1).value| - 1]
               + DirectPath(m, b, maxDistance, nearest, depth - 1).value
    ensures |DirectPath(a, b, maxDistance, nearest, depth).value|
            == |DirectPath(a, m, maxDistance, nearest, depth - 1).value| + |DirectPath(m, b, maxDistance, nearest, depth - 1).value| - 1
  {
    m := nearest(LineSegment(a, b).Midpoint()).value.location;
  }

  /**
   * A found path whose chord from a to b failed the midpoint test passes
   * through the surface point nearest to that midpoint.
   */
  lemma DirectPathPassesThrough(a: Vector, b: Vector, maxDistance: real, nearest: NearestOracle, depth: nat)
    requires DirectPath(a, b, maxDistance, nearest, depth).Some?
    requires !ChordAccepted(a, b, maxDistance, nearest)
    ensures nearest(LineSegment(a, b).Midpoint()).value.location in DirectPath(a, b, maxDistance, nearest, depth).value
  {
    var m := DirectPathHalves(a, b, maxDistance, nearest, depth);
    var pathA := DirectPath(a, m, maxDistance, nearest, depth - 1).value;
    var pathB := DirectPath(m, b, maxDistance, nearest, depth - 1).value;
    assert (pathA[..|pathA| - 1] + pathB)[|pathA| - 1] == pathB[0] == m;
  }

  /** The chord case of DirectPath. */
  lemma DirectPathAccepts(a: Vector, b: Vector, maxDistance: real, nearest: NearestOracle, depth: nat)
    requires nearest(LineSegment(a, b).Midpoint()).Some?
    requires WithinDistance(nearest(LineSegment(a, b).Midpoint()).value.location, LineSegment(a, b).Midpoint(), maxDistance)
    ensures DirectPath(a, b, maxDistance, nearest, depth) == Some([a, b])
  {
  }

  /** The split case of DirectPath, from the two halves' results. */
  lemma DirectPathSplits(a: Vector, b: Vector, maxDistance: real, nearest: NearestOracle, depth: nat, m: Vector)
    requires nearest(LineSegment(a, b).Midpoint()).Some?
    requires m == nearest(LineSegment(a, b).Midpoint()).value.location
    requires !WithinDistance(m, LineSegment(a, b).Midpoint(), maxDistance) && depth > 0
    ensures DirectPath(a, m, maxDistance, nearest, depth - 1).None? ==> DirectPath(a, b, maxDistance, nearest, depth).None?
    ensures DirectPath(m, b, maxDistance, nearest, depth - 1).None? ==> DirectPath(a, b, maxDistance, nearest, depth).None?
    ensures DirectPath(a, m, maxDistance, nearest, depth - 1).Some? && DirectPath(m, b, maxDistance, nearest, depth - 1).Some? ==>
              var pathA := DirectPath(a, m, maxDistance, nearest, depth - 1).value;
              DirectPath(a, b, maxDistance, nearest, depth)
              == Some(pathA[..|pathA| - 1] + DirectPath(m, b, maxDistance, nearest, depth - 1).value)
  {
  }

  /**
   * Every chord of a found path passes the midpoint test: each pair of
   * consecutive points is an accepted chord.
   */
  lemma {:induction false} DirectPathChordsAccepted(a: Vector, b: Vector, maxDistance: real, nearest: NearestOracle, depth: nat)
    requires DirectPath(a, b, maxDistance, nearest, depth).Some?
    ensures var path := DirectPath(a, b, maxDistance, nearest, depth).value;
            forall i :: 0 <= i < |path| - 1 ==> ChordAccepted(path[i], path[i + 1], maxDistance, nearest)
    decreases depth
  {
    var path := DirectPath(a, b, maxDistance, nearest, depth).value;
    if ChordAccepted(a, b, maxDistance, nearest) {
      DirectPathAccepts(a, b, maxDistance, nearest, depth);
      assert path == [a, b];
    } else {
      var m := DirectPathHalves(a, b, maxDistance, nearest, depth);
      var pathA := DirectPath(a, m, maxDistance, nearest, depth - 1).value;
      var pathB := DirectPath(m, b, maxDistance, nearest, depth - 1).value;
      DirectPathChordsAccepted(a, m, maxDistance, nearest, depth - 1);
      DirectPathChordsAccepted(m, b, maxDistance, nearest, depth - 1);
      JoinKeepsChordsAccepted(pathA, pathB, maxDistance, nearest);
    }
  }

  /** Joining two paths that meet end to start keeps every chord accepted. */
  lemma JoinKeepsChordsAccepted(pathA: seq<Vector>, pathB: seq<Vector>, maxDistance: real, nearest: NearestOracle)
    requires |pathA| >= 2 && |pathB| >= 2 && pathA[|pathA| - 1] == pathB[0]
    requires forall i :: 0 <= i < |pathA| - 1 ==> ChordAccepted(pathA[i], pathA[i + 1], maxDistance, nearest)
    requires forall i :: 0 <= i < |pathB| - 1 ==> ChordAccepted(pathB[i], pathB[i + 1], maxDistance, nearest)
    ensures var path := pathA[..|pathA| - 1] + pathB;
            forall i :: 0 <= i < |path| - 1 ==> ChordAccepted(path[i], path[i + 1], maxDistance, nearest)
  {
    var path := pathA[..|pathA| - 1] + pathB;
    forall i | 0 <= i < |path| - 1
      ensures ChordAccepted(path[i], path[i + 1], maxDistance, nearest)
    {
      if i < |pathA| - 1 {
        assert path[i] == pathA[i];
        assert path[i + 1] == pathA[i + 1] by {
          if i + 1 == |pathA| - 1 {
            assert path[i + 1] == pathB[0];
          }
        }
      } else {
        var j := i - (|pathA| - 1);
        assert path[i] == pathB[j] && path[i + 1] == pathB[j + 1];
      }
    }
  }

  /** Appending two fresh halves, the first without its last point. */
  lemma SplitAppend(points: seq<Vector>, arrayA: seq<Vector>, arrayB: seq<Vector>, pathA: seq<Vector>, pathB: seq<Vector>)
    requires arrayA == [] + pathA && arrayB == [] + pathB && |pathA| >= 1
    ensures (points + arrayA[..|arrayA| - 1]) + arrayB == points + (pathA[..|pathA| - 1] + pathB)
  {
    assert arrayA == pathA && arrayB == pathB;
  }

  /** Appends the items one at a time, in order. */
  method PushBackAll(points: seq<Vector>, items: seq<Vector>) returns (newArray: seq<Vector>)
    ensures newArray == points + items
  {
    newArray := points;
    var i := 0;
    while i < |items|
      invariant 0 <= i <= |items|
      invariant newArray == points + items[..i]
    {
      newArray := newArray + [items[i]];
      i := i + 1;
    }
    assert items[..i] == items;
  }

  /**
   * `Surface::FindDirectPath`: appends the direct path from A to B to
   * `pointArray` (which it does not clear), or fails and leaves it as it was.
   */
  method FindDirectPath(surfacePointA: SurfacePoint, surfacePointB: SurfacePoint, pointArray: seq<Vector>,
                        maxDistanceFromSurface: real, nearest: NearestOracle, depth: nat)
    returns (success: bool, newArray: seq<Vector>)
    ensures success <==> DirectPath(surfacePointA.location, surfacePointB.location, maxDistanceFromSurface, nearest, depth).Some?
    ensures success ==>
              newArray == pointArray + DirectPath(surfacePointA.location, surfacePointB.location, maxDistanceFromSurface, nearest, depth).value
    ensures !success ==> newArray == pointArray
    decreases depth
  {
    success, newArray := false, pointArray;
    var lineSegment := LineSegment(surfacePointA.location, surfacePointB.location);
    var midPoint := lineSegment.Midpoint();
    var surfacePoint := nearest(midPoint);
    if surfacePoint.Some? {
      var location := surfacePoint.value.location;
      if WithinDistance(location, midPoint, maxDistanceFromSurface) {
        DirectPathAccepts(lineSegment.v0, lineSegment.v1, maxDistanceFromSurface, nearest, depth);
        newArray := newArray + [lineSegment.v0];
        newArray := newArray + [lineSegment.v1];
        success := true;
      } else if depth > 0 {
        DirectPathSplits(lineSegment.v0, lineSegment.v1, maxDistanceFromSurface, nearest, depth, location);
        var successA, pointArrayA := FindDirectPath(surfacePointA, surfacePoint.value, [], maxDistanceFromSurface, nearest, depth - 1);
        if successA {
          var successB, pointArrayB := FindDirectPath(surfacePoint.value, surfacePointB, [], maxDistanceFromSurface, nearest, depth - 1);
          if successB {
            newArray := PushBackAll(newArray, pointArrayA[..|pointArrayA| - 1]);
            newArray := PushBackAll(newArray, pointArrayB);
            SplitAppend(pointArray, pointArrayA, pointArrayB,
                        DirectPath(lineSegment.v0, location, maxDistanceFromSurface, nearest, depth - 1).value,
                        DirectPath(location, lineSegment.v1, maxDistanceFromSurface, nearest, depth - 1).value);
            success := true;
          }
        }
      }
    }
  }

  // ----------------------------------------------------------- plane surface

  class PlaneSurface {
    /** The surface's registry handle (`GetHandle()`). */
    const handle: int
    /** The surface's own copy of the plane. */
    const plane: Plane

    constructor (handle: int, plane: Plane)
      ensures this.handle == handle && fresh(this.plane)
      ensures this.plane.normal == plane.normal && this.plane.dot == plane.dot
    {
      this.handle := handle;
      this.plane := new Plane.Copy(plane);
    }

    function GetSide(point: Vector, eps: real): (side: SurfaceSide)
      reads plane
      ensures side == SideOfPlane(plane.GetSide(point, eps))
      ensures side == Outside <==> plane.Distance(point) > eps
      ensures eps >= 0.0 ==> (side == Inside <==> plane.Distance(point) < -eps)
    {
      var planeSide := plane.GetSide(point, eps);
      if planeSide == Front then Outside
      else if planeSide == Back then Inside
      else NeitherSide
    }

    /**
     * The projection of the point onto the plane, tagged with this surface;
     * with a unit normal it lies on the plane.
     */
    function GetNearestSurfacePoint(point: Vector): (r: SurfacePoint)
      reads plane
      ensures r.surfaceHandle == handle
      ensures r.location == plane.NearestPoint(point)
      ensures LengthSquared(plane.normal) == 1.0 ==>
                plane.Distance(r.location) == 0.0 && GetSide(r.location, 0.0) == NeitherSide
    {
      var nearestPoint := plane.NearestPoint(point);
      if LengthSquared(plane.normal) == 1.0 then
        NearestPointOnPlane(plane, point, 0.0);
        SurfacePoint(handle, nearestPoint)
      else
        SurfacePoint(handle, nearestPoint)
    }

    /**
     * Always answers a point, whatever the plane test says: the crossing when
     * there is one, otherwise the untouched local vector, `unset`.
     */
    function FindIntersection(segment: LineSegment, unset: Vector): (r: SurfacePoint)
      reads plane
      ensures r.surfaceHandle == handle
      ensures plane.Intersect(segment).CrossingAt? ==>
                r.location == plane.Intersect(segment).point && plane.Distance(r.location) == 0.0
      ensures plane.Intersect(segment) == NoCrossing ==> r.location == unset
    {
      match plane.Intersect(segment)
      case CrossingAt(p) =>
        IntersectOnSegmentAndPlane(plane, segment);
        SurfacePoint(handle, p)
      case _ => SurfacePoint(handle, unset)
    }

    /**
     * Fails, leaving `pointArray` alone, unless both points belong to this
     * surface; otherwise replaces its contents by the straight chord.
     */
    method FindDirectPath(surfacePointA: SurfacePoint, surfacePointB: SurfacePoint, pointArray: seq<Vector>,
                          maxDistanceFromSurface: real)
      returns (success: bool, newArray: seq<Vector>)
      ensures success <==> surfacePointA.surfaceHandle == handle && surfacePointB.surfaceHandle == handle
      ensures success ==> newArray == [surfacePointA.location, surfacePointB.location]
      ensures !success ==> newArray == pointArray
    {
      if surfacePointA.surfaceHandle != handle || surfacePointB.surfaceHandle != handle {
        return false, pointArray;
      }
      newArray := [];
      newArray := newArray + [surfacePointA.location];
      newArray := newArray + [surfacePointB.location];
      success := true;
    }
  }

  /**
   * On a plane with a unit normal the override agrees with the generic
   * algorithm: for two points on the plane and any non-negative tolerance,
   * the generic builder, asking this surface for nearest points, answers
   * the straight chord at once.
   */
  lemma PlaneOverrideAgreesWithGeneric(surface: PlaneSurface, a: Vector, b: Vector, maxDistance: real,
                                       nearest: NearestOracle, depth: nat)
    requires LengthSquared(surface.plane.normal) == 1.0
    requires surface.plane.Distance(a) == 0.0 && surface.plane.Distance(b) == 0.0
    requires maxDistance >= 0.0
    requires nearest(LineSegment(a, b).Midpoint()) == Some(surface.GetNearestSurfacePoint(LineSegment(a, b).Midpoint()))
    ensures DirectPath(a, b, maxDistance, nearest, depth) == Some([a, b])
  {
    var mid := LineSegment(a, b).Midpoint();
    DotLerp(a, b, 0.5, surface.plane.normal);
    assert surface.plane.Distance(mid) == 0.0;
    assert surface.plane.NearestPoint(mid) == Add(mid, Scale(surface.plane.normal, 0.0));
    assert Sub(mid, mid) == Origin;
  }

  // ---------------------------------------------------------- sphere surface

  /** What `Sphere::RayCast` and `Sphere::Intersect` report: a count and up to two points. */
  datatype SphereHits = SphereHits(count: int, point0: Vector, point1: Vector)

  /** The shipped `Sphere::RayCast`, which reports no hits. */
  function StubRayCast(point: Vector): SphereHits {
    SphereHits(0, Origin, Origin)
  }

  class SphereSurface {
    const handle: int

    constructor (handle: int)
      ensures this.handle == handle
    {
      this.handle := handle;
    }

    /**
     * `distance` is `Sphere::Distance(point)`. The point is outside above
     * `eps` and inside below `eps`: the neither-side band is the single
     * value `eps`, not the interval [-eps, eps] of the plane.
     */
    function GetSide(distance: real, eps: real): (side: SurfaceSide)
      ensures side == Outside <==> distance > eps
      ensures side == Inside <==> distance < eps
      ensures side == NeitherSide <==> distance == eps
    {
      if distance > eps then Outside
      else if distance < eps then Inside
      else NeitherSide
    }

    /**
     * `hits` is the ray cast from the point towards the sphere's center:
     * no hit gives null, otherwise the nearer of the reported points.
     */
    function GetNearestSurfacePoint(point: Vector, hits: SphereHits): (r: Option<SurfacePoint>)
      ensures r.None? <==> hits.count == 0
      ensures r.Some? ==> r.value.surfaceHandle == handle
      ensures r.Some? ==> r.value.location == hits.point0 || r.value.location == hits.point1
      ensures r.Some? && hits.count > 1 ==>
                LengthSquared(Sub(point, r.value.location)) <= LengthSquared(Sub(point, hits.point0))
                && LengthSquared(Sub(point, r.value.location)) <= LengthSquared(Sub(point, hits.point1))
      ensures r.Some? && hits.count <= 1 ==> r.value.location == hits.point0
    {
      if hits.count == 0 then None
      else if hits.count > 1 && LengthSquared(Sub(point, hits.point1)) < LengthSquared(Sub(point, hits.point0)) then
        Some(SurfacePoint(handle, hits.point1))
      else
        Some(SurfacePoint(handle, hits.point0))
    }

    /** A point only when the segment meets the sphere exactly once (a count other than 0 and 2). */
    function FindIntersection(hits: SphereHits): (r: Option<SurfacePoint>)
      ensures r.None? <==> hits.count == 0 || hits.count == 2
      ensures r.Some? ==> r.value == SurfacePoint(handle, hits.point0)
    {
      if hits.count == 0 || hits.count == 2 then None
      else Some(SurfacePoint(handle, hits.point0))
    }
  }

  /**
   * With the shipped ray cast the sphere surface never finds a nearest
   * point, so the generic path builder fails on a sphere for every pair of
   * points.
   */
  lemma SphereDirectPathFails(surface: SphereSurface, a: Vector, b: Vector, maxDistance: real,
                              nearest: NearestOracle, depth: nat)
    requires forall p :: nearest(p) == surface.GetNearestSurfacePoint(p, StubRayCast(p))
    ensures DirectPath(a, b, maxDistance, nearest, depth).None?
  {
    var mid := LineSegment(a, b).Midpoint();
    assert nearest(mid) == surface.GetNearestSurfacePoint(mid, StubRayCast(mid));
  }
}
