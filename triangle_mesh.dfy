/**
 * Triangle meshes (TriangleMesh.cpp): a vertex array and a list of index
 * triangles. Triangles are toggled in and out of the list by coincidence,
 * vertex positions are read and written with a bounds check, and the convex
 * hull search starts by clearing the list and moving every vertex after
 * the fourth into a point cloud.
 */
module TriangleMeshes {
  import opened Wrappers
  import opened Geometry
  import opened IndexTriangles

  /** The first listed triangle that `given` coincides with, if any. */
  function FirstCoincident(list: seq<IndexTriangle>, given: IndexTriangle): (r: Option<nat>)
    ensures r.Some? ==> r.value < |list| && given.IndexSet() <= list[r.value].IndexSet()
    ensures r.Some? ==> forall k :: 0 <= k < r.value ==> !(given.IndexSet() <= list[k].IndexSet())
    ensures r.None? ==> forall k :: 0 <= k < |list| ==> !(given.IndexSet() <= list[k].IndexSet())
  {
    if list == [] then None
    else if given.IndexSet() <= list[0].IndexSet() then Some(0)
    else
      match FirstCoincident(list[1..], given)
      case None => None
      case Some(j) => Some(j + 1)
  }

  /**
   * The list after AddOrRemoveTriangle: the first triangle `given` coincides
   * with is erased, or else `given` is appended.
   */
  function Toggled(list: seq<IndexTriangle>, given: IndexTriangle): seq<IndexTriangle> {
    match FirstCoincident(list, given)
    case Some(j) => list[..j] + list[j + 1..]
    case None => list + [given]
  }

  /** The list grows by one exactly when nothing coincides, and shrinks by one otherwise. */
  lemma ToggledLength(list: seq<IndexTriangle>, given: IndexTriangle)
    ensures (forall k :: 0 <= k < |list| ==> !(given.IndexSet() <= list[k].IndexSet())) <==> |Toggled(list, given)| == |list| + 1
    ensures (exists k :: 0 <= k < |list| && given.IndexSet() <= list[k].IndexSet()) <==> |Toggled(list, given)| == |list| - 1
  {
    var r := FirstCoincident(list, given);
    if r.Some? {
      var j := r.value;
      assert |list[..j] + list[j + 1..]| == |list| - 1;
      assert given.IndexSet() <= list[j].IndexSet();
    } else {
      assert Toggled(list, given) == list + [given];
    }
  }

  /**
   * Toggling a triangle that coincides with nothing listed appends it, and
   * toggling it again erases it: the list is back as it was.
   */
  lemma ToggleTwice(list: seq<IndexTriangle>, given: IndexTriangle)
    requires forall k :: 0 <= k < |list| ==> !(given.IndexSet() <= list[k].IndexSet())
    ensures Toggled(Toggled(list, given), given) == list
  {
    var once := Toggled(list, given);
    assert once == list + [given];
    var r := FirstCoincident(once, given);
    assert given.IndexSet() <= once[|list|].IndexSet();
    assert r.Some? && r.value == |list|;
    assert once[..|list|] == list && once[|list| + 1..] == [];
  }

  /** The vertex array with the position of vertex `index` replaced. */
  function WithPosition(vertexArray: seq<Vertex>, index: int, position: Vector): seq<Vertex>
    requires InBounds(index, |vertexArray|)
  {
    vertexArray[index := vertexArray[index].(position := position)]
  }

  /** The position of vertex `index`, or nothing when the index is out of bounds. */
  function PositionAt(vertexArray: seq<Vertex>, index: int): Option<Vector> {
    if InBounds(index, |vertexArray|) then Some(vertexArray[index].position) else None
  }

  /**
   * Reading back a written position gives the written position; every other
   * vertex, and every other field of the written one, is as it was.
   */
  lemma GetAfterSet(vertexArray: seq<Vertex>, index: int, position: Vector, other: int)
    requires InBounds(index, |vertexArray|)
    ensures PositionAt(WithPosition(vertexArray, index, position), index) == Some(position)
    ensures other != index ==> PositionAt(WithPosition(vertexArray, index, position), other) == PositionAt(vertexArray, other)
    ensures |WithPosition(vertexArray, index, position)| == |vertexArray|
    ensures forall k :: 0 <= k < |vertexArray| && k != index ==> WithPosition(vertexArray, index, position)[k] == vertexArray[k]
    ensures WithPosition(vertexArray, index, position)[index].(position := vertexArray[index].position) == vertexArray[index]
  {
  }

  /** The positions of the vertices, last vertex first. */
  function PositionsFromBack(vertices: seq<Vertex>): (r: seq<Vector>)
    ensures |r| == |vertices|
    ensures forall k :: 0 <= k < |r| ==> r[k] == vertices[|vertices| - 1 - k].position
  {
    if vertices == [] then []
    else PositionsFromBack(vertices[1..]) + [vertices[0].position]
  }

  class TriangleMesh {
    var vertexArray: seq<Vertex>
    var triangleList: seq<IndexTriangle>

    constructor ()
      ensures vertexArray == [] && triangleList == []
    {
      vertexArray := [];
      triangleList := [];
    }

    method Clear()
      modifies this
      ensures vertexArray == [] && triangleList == []
    {
      vertexArray := [];
      triangleList := [];
    }

    /**
     * Walks the list for the first triangle `given` coincides with and
     * erases it; if there is none, appends `given`.
     */
    method AddOrRemoveTriangle(given: IndexTriangle)
      modifies this
      ensures triangleList == Toggled(old(triangleList), given)
      ensures vertexArray == old(vertexArray)
    {
      var i := 0;
      while i < |triangleList|
        invariant 0 <= i <= |triangleList|
        invariant triangleList == old(triangleList) && vertexArray == old(vertexArray)
        invariant forall k :: 0 <= k < i ==> !(given.IndexSet() <= triangleList[k].IndexSet())
      {
        var coincident := CoincidentWith(given, triangleList[i]);
        if coincident {
          assert FirstCoincident(triangleList, given) == Some(i);
          triangleList := triangleList[..i] + triangleList[i + 1..];
          return;
        }
        i := i + 1;
      }
      triangleList := triangleList + [given];
    }

    /** Fails, changing nothing, when the index is out of bounds. */
    method SetVertexPosition(index: int, position: Vector) returns (success: bool)
      modifies this
      ensures success <==> InBounds(index, |old(vertexArray)|)
      ensures success ==> vertexArray == WithPosition(old(vertexArray), index, position)
      ensures !success ==> vertexArray == old(vertexArray)
      ensures triangleList == old(triangleList)
    {
      if index < 0 || index >= |vertexArray| {
        return false;
      }
      vertexArray := vertexArray[index := vertexArray[index].(position := position)];
      return true;
    }

    /**
     * Fails, leaving `position` as it was, when the index is out of bounds;
     * otherwise gives the vertex's position.
     */
    method GetVertexPosition(index: int, position: Vector) returns (success: bool, result: Vector)
      ensures success <==> PositionAt(vertexArray, index).Some?
      ensures success ==> result == PositionAt(vertexArray, index).value
      ensures !success ==> result == position
    {
      if index < 0 || index >= |vertexArray| {
        return false, position;
      }
      return true, vertexArray[index].position;
    }

    /**
     * The start of FindConvexHull: with fewer than four vertices it fails and
     * changes nothing; otherwise it clears the triangle list and pops every
     * vertex after the fourth, pushing its position onto the point cloud.
     */
    method FindConvexHullSetup() returns (success: bool, pointCloud: seq<Vector>)
      modifies this
      ensures success <==> |old(vertexArray)| >= 4
      ensures !success ==> vertexArray == old(vertexArray) && triangleList == old(triangleList) && pointCloud == []
      ensures success ==> triangleList == [] && vertexArray == old(vertexArray)[..4]
      ensures success ==> pointCloud == PositionsFromBack(old(vertexArray)[4..])
    {
      pointCloud := [];
      if |vertexArray| < 4 {
        return false, pointCloud;
      }
      triangleList := [];
      while |vertexArray| > 4
        invariant 4 <= |vertexArray| <= |old(vertexArray)|
        invariant vertexArray == old(vertexArray)[..|vertexArray|]
        invariant pointCloud == PositionsFromBack(old(vertexArray)[|vertexArray|..])
        invariant triangleList == []
      {
        var n := |vertexArray|;
        ghost var tail := old(vertexArray)[n - 1..];
        assert tail[0] == vertexArray[n - 1] && tail[1..] == old(vertexArray)[n..];
        pointCloud := pointCloud + [vertexArray[n - 1].position];
        vertexArray := vertexArray[..n - 1];
      }
      return true, pointCloud;
    }
  }
}
