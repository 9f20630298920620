/**
 * Index triangles (IndexTriangle.cpp, and the identical nested class of
 * TriangleMesh.cpp): three indices into a vertex array, the membership and
 * coincidence tests, and the bounds-checked lookup of the corner positions.
 *
 * `BoundsCheck` is not part of this model; it is taken to accept exactly the
 * indices `0 <= j < size` of the array it is given.
 */
module IndexTriangles {
  import opened Geometry
  import opened Planes

  /**
   * A mesh vertex: position and normal (`TriangleMesh::Vertex`), plus the
   * colour and texture coordinates u, v that the PLY reader fills in.
   */
  datatype Vertex = Vertex(position: Vector, normal: Vector, color: Vector, u: real, v: real)

  /** A default-constructed vertex: every component zero. */
  const DefaultVertex := Vertex(Origin, Origin, Origin, 0.0, 0.0)

  /** Three vertex indices (`IndexTriangle::vertex[3]`). */
  datatype IndexTriangle = IndexTriangle(v0: int, v1: int, v2: int) {
    function Index(i: nat): int
      requires i < 3
    {
      if i == 0 then v0 else if i == 1 then v1 else v2
    }

    function Indices(): seq<int> {
      [v0, v1, v2]
    }

    function IndexSet(): set<int> {
      {v0, v1, v2}
    }
  }

  /** The default constructor's triangle. */
  const DefaultIndexTriangle := IndexTriangle(0, 0, 0)

  /** The default triangle has the vertex 0 and no other. */
  lemma DefaultHasOnlyVertexZero(index: int)
    ensures index in DefaultIndexTriangle.Indices() <==> index == 0
  {
  }

  /** Scans the three indices for `index`. */
  method HasVertex(t: IndexTriangle, index: int) returns (r: bool)
    ensures r <==> index in t.Indices()
  {
    for i := 0 to 3
      invariant forall k :: 0 <= k < i ==> t.Index(k) != index
    {
      if t.Index(i) == index {
        return true;
      }
    }
    assert t.Indices() == [t.Index(0), t.Index(1), t.Index(2)];
    return false;
  }

  /**
   * Checks that each index of `t` is an index of `other`; order and
   * repetition do not matter.
   */
  method CoincidentWith(t: IndexTriangle, other: IndexTriangle) returns (r: bool)
    ensures r <==> t.IndexSet() <= other.IndexSet()
  {
    for i := 0 to 3
      invariant forall k :: 0 <= k < i ==> t.Index(k) in other.IndexSet()
    {
      var has := HasVertex(other, t.Index(i));
      if !has {
        return false;
      }
    }
    assert t.IndexSet() == {t.Index(0), t.Index(1), t.Index(2)};
    return true;
  }

  /** Every triangle coincides with itself. */
  lemma CoincidentReflexive(t: IndexTriangle)
    ensures t.IndexSet() <= t.IndexSet()
  {
  }

  /** Reordering the other triangle's indices does not change coincidence. */
  lemma CoincidentIgnoresOrder(t: IndexTriangle, other: IndexTriangle, reordered: IndexTriangle)
    requires multiset(reordered.Indices()) == multiset(other.Indices())
    ensures t.IndexSet() <= other.IndexSet() <==> t.IndexSet() <= reordered.IndexSet()
  {
    assert forall k :: k in other.IndexSet() <==> k in multiset(other.Indices());
    assert forall k :: k in reordered.IndexSet() <==> k in multiset(reordered.Indices());
  }

  /** With a repeated index, coincidence is not symmetric. */
  lemma CoincidentNotSymmetric()
    ensures IndexTriangle(1, 1, 2).IndexSet() <= IndexTriangle(1, 2, 3).IndexSet()
    ensures !(IndexTriangle(1, 2, 3).IndexSet() <= IndexTriangle(1, 1, 2).IndexSet())
  {
    assert 3 !in IndexTriangle(1, 1, 2).IndexSet();
  }

  /** Between triangles of three distinct indices, coincidence is symmetric. */
  lemma CoincidentSymmetricWhenDistinct(t: IndexTriangle, other: IndexTriangle)
    requires t.v0 != t.v1 && t.v0 != t.v2 && t.v1 != t.v2
    requires other.v0 != other.v1 && other.v0 != other.v2 && other.v1 != other.v2
    requires t.IndexSet() <= other.IndexSet()
    ensures other.IndexSet() <= t.IndexSet()
  {
    var a, b := t.IndexSet(), other.IndexSet();
    assert |a| == 3 && |b| == 3;
    assert |b - a| == |b| - |a|;
    assert b - a == {};
    assert forall k :: k in b ==> k in a by {
      forall k | k in b ensures k in a {
        assert k !in b - a;
      }
    }
  }

  /** `BoundsCheck(j, array)` for an array of `size` elements. */
  predicate InBounds(j: int, size: int) {
    0 <= j < size
  }

  /** The position of the first index that fails the bounds check, or 3. */
  function FirstOutOfBounds(t: IndexTriangle, size: int): (r: nat)
    ensures r <= 3
    ensures forall k :: 0 <= k < r ==> InBounds(t.Index(k), size)
    ensures r < 3 ==> !InBounds(t.Index(r), size)
  {
    if !InBounds(t.v0, size) then 0
    else if !InBounds(t.v1, size) then 1
    else if !InBounds(t.v2, size) then 2
    else 3
  }

  /** All three indices pass exactly when none fails first. */
  lemma AllInBounds(t: IndexTriangle, size: int)
    ensures FirstOutOfBounds(t, size) == 3 <==> forall k :: 0 <= k < 3 ==> InBounds(t.Index(k), size)
  {
    if FirstOutOfBounds(t, size) < 3 {
      assert !InBounds(t.Index(FirstOutOfBounds(t, size)), size);
    }
  }

  /**
   * Writes corner i of `triangle` from the indexed vector, corner by corner,
   * and stops at the first index out of bounds: the corners before it are
   * already written, the rest keep their old values.
   */
  method GetTriangle(t: IndexTriangle, triangle: Triangle, vertexArray: seq<Vector>)
    returns (success: bool, written: Triangle)
    ensures success <==> FirstOutOfBounds(t, |vertexArray|) == 3
    ensures forall k :: 0 <= k < FirstOutOfBounds(t, |vertexArray|) ==> written.Vertex(k) == vertexArray[t.Index(k)]
    ensures forall k :: FirstOutOfBounds(t, |vertexArray|) <= k < 3 ==> written.Vertex(k) == triangle.Vertex(k)
  {
    written := triangle;
    for i := 0 to 3
      invariant i <= FirstOutOfBounds(t, |vertexArray|)
      invariant forall k :: 0 <= k < i ==> written.Vertex(k) == vertexArray[t.Index(k)]
      invariant forall k :: i <= k < 3 ==> written.Vertex(k) == triangle.Vertex(k)
    {
      var j := t.Index(i);
      if !InBounds(j, |vertexArray|) {
        return false, written;
      }
      written := written.WithVertex(i, vertexArray[j]);
    }
    return true, written;
  }

  /** The overload over mesh vertices: the same, with each vertex's position. */
  method GetTriangleOfVertices(t: IndexTriangle, triangle: Triangle, vertexArray: seq<Vertex>)
    returns (success: bool, written: Triangle)
    ensures success <==> FirstOutOfBounds(t, |vertexArray|) == 3
    ensures forall k :: 0 <= k < FirstOutOfBounds(t, |vertexArray|) ==> written.Vertex(k) == vertexArray[t.Index(k)].position
    ensures forall k :: FirstOutOfBounds(t, |vertexArray|) <= k < 3 ==> written.Vertex(k) == triangle.Vertex(k)
  {
    written := triangle;
    for i := 0 to 3
      invariant i <= FirstOutOfBounds(t, |vertexArray|)
      invariant forall k :: 0 <= k < i ==> written.Vertex(k) == vertexArray[t.Index(k)].position
      invariant forall k :: i <= k < 3 ==> written.Vertex(k) == triangle.Vertex(k)
    {
      var j := t.Index(i);
      if !InBounds(j, |vertexArray|) {
        return false, written;
      }
      written := written.WithVertex(i, vertexArray[j].position);
    }
    return true, written;
  }

  /**
   * Fails, leaving the plane alone, exactly when the triangle lookup fails;
   * otherwise sets the plane through corner 0 with the triangle's unit
   * normal (`Triangle::GetPlane`), so corner 0 lies on it. The unit normal
   * (a cross product, normalised) is supplied by the caller.
   */
  method GetPlane(t: IndexTriangle, plane: Plane, vertexArray: seq<Vertex>, unitNormalOf: Triangle -> Vector)
    returns (success: bool)
    modifies plane
    ensures success <==> FirstOutOfBounds(t, |vertexArray|) == 3
    ensures !success ==> plane.normal == old(plane.normal) && plane.dot == old(plane.dot)
    ensures success ==>
              var triangle := Triangle(vertexArray[t.v0].position, vertexArray[t.v1].position, vertexArray[t.v2].position);
              plane.normal == unitNormalOf(triangle) && plane.Distance(triangle.v0) == 0.0
  {
    var triangle := Triangle(Origin, Origin, Origin);
    success, triangle := GetTriangleOfVertices(t, triangle, vertexArray);
    if !success {
      return;
    }
    assert triangle.Vertex(0) == triangle.v0 && triangle.Vertex(1) == triangle.v1 && triangle.Vertex(2) == triangle.v2;
    plane.SetCenterAndNormal(triangle.v0, unitNormalOf(triangle));
  }
}
