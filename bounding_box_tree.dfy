/**
 * The bounding-box tree (BoundingBoxTree.cpp): a binary tree of boxes built
 * to a fixed depth, with triangles inserted first-fit and a first-hit
 * segment query.
 *
 * `Tree` is the value of a subtree; the class `Node` is the heap node whose
 * `triangleList` the insertion appends to in place, and keeps a ghost copy
 * of its value in `model`. A node's children are either both present or
 * both null (CreateNode makes them together); the source dereferences them
 * without a null check, so a call that would reach a missing child is
 * excluded by `InsertDefined` and `FindDefined`.
 */
module BoxTrees {
  import opened Wrappers
  import opened Geometry
  import opened Boxes

  datatype Tree =
    | Leaf(box: Box, triangles: seq<Triangle>)
    | Branch(box: Box, triangles: seq<Triangle>, child0: Tree, child1: Tree)

  /** Number of nodes. */
  function Size(t: Tree): nat {
    match t
    case Leaf(_, _) => 1
    case Branch(_, _, c0, c1) => 1 + Size(c0) + Size(c1)
  }

  function Pow2(n: nat): nat {
    if n == 0 then 1 else 2 * Pow2(n - 1)
  }

  /** Every triangle stored anywhere in the subtree, node before children. */
  function AllTriangles(t: Tree): seq<Triangle> {
    match t
    case Leaf(_, ts) => ts
    case Branch(_, ts, c0, c1) => ts + AllTriangles(c0) + AllTriangles(c1)
  }

  /** The triangles stored in leaves only. */
  function LeafTriangles(t: Tree): seq<Triangle> {
    match t
    case Leaf(_, ts) => ts
    case Branch(_, _, c0, c1) => LeafTriangles(c0) + LeafTriangles(c1)
  }

  /** Every node's own triangles lie in that node's box. */
  predicate WellPlaced(t: Tree) {
    && (forall tri :: tri in t.triangles ==> t.box.ContainsTriangle(tri))
    && (t.Branch? ==> WellPlaced(t.child0) && WellPlaced(t.child1))
  }

  /** The tree with its triangle lists emptied: its boxes and its shape. */
  function Shape(t: Tree): Tree {
    match t
    case Leaf(b, _) => Leaf(b, [])
    case Branch(b, _, c0, c1) => Branch(b, [], Shape(c0), Shape(c1))
  }

  // ---------------------------------------------------------------- building

  /**
   * The value CreateNode(box, depth) builds: a node holding `box`, and two
   * children of depth `depth - 1` when `depth > 1`. The children receive the
   * two boxes SplitInTwo leaves behind, which are still default boxes.
   */
  function Build(box: Box, depth: int): Tree
    decreases depth
  {
    if depth > 1 then
      var halves := box.SplitInTwo(DefaultBox, DefaultBox);
      Branch(box, [], Build(halves.0, depth - 1), Build(halves.1, depth - 1))
    else
      Leaf(box, [])
  }

  /** A tree built to depth d >= 1 has 2^d - 1 nodes, all of them empty. */
  lemma {:induction false} BuildSize(box: Box, depth: int)
    ensures Size(Build(box, depth)) == if depth >= 1 then Pow2(depth) - 1 else 1
    ensures AllTriangles(Build(box, depth)) == []
    decreases depth
  {
    if depth > 1 {
      BuildSize(DefaultBox, depth - 1);
    }
  }

  /** Every node below the root of a built tree holds the default box. */
  predicate ChildBoxesDefault(t: Tree) {
    t.Branch? ==> t.child0.box == DefaultBox && t.child1.box == DefaultBox
                  && ChildBoxesDefault(t.child0) && ChildBoxesDefault(t.child1)
  }

  lemma {:induction false} BuildChildBoxesDefault(box: Box, depth: int)
    ensures Build(box, depth).box == box
    ensures Build(box, depth).Branch? <==> depth > 1
    ensures ChildBoxesDefault(Build(box, depth))
    decreases depth
  {
    if depth > 1 {
      BuildChildBoxesDefault(DefaultBox, depth - 1);
    }
  }

  // --------------------------------------------------------------- insertion

  datatype Inserted = Inserted(tree: Tree, ok: bool)

  /**
   * The insertion never reaches a missing child: whenever a node's box
   * contains the triangle, the node has children, and child 1 is asked only
   * after child 0 refused.
   */
  predicate InsertDefined(t: Tree, tri: Triangle)
    decreases t, 0
  {
    t.box.ContainsTriangle(tri) ==>
      && t.Branch?
      && InsertDefined(t.child0, tri)
      && (Insert(t.child0, tri).ok || InsertDefined(t.child1, tri))
  }

  /** Node::InsertTriangle on a subtree value. */
  function Insert(t: Tree, tri: Triangle): (r: Inserted)
    requires InsertDefined(t, tri)
    ensures r.ok == t.box.ContainsTriangle(tri)
    ensures !r.ok ==> r.tree == t
    decreases t, 1
  {
    if !t.box.ContainsTriangle(tri) then
      Inserted(t, false)
    else
      var r0 := Insert(t.child0, tri);
      if r0.ok then
        Inserted(Branch(t.box, t.triangles, r0.tree, t.child1), true)
      else
        var r1 := Insert(t.child1, tri);
        if r1.ok then
          Inserted(Branch(t.box, t.triangles, t.child0, r1.tree), true)
        else
          Inserted(Branch(t.box, t.triangles + [tri], t.child0, t.child1), true)
  }

  /**
   * An accepted triangle is stored exactly once more in the subtree; a
   * refused one leaves the subtree as it was.
   */
  lemma {:induction false} InsertAddsOnce(t: Tree, tri: Triangle)
    requires InsertDefined(t, tri)
    ensures multiset(AllTriangles(Insert(t, tri).tree))
            == multiset(AllTriangles(t)) + if Insert(t, tri).ok then multiset{tri} else multiset{}
  {
    if t.box.ContainsTriangle(tri) {
      InsertAddsOnce(t.child0, tri);
      if !Insert(t.child0, tri).ok {
        InsertAddsOnce(t.child1, tri);
      }
    }
  }

  /** Insertion keeps every stored triangle inside its node's box. */
  lemma {:induction false} InsertKeepsWellPlaced(t: Tree, tri: Triangle)
    requires InsertDefined(t, tri)
    requires WellPlaced(t)
    ensures WellPlaced(Insert(t, tri).tree)
  {
    if t.box.ContainsTriangle(tri) {
      InsertKeepsWellPlaced(t.child0, tri);
      if !Insert(t.child0, tri).ok {
        InsertKeepsWellPlaced(t.child1, tri);
      }
    }
  }

  /** Insertion changes no box and no child link, and never a leaf's list. */
  lemma {:induction false} InsertKeepsShape(t: Tree, tri: Triangle)
    requires InsertDefined(t, tri)
    ensures Shape(Insert(t, tri).tree) == Shape(t)
    ensures LeafTriangles(Insert(t, tri).tree) == LeafTriangles(t)
  {
    if t.box.ContainsTriangle(tri) {
      InsertKeepsShape(t.child0, tri);
      if !Insert(t.child0, tri).ok {
        InsertKeepsShape(t.child1, tri);
      }
    }
  }

  /** The degenerate triangle with all three corners at the origin. */
  const OriginTriangle: Triangle := Triangle(Origin, Origin, Origin)

  /**
   * In a tree built to depth >= 2, any triangle other than the origin
   * triangle that the root box contains is stored in the root's own list,
   * because every child holds the default box.
   */
  lemma InsertIntoBuiltTreeStoresAtRoot(box: Box, depth: int, tri: Triangle)
    requires depth > 1
    requires tri != OriginTriangle
    ensures InsertDefined(Build(box, depth), tri)
    ensures var t := Build(box, depth);
            Insert(t, tri) == if box.ContainsTriangle(tri)
                              then Inserted(Branch(box, [tri], t.child0, t.child1), true)
                              else Inserted(t, false)
  {
    BuildChildBoxesDefault(box, depth);
    var t := Build(box, depth);
    assert !DefaultBox.ContainsTriangle(tri) by {
      DefaultBoxContainsOnlyOrigin(tri.v0);
      DefaultBoxContainsOnlyOrigin(tri.v1);
      DefaultBoxContainsOnlyOrigin(tri.v2);
    }
    assert InsertDefined(t.child0, tri) && InsertDefined(t.child1, tri);
    assert Insert(t.child0, tri) == Inserted(t.child0, false);
    assert Insert(t.child1, tri) == Inserted(t.child1, false);
    assert t.triangles + [tri] == [tri];
  }

  /**
   * Inserting the origin triangle into a tree built to depth >= 1 whose root
   * box contains the origin always reaches a leaf that contains it, where
   * the source dereferences a null child.
   */
  lemma {:induction false} OriginTriangleReachesNullChild(box: Box, depth: int)
    requires depth >= 1
    requires box.ContainsPoint(Origin)
    ensures !InsertDefined(Build(box, depth), OriginTriangle)
    decreases depth
  {
    if depth > 1 {
      OriginTriangleReachesNullChild(DefaultBox, depth - 1);
    }
  }

  // ------------------------------------------------------------------- query

  /** A reported intersection: the triangle hit and the point of the hit. */
  datatype Hit = Hit(triangle: Triangle, point: Vector)

  /** `Triangle::Intersect`, supplied by the caller: the hit point, if any. */
  type IntersectOracle = (Triangle, LineSegment) -> Option<Vector>

  /** The first triangle of the list that the segment hits. */
  function FirstHit(ts: seq<Triangle>, seg: LineSegment, intersect: IntersectOracle): (r: Option<Hit>)
    ensures r.Some? ==> r.value.triangle in ts
  {
    if ts == [] then None
    else match intersect(ts[0], seg)
      case Some(p) => Some(Hit(ts[0], p))
      case None => FirstHit(ts[1..], seg, intersect)
  }

  /** FirstHit reports a triangle of the list that is hit, or says that none is. */
  lemma {:induction false} FirstHitSound(ts: seq<Triangle>, seg: LineSegment, intersect: IntersectOracle)
    ensures FirstHit(ts, seg, intersect).Some? ==>
              && FirstHit(ts, seg, intersect).value.triangle in ts
              && intersect(FirstHit(ts, seg, intersect).value.triangle, seg) == Some(FirstHit(ts, seg, intersect).value.point)
    ensures FirstHit(ts, seg, intersect).None? ==> forall tri :: tri in ts ==> intersect(tri, seg).None?
  {
    if ts != [] && intersect(ts[0], seg).None? {
      FirstHitSound(ts[1..], seg, intersect);
      assert forall tri :: tri in ts ==> tri == ts[0] || tri in ts[1..];
    }
  }

  lemma {:induction false} FirstHitAppend(a: seq<Triangle>, b: seq<Triangle>, seg: LineSegment, intersect: IntersectOracle)
    ensures FirstHit(a + b, seg, intersect)
            == if FirstHit(a, seg, intersect).Some? then FirstHit(a, seg, intersect) else FirstHit(b, seg, intersect)
  {
    if a != [] {
      assert (a + b)[0] == a[0] && (a + b)[1..] == a[1..] + b;
      FirstHitAppend(a[1..], b, seg, intersect);
    } else {
      assert a + b == b;
    }
  }

  /**
   * The query never reaches a missing child: a node whose box contains the
   * segment and whose own list has no hit has children to search.
   */
  predicate FindDefined(t: Tree, seg: LineSegment, intersect: IntersectOracle)
    decreases t, 0
  {
    (t.box.ContainsLineSegment(seg) && FirstHit(t.triangles, seg, intersect).None?) ==>
      && t.Branch?
      && FindDefined(t.child0, seg, intersect)
      && (Find(t.child0, seg, intersect).Some? || FindDefined(t.child1, seg, intersect))
  }

  /** Node::FindIntersection on a subtree value. */
  function Find(t: Tree, seg: LineSegment, intersect: IntersectOracle): (r: Option<Hit>)
    requires FindDefined(t, seg, intersect)
    ensures !t.box.ContainsLineSegment(seg) ==> r.None?
    decreases t, 1
  {
    if !t.box.ContainsLineSegment(seg) then None
    else if FirstHit(t.triangles, seg, intersect).Some? then FirstHit(t.triangles, seg, intersect)
    else
      var r0 := Find(t.child0, seg, intersect);
      if r0.Some? then r0 else Find(t.child1, seg, intersect)
  }

  /**
   * The triangles the query looks at, in the order it looks at them: a
   * node's own list, then child 0's, then child 1's, skipping every subtree
   * whose box does not contain the segment.
   */
  function Visible(t: Tree, seg: LineSegment): seq<Triangle> {
    if !t.box.ContainsLineSegment(seg) then []
    else match t
      case Leaf(_, ts) => ts
      case Branch(_, ts, c0, c1) => ts + Visible(c0, seg) + Visible(c1, seg)
  }

  /** The query reports exactly the first hit among the visible triangles. */
  lemma {:induction false} FindIsFirstVisibleHit(t: Tree, seg: LineSegment, intersect: IntersectOracle)
    requires FindDefined(t, seg, intersect)
    ensures Find(t, seg, intersect) == FirstHit(Visible(t, seg), seg, intersect)
  {
    if t.box.ContainsLineSegment(seg) && t.Branch? {
      var own := t.triangles;
      var v0 := Visible(t.child0, seg);
      var v1 := Visible(t.child1, seg);
      assert Visible(t, seg) == own + (v0 + v1);
      FirstHitAppend(own, v0 + v1, seg, intersect);
      FirstHitAppend(v0, v1, seg, intersect);
      if FirstHit(own, seg, intersect).None? {
        FindIsFirstVisibleHit(t.child0, seg, intersect);
        if Find(t.child0, seg, intersect).None? {
          FindIsFirstVisibleHit(t.child1, seg, intersect);
        }
      }
    }
  }

  /** Every visible triangle is stored in the subtree. */
  lemma {:induction false} VisibleAreStored(t: Tree, seg: LineSegment)
    ensures forall tri :: tri in Visible(t, seg) ==> tri in AllTriangles(t)
  {
    if t.Branch? {
      VisibleAreStored(t.child0, seg);
      VisibleAreStored(t.child1, seg);
    }
  }

  /**
   * A reported hit names a triangle stored in the subtree that the segment
   * really hits at the reported point; no report means no visible triangle
   * is hit.
   */
  lemma FindReportsStoredHit(t: Tree, seg: LineSegment, intersect: IntersectOracle)
    requires FindDefined(t, seg, intersect)
    ensures Find(t, seg, intersect).Some? ==>
              && Find(t, seg, intersect).value.triangle in AllTriangles(t)
              && intersect(Find(t, seg, intersect).value.triangle, seg) == Some(Find(t, seg, intersect).value.point)
    ensures Find(t, seg, intersect).None? ==> forall tri :: tri in Visible(t, seg) ==> intersect(tri, seg).None?
  {
    FindIsFirstVisibleHit(t, seg, intersect);
    FirstHitSound(Visible(t, seg), seg, intersect);
    VisibleAreStored(t, seg);
  }

  // ------------------------------------------------------------ whole trees

  /** BoundingBoxTree::InsertTriangle: false when there is no root. */
  predicate RootInsertDefined(root: Option<Tree>, tri: Triangle) {
    root.Some? ==> InsertDefined(root.value, tri)
  }

  datatype RootInserted = RootInserted(root: Option<Tree>, ok: bool)

  function RootInsert(root: Option<Tree>, tri: Triangle): (r: RootInserted)
    requires RootInsertDefined(root, tri)
    ensures root.None? ==> r == RootInserted(None, false)
  {
    match root
    case None => RootInserted(None, false)
    case Some(t) => var i := Insert(t, tri); RootInserted(Some(i.tree), i.ok)
  }

  function AllStored(root: Option<Tree>): seq<Triangle> {
    match root
    case None => []
    case Some(t) => AllTriangles(t)
  }

  /** Each triangle of the list can be inserted without reaching a null child. */
  predicate InsertListDefined(root: Option<Tree>, ts: seq<Triangle>)
    decreases |ts|
  {
    ts != [] ==>
      && RootInsertDefined(root, ts[0])
      && (RootInsert(root, ts[0]).ok ==> InsertListDefined(RootInsert(root, ts[0]).root, ts[1..]))
  }

  /** The outcome of InsertTriangleList: the tree, how many went in, and the verdict. */
  datatype ListInserted = ListInserted(root: Option<Tree>, count: nat, ok: bool)

  function InsertList(root: Option<Tree>, ts: seq<Triangle>): (r: ListInserted)
    requires InsertListDefined(root, ts)
    decreases |ts|
  {
    if ts == [] then ListInserted(root, 0, true)
    else
      var r0 := RootInsert(root, ts[0]);
      if !r0.ok then ListInserted(root, 0, false)
      else
        var rest := InsertList(r0.root, ts[1..]);
        ListInserted(rest.root, rest.count + 1, rest.ok)
  }

  /** One step of InsertList: the first triangle goes in, then the rest. */
  lemma InsertListUnfold(root: Option<Tree>, ts: seq<Triangle>)
    requires ts != [] && InsertListDefined(root, ts)
    ensures RootInsertDefined(root, ts[0])
    ensures !RootInsert(root, ts[0]).ok ==> !InsertList(root, ts).ok
    ensures RootInsert(root, ts[0]).ok ==>
      && InsertListDefined(RootInsert(root, ts[0]).root, ts[1..])
      && InsertList(root, ts).root == InsertList(RootInsert(root, ts[0]).root, ts[1..]).root
      && InsertList(root, ts).ok == InsertList(RootInsert(root, ts[0]).root, ts[1..]).ok
  {
  }

  /**
   * InsertTriangleList stops at the first refusal: it reports success iff
   * every triangle went in.
   */
  lemma {:induction false} InsertListCount(root: Option<Tree>, ts: seq<Triangle>)
    requires InsertListDefined(root, ts)
    ensures InsertList(root, ts).count <= |ts|
    ensures InsertList(root, ts).ok <==> InsertList(root, ts).count == |ts|
    decreases |ts|
  {
    if ts != [] && RootInsert(root, ts[0]).ok {
      InsertListCount(RootInsert(root, ts[0]).root, ts[1..]);
    }
  }

  /** The triangles before the refused one stay stored, each once more. */
  lemma {:induction false} InsertListStores(root: Option<Tree>, ts: seq<Triangle>)
    requires InsertListDefined(root, ts)
    ensures InsertList(root, ts).count <= |ts|
    ensures multiset(AllStored(InsertList(root, ts).root))
            == multiset(AllStored(root)) + multiset(ts[..InsertList(root, ts).count])
    decreases |ts|
  {
    InsertListCount(root, ts);
    if ts != [] {
      var r0 := RootInsert(root, ts[0]);
      if r0.ok {
        InsertAddsOnce(root.value, ts[0]);
        InsertListStores(r0.root, ts[1..]);
        var rest := InsertList(r0.root, ts[1..]);
        InsertListStep(root, ts, r0.root, rest);
      }
    }
  }

  /** Taking n + 1 triangles takes the first and then n of the rest. */
  lemma TakeSucc(ts: seq<Triangle>, n: nat)
    requires n < |ts|
    ensures ts[..n + 1] == [ts[0]] + ts[1..][..n]
  {
  }

  lemma InsertListStep(root: Option<Tree>, ts: seq<Triangle>, next: Option<Tree>, rest: ListInserted)
    requires ts != [] && InsertListDefined(root, ts)
    requires RootInsert(root, ts[0]).ok && next == RootInsert(root, ts[0]).root
    requires multiset(AllStored(next)) == multiset(AllStored(root)) + multiset{ts[0]}
    requires rest == InsertList(next, ts[1..]) && rest.count <= |ts| - 1
    requires multiset(AllStored(rest.root)) == multiset(AllStored(next)) + multiset(ts[1..][..rest.count])
    ensures multiset(AllStored(InsertList(root, ts).root))
            == multiset(AllStored(root)) + multiset(ts[..InsertList(root, ts).count])
  {
    var n := rest.count;
    assert InsertList(root, ts) == ListInserted(rest.root, n + 1, rest.ok);
    TakeSucc(ts, n);
    assert multiset(ts[..n + 1]) == multiset{ts[0]} + multiset(ts[1..][..n]);
  }

  predicate RootFindDefined(root: Option<Tree>, seg: LineSegment, intersect: IntersectOracle) {
    root.Some? ==> FindDefined(root.value, seg, intersect)
  }

  function RootFind(root: Option<Tree>, seg: LineSegment, intersect: IntersectOracle): (r: Option<Hit>)
    requires RootFindDefined(root, seg, intersect)
    ensures root.None? ==> r.None?
  {
    match root
    case None => None
    case Some(t) => Find(t, seg, intersect)
  }

  // ------------------------------------------------------------- heap nodes

  class Node {
    var boundingBox: Box
    var triangleList: seq<Triangle>
    var node0: Node?
    var node1: Node?

    ghost var model: Tree
    ghost var Repr: set<object>

    ghost predicate Valid()
      reads this, Repr
      decreases Repr
    {
      && this in Repr
      && (node0 == null <==> node1 == null)
      && (node0 == null ==> Repr == {this} && model == Leaf(boundingBox, triangleList))
      && (node0 != null ==>
            && node0 in Repr && node1 in Repr
            && node0.Repr <= Repr && node1.Repr <= Repr
            && this !in node0.Repr && this !in node1.Repr
            && node0.Repr !! node1.Repr
            && Repr == {this} + node0.Repr + node1.Repr
            && node0.Valid() && node1.Valid()
            && model == Branch(boundingBox, triangleList, node0.model, node1.model))
    }

    /** A node with the given box, no triangles and no children. */
    constructor (box: Box)
      ensures Valid() && fresh(Repr) && Repr == {this}
      ensures model == Leaf(box, [])
    {
      boundingBox := box;
      triangleList := [];
      node0, node1 := null, null;
      model := Leaf(box, []);
      Repr := {this};
    }

    /** BoundingBoxTree::CreateNode: builds Build(box, depth) from fresh nodes. */
    static method CreateNode(box: Box, depth: int) returns (node: Node)
      ensures node.Valid() && fresh(node.Repr)
      ensures node.model == Build(box, depth)
      decreases depth
    {
      node := new Node(box);
      if depth > 1 {
        var halves := box.SplitInTwo(DefaultBox, DefaultBox);
        var a := CreateNode(halves.0, depth - 1);
        var b := CreateNode(halves.1, depth - 1);
        node.node0, node.node1 := a, b;
        node.Repr := {node} + a.Repr + b.Repr;
        node.model := Branch(box, [], a.model, b.model);
      }
    }

    /**
     * Refuses a triangle its box does not contain; otherwise offers it to
     * child 0, then child 1, and keeps it itself when both refuse.
     */
    method InsertTriangle(triangle: Triangle) returns (ok: bool)
      requires Valid()
      requires InsertDefined(model, triangle)
      modifies Repr
      ensures Valid() && Repr == old(Repr)
      ensures Inserted(model, ok) == Insert(old(model), triangle)
      decreases Repr
    {
      if !boundingBox.ContainsTriangle(triangle) {
        return false;
      }
      var c0, c1 := node0, node1;
      ok := c0.InsertTriangle(triangle);
      assert c1.Valid() && c1.model == old(c1.model);
      if !ok {
        ok := c1.InsertTriangle(triangle);
        assert c0.Valid() && c0.model == old(c0.model);
        if !ok {
          triangleList := triangleList + [triangle];
          ok := true;
        }
      }
      model := Branch(boundingBox, triangleList, c0.model, c1.model);
    }

    /**
     * Refuses a segment its box does not contain; otherwise scans its own
     * list for the first hit, then searches child 0, then child 1.
     */
    method FindIntersection(segment: LineSegment, intersect: IntersectOracle) returns (hit: Option<Hit>)
      requires Valid()
      requires FindDefined(model, segment, intersect)
      ensures hit == Find(model, segment, intersect)
      decreases Repr
    {
      if !boundingBox.ContainsLineSegment(segment) {
        return None;
      }
      var i := 0;
      while i < |triangleList|
        invariant 0 <= i <= |triangleList|
        invariant FirstHit(triangleList, segment, intersect) == FirstHit(triangleList[i..], segment, intersect)
      {
        var point := intersect(triangleList[i], segment);
        if point.Some? {
          return Some(Hit(triangleList[i], point.value));
        }
        assert triangleList[i..][1..] == triangleList[i + 1..];
        i := i + 1;
      }
      hit := node0.FindIntersection(segment, intersect);
      if hit.None? {
        hit := node1.FindIntersection(segment, intersect);
      }
    }
  }

  class BoundingBoxTree {
    var rootNode: Node?
    ghost var Repr: set<object>

    ghost predicate Valid()
      reads this, Repr
    {
      && this in Repr
      && (rootNode != null ==>
            rootNode in Repr && rootNode.Repr <= Repr && this !in rootNode.Repr && rootNode.Valid())
    }

    ghost function Model(): Option<Tree>
      reads this, Repr
      requires Valid()
    {
      if rootNode == null then None else Some(rootNode.model)
    }

    constructor ()
      ensures Valid() && fresh(Repr) && Model() == None
    {
      rootNode := null;
      Repr := {this};
    }

    /** Replaces the root by a freshly built tree of the given depth. */
    method GenerateNodes(rootBox: Box, depth: int)
      requires Valid()
      modifies this
      ensures Valid() && fresh(Repr - old(Repr))
      ensures Model() == Some(Build(rootBox, depth))
    {
      rootNode := Node.CreateNode(rootBox, depth);
      Repr := {this} + rootNode.Repr;
    }

    method InsertTriangle(triangle: Triangle) returns (ok: bool)
      requires Valid()
      requires RootInsertDefined(Model(), triangle)
      modifies Repr
      ensures Valid() && Repr == old(Repr)
      ensures RootInserted(Model(), ok) == RootInsert(old(Model()), triangle)
    {
      if rootNode == null {
        return false;
      }
      ok := rootNode.InsertTriangle(triangle);
    }

    /** Inserts in list order and returns false at the first refusal. */
    method InsertTriangleList(triangleList: seq<Triangle>) returns (ok: bool)
      requires Valid()
      requires InsertListDefined(Model(), triangleList)
      modifies Repr
      ensures Valid() && Repr == old(Repr)
      ensures Model() == InsertList(old(Model()), triangleList).root
      ensures ok == InsertList(old(Model()), triangleList).ok
    {
      ghost var whole := InsertList(Model(), triangleList);
      var i := 0;
      while i < |triangleList|
        invariant 0 <= i <= |triangleList|
        invariant Valid() && Repr == old(Repr)
        invariant InsertListDefined(Model(), triangleList[i..])
        invariant InsertList(Model(), triangleList[i..]).root == whole.root
        invariant InsertList(Model(), triangleList[i..]).ok == whole.ok
      {
        assert triangleList[i..][0] == triangleList[i];
        assert triangleList[i..][1..] == triangleList[i + 1..];
        InsertListUnfold(Model(), triangleList[i..]);
        ok := InsertTriangle(triangleList[i]);
        if !ok {
          return false;
        }
        i := i + 1;
      }
      return true;
    }

    method FindIntersection(segment: LineSegment, intersect: IntersectOracle) returns (hit: Option<Hit>)
      requires Valid()
      requires RootFindDefined(Model(), segment, intersect)
      ensures hit == RootFind(Model(), segment, intersect)
    {
      if rootNode == null {
        return None;
      }
      hit := rootNode.FindIntersection(segment, intersect);
    }
  }
}
