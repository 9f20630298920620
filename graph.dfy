/**
 * Graphs (Graph.cpp): graph nodes are handle objects whose adjacency map
 * names neighbouring nodes by handle; a traversor walks them breadth first
 * or depth first with a queue of handles and a set of visited handles.
 *
 * A `std::map<std::string, int>` is a sequence of (name, handle) pairs in
 * increasing name order, the order the map iterates in.
 */
module Graphs {
  import opened Wrappers
  import opened Handles
  import opened Objects

  // ------------------------------------------------------------ adjacency

  /** The order of `std::string` keys: lexicographic by character. */
  predicate NameLess(a: string, b: string) {
    if a == [] then b != []
    else if b == [] then false
    else a[0] < b[0] || (a[0] == b[0] && NameLess(a[1..], b[1..]))
  }

  lemma {:induction false} NameLessIrreflexive(a: string)
    ensures !NameLess(a, a)
  {
    if a != [] {
      NameLessIrreflexive(a[1..]);
    }
  }

  type Adjacency = seq<(string, int)>

  /** The pairs are in strictly increasing name order, as a map keeps them. */
  predicate Ordered(adjacency: Adjacency) {
    forall i, j :: 0 <= i < j < |adjacency| ==> NameLess(adjacency[i].0, adjacency[j].0)
  }

  /** `adjacencyMap.find(name)`: the handle stored under the name. */
  function FindName(adjacency: Adjacency, name: string): (r: Option<int>)
    ensures r.Some? ==> exists i :: 0 <= i < |adjacency| && adjacency[i] == (name, r.value)
    ensures r.None? <==> forall i :: 0 <= i < |adjacency| ==> adjacency[i].0 != name
  {
    if adjacency == [] then None
    else if adjacency[0].0 == name then Some(adjacency[0].1)
    else
      var r := FindName(adjacency[1..], name);
      assert forall i :: 1 <= i < |adjacency| ==> adjacency[i] == adjacency[1..][i - 1];
      r
  }

  /** In an ordered adjacency a name is stored at most once, so lookup finds every pair. */
  lemma FindNameInOrdered(adjacency: Adjacency, i: int)
    requires Ordered(adjacency) && 0 <= i < |adjacency|
    ensures FindName(adjacency, adjacency[i].0) == Some(adjacency[i].1)
  {
    var r := FindName(adjacency, adjacency[i].0);
    var j :| 0 <= j < |adjacency| && adjacency[j] == (adjacency[i].0, r.value);
    if j != i {
      if j < i {
        assert NameLess(adjacency[j].0, adjacency[i].0);
      } else {
        assert NameLess(adjacency[i].0, adjacency[j].0);
      }
      NameLessIrreflexive(adjacency[i].0);
    }
  }

  class GraphNode {
    /** The node's registry handle. */
    var handle: int
    var adjacencyMap: Adjacency

    ghost predicate Valid()
      reads this
    {
      Ordered(adjacencyMap)
    }

    /** A new node has no neighbours and is registered under the next handle. */
    constructor (registry: HandleRegistry<GraphNode>)
      requires registry.Valid()
      modifies registry
      ensures Valid() && adjacencyMap == [] && registry.Valid()
      ensures handle == old(registry.newHandle) && registry.newHandle == old(registry.newHandle) + 1
      ensures registry.handleObjectMap == old(registry.handleObjectMap)[handle := this]
    {
      adjacencyMap := [];
      handle := 0;
      new;
      handle := registry.Register(this);
    }

    /** The live node named `name`, or null when the name or its node is missing. */
    function GetAdjacency(name: string, registry: HandleRegistry<GraphNode>): (r: Option<GraphNode>)
      reads this, registry
      ensures FindName(adjacencyMap, name).None? ==> r.None?
      ensures r.Some? ==> r.value in registry.handleObjectMap.Values
    {
      match FindName(adjacencyMap, name)
      case None => None
      case Some(graphNodeHandle) => registry.Dereference(graphNodeHandle)
    }
  }

  /**
   * GetAdjacency finds a node exactly when the name is stored with a live
   * handle, and then it is the node registered under that handle.
   */
  lemma GetAdjacencyMeaning(node: GraphNode, name: string, registry: HandleRegistry<GraphNode>)
    requires node.Valid()
    ensures node.GetAdjacency(name, registry).Some? <==>
              exists i :: 0 <= i < |node.adjacencyMap| && node.adjacencyMap[i].0 == name
                          && node.adjacencyMap[i].1 in registry.handleObjectMap
    ensures forall i :: 0 <= i < |node.adjacencyMap| && node.adjacencyMap[i].0 == name
                        && node.adjacencyMap[i].1 in registry.handleObjectMap ==>
              node.GetAdjacency(name, registry) == Some(registry.handleObjectMap[node.adjacencyMap[i].1])
  {
    forall i | 0 <= i < |node.adjacencyMap| && node.adjacencyMap[i].0 == name
      ensures FindName(node.adjacencyMap, name) == Some(node.adjacencyMap[i].1)
    {
      FindNameInOrdered(node.adjacencyMap, i);
    }
  }

  // ----------------------------------------------------------- traversal

  datatype Mode = DepthFirst | BreadthFirst

  /** The handles of the adjacency, in map order, that are not visited. */
  function Unvisited(adjacency: Adjacency, visited: set<int>): seq<int>
    decreases |adjacency|
  {
    if adjacency == [] then []
    else
      var last := adjacency[|adjacency| - 1].1;
      Unvisited(adjacency[..|adjacency| - 1], visited) + if last !in visited then [last] else []
  }

  lemma {:induction false} UnvisitedMembers(adjacency: Adjacency, visited: set<int>)
    ensures forall h :: h in Unvisited(adjacency, visited) <==>
                        h !in visited && exists i :: 0 <= i < |adjacency| && adjacency[i].1 == h
    decreases |adjacency|
  {
    if adjacency != [] {
      var prefix := adjacency[..|adjacency| - 1];
      UnvisitedMembers(prefix, visited);
      assert forall i :: 0 <= i < |prefix| ==> prefix[i] == adjacency[i];
    }
  }

  function Reversed(s: seq<int>): seq<int>
    decreases |s|
  {
    if s == [] then [] else [s[|s| - 1]] + Reversed(s[..|s| - 1])
  }

  lemma {:induction false} ReversedElements(s: seq<int>)
    ensures |Reversed(s)| == |s|
    ensures forall i :: 0 <= i < |s| ==> Reversed(s)[i] == s[|s| - 1 - i]
    decreases |s|
  {
    if s != [] {
      ReversedElements(s[..|s| - 1]);
    }
  }

  /**
   * The queue after EnqueueUnvisitedAdjacencies: breadth first appends the
   * unvisited handles in map order; depth first pushes each to the front,
   * so they end up in reverse map order ahead of the old queue.
   */
  function Enqueued(queue: seq<int>, adjacency: Adjacency, visited: set<int>, mode: Mode): seq<int> {
    match mode
    case BreadthFirst => queue + Unvisited(adjacency, visited)
    case DepthFirst => Reversed(Unvisited(adjacency, visited)) + queue
  }

  /** The queue grows by exactly the number of unvisited adjacencies. */
  lemma EnqueuedLength(queue: seq<int>, adjacency: Adjacency, visited: set<int>, mode: Mode)
    ensures |Enqueued(queue, adjacency, visited, mode)| == |queue| + |Unvisited(adjacency, visited)|
  {
    ReversedElements(Unvisited(adjacency, visited));
  }

  /** The traversor's state: the handle queue and the visited set. */
  datatype TraversalState = TraversalState(queue: seq<int>, visited: set<int>)

  /** One Traverse step on a non-empty queue, given the front node's adjacency. */
  function Step(state: TraversalState, adjacency: Adjacency, mode: Mode): TraversalState
    requires state.queue != []
  {
    var visited := state.visited + {state.queue[0]};
    TraversalState(Enqueued(state.queue[1..], adjacency, visited, mode), visited)
  }

  class GraphTraversor {
    var mode: Mode
    var handleQueue: seq<int>
    var visitationSet: set<int>

    function State(): TraversalState
      reads this
    {
      TraversalState(handleQueue, visitationSet)
    }

    constructor (graphNode: GraphNode, mode: Mode)
      ensures this.mode == mode && handleQueue == [graphNode.handle] && visitationSet == {}
    {
      this.mode := mode;
      handleQueue := [graphNode.handle];
      visitationSet := {};
    }

    /**
     * On an empty queue, false and no node. Otherwise pops the front handle,
     * marks it visited, yields its node and enqueues the node's unvisited
     * neighbours. The front handle must be live: the source enqueues the
     * neighbours of whatever Dereference returns, null included.
     */
    method Traverse(registry: HandleRegistry<GraphNode>) returns (ok: bool, graphNode: Option<GraphNode>)
      requires handleQueue != [] ==> registry.Dereference(handleQueue[0]).Some?
      modifies this
      ensures mode == old(mode)
      ensures old(handleQueue) == [] ==> !ok && graphNode == None && State() == old(State())
      ensures old(handleQueue) != [] ==>
                && ok && graphNode == registry.Dereference(old(handleQueue)[0])
                && State() == Step(old(State()), graphNode.value.adjacencyMap, mode)
      ensures old(visitationSet) <= visitationSet
    {
      graphNode := None;
      if |handleQueue| == 0 {
        return false, None;
      }
      var graphNodeHandle := handleQueue[0];
      handleQueue := handleQueue[1..];
      visitationSet := visitationSet + {graphNodeHandle};
      graphNode := registry.Dereference(graphNodeHandle);
      EnqueueUnvisitedAdjacencies(graphNode.value);
      ok := true;
    }

    /** Enqueues, in map order, every neighbour handle not yet visited. */
    method EnqueueUnvisitedAdjacencies(graphNode: GraphNode)
      modifies this
      ensures mode == old(mode) && visitationSet == old(visitationSet)
      ensures handleQueue == Enqueued(old(handleQueue), graphNode.adjacencyMap, visitationSet, mode)
    {
      var adjacency := graphNode.adjacencyMap;
      var i := 0;
      while i < |adjacency|
        invariant 0 <= i <= |adjacency|
        invariant mode == old(mode) && visitationSet == old(visitationSet)
        invariant handleQueue == Enqueued(old(handleQueue), adjacency[..i], visitationSet, mode)
      {
        var graphNodeHandle := adjacency[i].1;
        ghost var before := Unvisited(adjacency[..i], visitationSet);
        assert adjacency[..i + 1][..i] == adjacency[..i];
        if graphNodeHandle !in visitationSet {
          assert Unvisited(adjacency[..i + 1], visitationSet) == before + [graphNodeHandle];
          assert (before + [graphNodeHandle])[..|before|] == before;
          match mode
          case BreadthFirst =>
            handleQueue := handleQueue + [graphNodeHandle];
          case DepthFirst =>
            handleQueue := [graphNodeHandle] + handleQueue;
        } else {
          assert Unvisited(adjacency[..i + 1], visitationSet) == before + [];
          assert before + [] == before;
        }
        i := i + 1;
      }
      assert adjacency[..i] == adjacency;
    }

    /**
     * The corrected Traverse: as Traverse, but the neighbours are enqueued by
     * EnqueueFreshAdjacencies, so a handle already waiting is not queued again.
     */
    method TraverseOnce(registry: HandleRegistry<GraphNode>) returns (ok: bool, graphNode: Option<GraphNode>)
      requires handleQueue != [] ==> registry.Dereference(handleQueue[0]).Some?
      modifies this
      ensures mode == old(mode)
      ensures old(handleQueue) == [] ==> !ok && graphNode == None && State() == old(State())
      ensures old(handleQueue) != [] ==>
                && ok && graphNode == registry.Dereference(old(handleQueue)[0])
                && State() == StepOnce(old(State()), graphNode.value.adjacencyMap, mode)
    {
      graphNode := None;
      if |handleQueue| == 0 {
        return false, None;
      }
      var graphNodeHandle := handleQueue[0];
      handleQueue := handleQueue[1..];
      visitationSet := visitationSet + {graphNodeHandle};
      graphNode := registry.Dereference(graphNodeHandle);
      EnqueueFreshAdjacencies(graphNode.value);
      ok := true;
    }

    /**
     * The corrected enqueue: every neighbour handle that is neither visited
     * nor already in the queue, in map order, each once.
     */
    method EnqueueFreshAdjacencies(graphNode: GraphNode)
      modifies this
      ensures mode == old(mode) && visitationSet == old(visitationSet)
      ensures var newHandles := FreshHandles(graphNode.adjacencyMap, visitationSet + (set h | h in old(handleQueue)));
              handleQueue == if mode == BreadthFirst then old(handleQueue) + newHandles else Reversed(newHandles) + old(handleQueue)
    {
      handleQueue := EnqueueFresh(handleQueue, graphNode.adjacencyMap, visitationSet, mode);
    }
  }

  /**
   * The loop of the corrected enqueue, on the queue's value: each neighbour
   * handle that is neither visited nor waiting is pushed, at the back
   * breadth first and at the front depth first.
   */
  method EnqueueFresh(queue: seq<int>, adjacency: Adjacency, visited: set<int>, mode: Mode) returns (handleQueue: seq<int>)
    ensures var newHandles := FreshHandles(adjacency, visited + (set h | h in queue));
            handleQueue == if mode == BreadthFirst then queue + newHandles else Reversed(newHandles) + queue
  {
    ghost var target := FreshHandles(adjacency, visited + (set h | h in queue));
    ghost var added: seq<int> := [];
    ghost var skip := visited + (set h | h in queue);
    assert adjacency[0..] == adjacency;
    handleQueue := queue;
    var i := 0;
    while i < |adjacency|
      invariant 0 <= i <= |adjacency|
      invariant target == added + FreshHandles(adjacency[i..], skip)
      invariant mode == BreadthFirst ==> handleQueue == queue + added
      invariant mode == DepthFirst ==> handleQueue == Reversed(added) + queue
      invariant forall h :: h in skip <==> h in visited || h in handleQueue
    {
      var graphNodeHandle := adjacency[i].1;
      FreshHandlesStep(adjacency, i, skip);
      if graphNodeHandle !in visited && graphNodeHandle !in handleQueue {
        match mode {
          case BreadthFirst =>
            AppendAssociative(queue, added, [graphNodeHandle]);
            handleQueue := handleQueue + [graphNodeHandle];
          case DepthFirst =>
            ReversedAppend(added, graphNodeHandle);
            AppendAssociative([graphNodeHandle], Reversed(added), queue);
            handleQueue := [graphNodeHandle] + handleQueue;
        }
        AppendAssociative(added, [graphNodeHandle], FreshHandles(adjacency[i + 1..], skip + {graphNodeHandle}));
        added := added + [graphNodeHandle];
        skip := skip + {graphNodeHandle};
      }
      i := i + 1;
    }
    assert adjacency[i..] == [] && added + [] == added;
  }

  /** FreshHandles on the suffix from `i`, unfolded once. */
  lemma FreshHandlesStep(adjacency: Adjacency, i: int, skip: set<int>)
    requires 0 <= i < |adjacency|
    ensures FreshHandles(adjacency[i..], skip)
            == if adjacency[i].1 in skip then FreshHandles(adjacency[i + 1..], skip)
               else [adjacency[i].1] + FreshHandles(adjacency[i + 1..], skip + {adjacency[i].1})
  {
    assert adjacency[i..][1..] == adjacency[i + 1..];
  }

  lemma ReversedAppend(s: seq<int>, h: int)
    ensures Reversed(s + [h]) == [h] + Reversed(s)
  {
    assert (s + [h])[..|s|] == s;
  }

  // ---------------------------------------------------------- DeleteGraph

  /** The adjacency of every node of the map, by handle. */
  ghost function NodesOf(objects: map<int, GraphNode>): map<int, Adjacency>
    reads objects.Values
  {
    map h | h in objects :: objects[h].adjacencyMap
  }

  lemma NodesOfRemove(objects: map<int, GraphNode>, handle: int)
    ensures NodesOf(objects - {handle}) == NodesOf(objects) - {handle}
  {
  }

  /** The adjacency of every live node, by handle. */
  ghost function Nodes(registry: HandleRegistry<GraphNode>): map<int, Adjacency>
    reads registry, registry.handleObjectMap.Values
  {
    NodesOf(registry.handleObjectMap)
  }

  /** `objects` are the nodes `nodes` describes, each stored under its own handle. */
  ghost predicate Describes(objects: map<int, GraphNode>, nodes: map<int, Adjacency>)
    reads objects.Values
  {
    && objects.Keys == nodes.Keys
    && forall h :: h in objects ==> objects[h].handle == h && objects[h].adjacencyMap == nodes[h]
  }

  lemma ObjectsMinusKeys(m: map<int, GraphNode>, gone: set<int>)
    ensures (m - gone).Keys == m.Keys - gone
  {
  }

  lemma ObjectsRemoveMore(m: map<int, GraphNode>, gone: set<int>, handle: int)
    ensures m - (gone + {handle}) == (m - gone) - {handle}
  {
  }

  lemma NodesRemoveMore(m: map<int, Adjacency>, gone: set<int>, handle: int)
    ensures m - (gone + {handle}) == (m - gone) - {handle}
  {
  }

  /** Every node of the map carries the handle it is stored under. */
  ghost predicate HandlesMatchOf(objects: map<int, GraphNode>)
    reads objects.Values
  {
    forall h :: h in objects ==> objects[h].handle == h
  }

  /** Every live node carries the handle it is registered under. */
  ghost predicate HandlesMatch(registry: HandleRegistry<GraphNode>)
    reads registry, registry.handleObjectMap.Values
  {
    HandlesMatchOf(registry.handleObjectMap)
  }

  lemma RemoveKeepsHandlesMatch(objects: map<int, GraphNode>, handle: int)
    requires HandlesMatchOf(objects)
    ensures HandlesMatchOf(objects - {handle})
  {
  }

  /**
   * The breadth-first walk of DeleteGraph, deleting each yielded node, only
   * ever dereferences live nodes: `nodes` are the nodes not yet deleted.
   */
  ghost predicate DeleteDefined(state: TraversalState, nodes: map<int, Adjacency>)
    decreases |nodes|
  {
    state.queue != [] ==>
      && state.queue[0] in nodes
      && DeleteDefined(Step(state, nodes[state.queue[0]], BreadthFirst), nodes - {state.queue[0]})
  }

  /** The handles DeleteGraph deletes, in order. */
  ghost function Deleted(state: TraversalState, nodes: map<int, Adjacency>): seq<int>
    requires DeleteDefined(state, nodes)
    decreases |nodes|
  {
    if state.queue == [] then []
    else [state.queue[0]] + Deleted(Step(state, nodes[state.queue[0]], BreadthFirst), nodes - {state.queue[0]})
  }

  /** The set of handles DeleteGraph deletes. */
  ghost function DeletedHandles(state: TraversalState, nodes: map<int, Adjacency>): set<int>
    requires DeleteDefined(state, nodes)
  {
    set h | h in Deleted(state, nodes)
  }

  /** One deletion step, on values: the bookkeeping of DeleteGraph's loop. */
  lemma DeletedStep(all: seq<int>, done: seq<int>, before: TraversalState, nodes: map<int, Adjacency>, after: TraversalState)
    requires DeleteDefined(before, nodes) && before.queue != []
    requires after == Step(before, nodes[before.queue[0]], BreadthFirst)
    requires all == done + Deleted(before, nodes)
    ensures DeleteDefined(after, nodes - {before.queue[0]})
    ensures all == (done + [before.queue[0]]) + Deleted(after, nodes - {before.queue[0]})
    ensures (set h | h in done + [before.queue[0]]) == (set h | h in done) + {before.queue[0]}
    ensures |nodes - {before.queue[0]}| < |nodes|
  {
    var front := before.queue[0];
    assert Deleted(before, nodes) == [front] + Deleted(after, nodes - {front});
  }

  /**
   * One turn of DeleteGraph's loop: the traversor yields its front node and
   * the node is deleted, which unregisters its handle.
   */
  method DeleteNext(traversor: GraphTraversor, registry: HandleRegistry<GraphNode>,
                    ghost objects: map<int, GraphNode>, ghost nodes: map<int, Adjacency>, ghost gone: set<int>)
    returns (ok: bool)
    requires registry.Valid() && traversor.mode == BreadthFirst
    requires Describes(objects, nodes)
    requires registry.handleObjectMap == objects - gone
    requires traversor.State().queue != [] ==> traversor.State().queue[0] in nodes - gone
    modifies traversor, registry
    ensures registry.Valid() && traversor.mode == BreadthFirst
    ensures Describes(objects, nodes)
    ensures ok <==> old(traversor.State()).queue != []
    ensures !ok ==> registry.handleObjectMap == old(registry.handleObjectMap)
    ensures ok ==> var front := old(traversor.State()).queue[0];
                   && traversor.State() == Step(old(traversor.State()), nodes[front], BreadthFirst)
                   && registry.handleObjectMap == objects - (gone + {front})
  {
    ghost var front := if traversor.State().queue == [] then 0 else traversor.State().queue[0];
    var yielded;
    ok, yielded := traversor.Traverse(registry);
    if ok {
      var node := yielded.value;
      assert node == objects[front];
      ghost var after := traversor.State();
      ObjectsRemoveMore(objects, gone, front);
      registry.Unregister(node.handle);
      assert traversor.State() == after;
    }
  }

  /**
   * Deletes every node the breadth-first traversal from `graphNode` yields.
   * Deleting a node unregisters its handle.
   */
  method DeleteGraph(graphNode: GraphNode, registry: HandleRegistry<GraphNode>)
    requires registry.Valid() && HandlesMatch(registry)
    requires DeleteDefined(TraversalState([graphNode.handle], {}), Nodes(registry))
    modifies registry
    ensures registry.Valid()
    ensures registry.handleObjectMap.Keys
            == old(registry.handleObjectMap.Keys - DeletedHandles(TraversalState([graphNode.handle], {}), Nodes(registry)))
  {
    ghost var objects := registry.handleObjectMap;
    ghost var nodes0 := Nodes(registry);
    ghost var nodes := nodes0;
    ghost var start := TraversalState([graphNode.handle], {});
    assert Describes(objects, nodes0);
    var traversor := new GraphTraversor(graphNode, BreadthFirst);
    ghost var all := Deleted(start, nodes);
    ghost var done: seq<int> := [];
    ghost var doneSet: set<int> := {};
    while true
      invariant registry.Valid()
      invariant traversor.mode == BreadthFirst
      invariant Describes(objects, nodes0)
      invariant registry.handleObjectMap == objects - doneSet
      invariant nodes == nodes0 - doneSet
      invariant DeleteDefined(traversor.State(), nodes)
      invariant all == done + Deleted(traversor.State(), nodes)
      invariant doneSet == set h | h in done
      decreases |nodes|
    {
      ghost var before := traversor.State();
      var ok := DeleteNext(traversor, registry, objects, nodes0, doneSet);
      if !ok {
        assert all == done + [];
        assert doneSet == DeletedHandles(start, nodes0);
        ObjectsMinusKeys(objects, doneSet);
        break;
      }
      ghost var front := before.queue[0];
      DeletedStep(all, done, before, nodes, traversor.State());
      NodesRemoveMore(nodes0, doneSet, front);
      done := done + [front];
      doneSet := doneSet + {front};
      nodes := nodes - {front};
    }
  }

  // ------------------------------------------------------------- a diamond

  /**
   * The diamond 1 -> {2, 3}, 2 -> {4}, 3 -> {4}: the breadth-first queue
   * holds handle 4 twice after the third step, because handle 4 was queued
   * but not yet visited when node 3 enqueued its neighbours.
   */
  lemma DiamondQueuesTwice()
    ensures var s1 := Step(TraversalState([1], {}), [("b", 2), ("c", 3)], BreadthFirst);
            var s2 := Step(s1, [("d", 4)], BreadthFirst);
            var s3 := Step(s2, [("d", 4)], BreadthFirst);
            s1.queue == [2, 3] && s2.queue == [3, 4] && s3.queue == [4, 4]
  {
    var a: Adjacency := [("b", 2), ("c", 3)];
    var d: Adjacency := [("d", 4)];
    UnvisitedOfPair(a, {1});
    UnvisitedOfOne(d, {1, 2});
    UnvisitedOfOne(d, {1, 2, 3});
    var s1 := Step(TraversalState([1], {}), a, BreadthFirst);
    assert {} + {1} == {1} && [1][1..] == [];
    assert s1 == TraversalState([2, 3], {1});
    var s2 := Step(s1, d, BreadthFirst);
    assert s2 == TraversalState([3, 4], {1, 2});
    var s3 := Step(s2, d, BreadthFirst);
    assert s3.queue == [4, 4];
  }

  lemma UnvisitedOfOne(adjacency: Adjacency, visited: set<int>)
    requires |adjacency| == 1
    ensures Unvisited(adjacency, visited) == if adjacency[0].1 in visited then [] else [adjacency[0].1]
  {
    assert adjacency[..0] == [];
  }

  lemma UnvisitedOfPair(adjacency: Adjacency, visited: set<int>)
    requires |adjacency| == 2 && adjacency[0].1 !in visited && adjacency[1].1 !in visited
    ensures Unvisited(adjacency, visited) == [adjacency[0].1, adjacency[1].1]
  {
    UnvisitedOfOne(adjacency[..1], visited);
  }

  /** So DeleteGraph on the diamond reaches node 4 after deleting it. */
  lemma DiamondDeleteUndefined()
    ensures !DeleteDefined(TraversalState([1], {}),
                           map[1 := [("b", 2), ("c", 3)], 2 := [("d", 4)], 3 := [("d", 4)], 4 := []])
  {
    DiamondQueuesTwice();
    var nodes: map<int, Adjacency> := map[1 := [("b", 2), ("c", 3)], 2 := [("d", 4)], 3 := [("d", 4)], 4 := []];
    var s0 := TraversalState([1], {});
    var s1 := Step(s0, nodes[1], BreadthFirst);
    var s2 := Step(s1, nodes[2], BreadthFirst);
    var s3 := Step(s2, nodes[3], BreadthFirst);
    var s4 := Step(s3, nodes[4], BreadthFirst);
    assert s4.queue == [4];
    var n1 := nodes - {1};
    var n2 := n1 - {2};
    var n3 := n2 - {3};
    var n4 := n3 - {4};
    assert 4 !in n4;
    assert !DeleteDefined(s4, n4);
    assert !DeleteDefined(s3, n3);
    assert !DeleteDefined(s2, n2);
    assert !DeleteDefined(s1, n1);
  }

  // ------------------------------------------- traversal that queues once

  /**
   * The handles of the adjacency, in map order, that are neither in `seen`
   * nor earlier in the list: what EnqueueUnvisitedAdjacencies pushes when it
   * also skips handles already waiting in the queue.
   */
  function FreshHandles(adjacency: Adjacency, seen: set<int>): seq<int>
    decreases |adjacency|
  {
    if adjacency == [] then []
    else
      var h := adjacency[0].1;
      if h in seen then FreshHandles(adjacency[1..], seen)
      else [h] + FreshHandles(adjacency[1..], seen + {h})
  }

  predicate NoDuplicates(s: seq<int>) {
    forall i, j :: 0 <= i < j < |s| ==> s[i] != s[j]
  }

  /**
   * FreshHandles lists each handle once, none of them seen, and every
   * neighbour of the adjacency is either seen or listed.
   */
  lemma {:induction false} FreshHandlesMeaning(adjacency: Adjacency, seen: set<int>)
    ensures NoDuplicates(FreshHandles(adjacency, seen))
    ensures forall h :: h in FreshHandles(adjacency, seen) <==>
                        h !in seen && exists i :: 0 <= i < |adjacency| && adjacency[i].1 == h
    decreases |adjacency|
  {
    if adjacency != [] {
      var h := adjacency[0].1;
      var tail := adjacency[1..];
      assert forall i :: 0 <= i < |tail| ==> tail[i] == adjacency[i + 1];
      if h in seen {
        FreshHandlesMeaning(tail, seen);
      } else {
        FreshHandlesMeaning(tail, seen + {h});
      }
    }
  }

  /** One step of the traversal that never queues a handle twice. */
  function StepOnce(state: TraversalState, adjacency: Adjacency, mode: Mode): TraversalState
    requires state.queue != []
  {
    var visited := state.visited + {state.queue[0]};
    var rest := state.queue[1..];
    var newHandles := FreshHandles(adjacency, visited + (set h | h in rest));
    match mode
    case BreadthFirst => TraversalState(rest + newHandles, visited)
    case DepthFirst => TraversalState(Reversed(newHandles) + rest, visited)
  }

  /** No handle waits twice, and no waiting handle has been visited. */
  predicate WellQueued(state: TraversalState) {
    && NoDuplicates(state.queue)
    && forall i :: 0 <= i < |state.queue| ==> state.queue[i] !in state.visited
  }

  /**
   * StepOnce keeps the queue well formed, so the handle it yields was not
   * visited before: each node is yielded at most once. The queue holds
   * exactly the waiting handles plus the unvisited neighbours.
   */
  lemma StepOnceKeepsWellQueued(state: TraversalState, adjacency: Adjacency, mode: Mode)
    requires WellQueued(state) && state.queue != []
    ensures state.queue[0] !in state.visited
    ensures WellQueued(StepOnce(state, adjacency, mode))
    ensures forall h :: h in StepOnce(state, adjacency, mode).queue <==>
                        h in state.queue[1..]
                        || (h !in state.visited + {state.queue[0]} && exists i :: 0 <= i < |adjacency| && adjacency[i].1 == h)
  {
    var visited := state.visited + {state.queue[0]};
    var rest := state.queue[1..];
    var seen := visited + (set h | h in rest);
    var newHandles := FreshHandles(adjacency, seen);
    FreshHandlesMeaning(adjacency, seen);
    var added := if mode == BreadthFirst then newHandles else Reversed(newHandles);
    ReversedKeepsElements(newHandles);
    assert NoDuplicates(rest) && forall h :: h in rest ==> h !in visited by {
      forall i, j | 0 <= i < j < |rest| ensures rest[i] != rest[j] {
        assert rest[i] == state.queue[i + 1] && rest[j] == state.queue[j + 1];
      }
      forall h | h in rest ensures h !in visited {
        var k :| 0 <= k < |rest| && rest[k] == h;
        assert rest[k] == state.queue[k + 1];
      }
    }
    if mode == BreadthFirst {
      JoinKeepsWellQueued(rest, added, visited);
    } else {
      JoinKeepsWellQueued(added, rest, visited);
    }
  }

  /** Reversing keeps the elements and keeps them distinct. */
  lemma ReversedKeepsElements(s: seq<int>)
    ensures forall h :: h in Reversed(s) <==> h in s
    ensures NoDuplicates(s) ==> NoDuplicates(Reversed(s))
  {
    ReversedElements(s);
    forall h ensures h in Reversed(s) <==> h in s {
      if h in s {
        var k :| 0 <= k < |s| && s[k] == h;
        assert Reversed(s)[|s| - 1 - k] == h;
      }
    }
  }

  /** Two duplicate-free runs with no common element, none of it visited, join into a well-formed queue. */
  lemma JoinKeepsWellQueued(front: seq<int>, back: seq<int>, visited: set<int>)
    requires NoDuplicates(front) && NoDuplicates(back)
    requires forall h :: h in front ==> h !in back && h !in visited
    requires forall h :: h in back ==> h !in visited
    ensures WellQueued(TraversalState(front + back, visited))
  {
    var q := front + back;
    forall i, j | 0 <= i < j < |q| ensures q[i] != q[j] {
      if j < |front| {
      } else if i >= |front| {
        assert q[i] == back[i - |front|] && q[j] == back[j - |front|];
      } else {
        assert q[i] in front && q[j] == back[j - |front|];
      }
    }
    forall i | 0 <= i < |q| ensures q[i] !in visited {
      if i < |front| {
        assert q[i] == front[i] && front[i] in front;
      } else {
        assert q[i] == back[i - |front|] && back[i - |front|] in back;
      }
    }
  }

  /** Deletion with the traversal that queues once only dereferences live nodes. */
  ghost predicate DeleteOnceDefined(state: TraversalState, nodes: map<int, Adjacency>)
    decreases |nodes|
  {
    state.queue != [] ==>
      && state.queue[0] in nodes
      && DeleteOnceDefined(StepOnce(state, nodes[state.queue[0]], BreadthFirst), nodes - {state.queue[0]})
  }

  /** Every neighbour of every node is a node of the graph. */
  predicate Closed(graph: map<int, Adjacency>) {
    forall h, i :: h in graph && 0 <= i < |graph[h]| ==> graph[h][i].1 in graph
  }

  /**
   * On a closed graph the deletion walk that queues once never reaches a
   * deleted node: while the queue is well formed, the live nodes are the
   * unvisited ones and every waiting handle is live.
   */
  lemma {:induction false} ClosedGraphDeletesOnce(state: TraversalState, nodes: map<int, Adjacency>, graph: map<int, Adjacency>)
    requires Closed(graph) && WellQueued(state)
    requires nodes.Keys == graph.Keys - state.visited
    requires forall h :: h in nodes ==> nodes[h] == graph[h]
    requires forall i :: 0 <= i < |state.queue| ==> state.queue[i] in nodes
    ensures DeleteOnceDefined(state, nodes)
    decreases |nodes|
  {
    if state.queue != [] {
      var front := state.queue[0];
      var next := StepOnce(state, nodes[front], BreadthFirst);
      StepOnceKeepsWellQueued(state, nodes[front], BreadthFirst);
      var rest := nodes - {front};
      assert |rest| < |nodes|;
      forall i | 0 <= i < |next.queue|
        ensures next.queue[i] in rest
      {
        var h := next.queue[i];
        if h !in state.queue[1..] {
          var j :| 0 <= j < |nodes[front]| && nodes[front][j].1 == h;
          assert graph[front][j].1 in graph;
        } else {
          var k :| 0 <= k < |state.queue[1..]| && state.queue[1..][k] == h;
          assert state.queue[k + 1] == h;
        }
      }
      ClosedGraphDeletesOnce(next, rest, graph);
    }
  }

  /** On the diamond, the walk that queues once deletes every node exactly once. */
  lemma DiamondDeletesOnce()
    ensures DeleteOnceDefined(TraversalState([1], {}),
                              map[1 := [("b", 2), ("c", 3)], 2 := [("d", 4)], 3 := [("d", 4)], 4 := []])
  {
    var graph: map<int, Adjacency> := map[1 := [("b", 2), ("c", 3)], 2 := [("d", 4)], 3 := [("d", 4)], 4 := []];
    assert Closed(graph);
    ClosedGraphDeletesOnce(TraversalState([1], {}), graph, graph);
  }
}
