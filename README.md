# 3DMath core, modelled in Dafny

This project models the core of the 3DMath C++ toolkit. It covers:

- **Boxes:** axis-aligned boxes and the bounding-box tree of triangles.
- **Planes:** the plane with its side test, nearest point and segment crossing.
- **Surfaces:** the plane and sphere surfaces, and the generic direct-path search over a surface.
- **Collections:** the handle registry, the object collection, and the graph with its traversor and deleter.
- **Meshes:** the index triangle, the triangle mesh and the ASCII PLY reader.
- **Particles:** the particle-system bookkeeping.

Coordinates are `real`. A Vector, Triangle, LineSegment, Vertex or IndexTriangle is a value (`datatype`). A C++ object whose fields its methods update becomes a `class`: AxisAlignedBox, Plane, the tree nodes, the registry, the collection, the traversor, the mesh, the particle and the particle system. A step-by-step C++ loop becomes a `method` with loop invariants. Each such method is proved against a specification function, and the properties are proved about that function.

Calls into numeric code the project leaves abstract become function-valued parameters:

- triangle/segment intersection;
- the nearest point on a surface;
- the sphere's distance, ray cast and intersection results;
- normalisation of a triangle's normal;
- `atof` and `atoi`;
- a particle's integration formula;
- a collision object's `ResolveCollision`.

In several places the C++ reads through a null pointer or past the end of a list. Those reads become preconditions that exclude exactly those inputs (`InsertDefined`, `FindDefined`, `HeaderDefined`, `VertexLinesDefined`, `FaceLineReadable`, `FanDefined`, `DeleteDefined`, and the requirement of `GraphTraversor.Traverse` and `TraverseOnce` that the handle at the front of a non-empty queue still dereferences to a live node). Exceptions become a `false` success result.

Modules, one per file: `Wrappers`, `Geometry`, `Boxes`, `BoxTrees`, `Planes`, `Surfaces`, `Handles`, `Objects`, `Graphs`, `IndexTriangles`, `TriangleMeshes`, `PlyFormat`, `Particles`.

## Model

| member | source | states |
|---|---|---|
| Boxes.InInterval | Code/AxisAlignedBox.cpp:82-87 | an inverted interval contains nothing, and a non-inverted one contains both its ends |
| Boxes.Box.ContainsPoint | Code/AxisAlignedBox.cpp:89-98 | only a box whose negative corner is nowhere above its positive corner contains a point, and such a box contains both its corners |
| Boxes.Box.SplitInTwo | Code/AxisAlignedBox.cpp:62-80 | both output boxes are left exactly as they were passed in, since the body assigns to neither |
| Boxes.DefaultBoxContainsOnlyOrigin | Code/AxisAlignedBox.cpp:9-13 | a default box has both corners at the origin, so the only point it contains is the origin |
| Boxes.AxisAlignedBox.constructor | Code/AxisAlignedBox.cpp:9-13 | a new box is the degenerate box at the origin |
| Boxes.AxisAlignedBox.FromCorners | Code/AxisAlignedBox.cpp:21-25 | the box has exactly the given negative and positive corners |
| Boxes.AxisAlignedBox.ExpandInterval | Code/AxisAlignedBox.cpp:38-44 | the new interval contains both the old interval and the value, and each end is either the old end or the value |
| Boxes.AxisAlignedBox.GrowToIncludePoint | Code/AxisAlignedBox.cpp:31-36 | afterwards the box contains the point and every point it contained before; each corner is the componentwise min/max with the point |
| Boxes.AxisAlignedBox.Intersect | Code/AxisAlignedBox.cpp:46-49 | always answers false and leaves the box unchanged |
| Boxes.AxisAlignedBox.Combine | Code/AxisAlignedBox.cpp:51-55 | the negative corner is the componentwise min of both boxes; the positive corner is boxA's alone, as written |
| Boxes.AxisAlignedBox.ContainsTriangle | Code/AxisAlignedBox.cpp:100-106 | true exactly when all three vertices lie in the box |
| Boxes.AxisAlignedBox.ContainsLineSegment | Code/AxisAlignedBox.cpp:108-114 | true exactly when both end points lie in the box |
| BoxTrees.BuildSize | Code/BoundingBoxTree.cpp:22-37 | CreateNode of depth d builds 2^d - 1 nodes (one for d < 1) and stores no triangle |
| BoxTrees.BuildChildBoxesDefault | Code/BoundingBoxTree.cpp:22-37 | the root gets the given box, it branches exactly when depth > 1, and every child keeps the default box because SplitInTwo writes nothing |
| BoxTrees.Insert | Code/BoundingBoxTree.cpp:76-87 | insertion succeeds exactly when the node's box contains the triangle; a refused triangle leaves the tree as it was |
| BoxTrees.InsertAddsOnce | Code/BoundingBoxTree.cpp:81-86 | a successful insertion adds the triangle exactly once (as a multiset) and a failed one adds nothing |
| BoxTrees.InsertKeepsWellPlaced | Code/BoundingBoxTree.cpp:76-87 | every stored triangle stays inside the box of the node that holds it |
| BoxTrees.InsertKeepsShape | Code/BoundingBoxTree.cpp:76-87 | insertion changes neither the tree's shape nor the triangles at its leaves |
| BoxTrees.InsertIntoBuiltTreeStoresAtRoot | Code/BoundingBoxTree.cpp:76-87 | in a freshly built tree (children with default boxes), a triangle other than the origin triangle is stored at the root |
| BoxTrees.OriginTriangleReachesNullChild | Code/BoundingBoxTree.cpp:82 | the origin triangle in a built tree whose box contains the origin descends to a null child, so the insertion is undefined |
| BoxTrees.FirstHit | Code/BoundingBoxTree.cpp:94-102 | a reported hit is on a triangle of the list |
| BoxTrees.FirstHitSound | Code/BoundingBoxTree.cpp:94-102 | the scan of a node's list reports a triangle of the list that the segment hits, or none when no triangle of the list is hit |
| BoxTrees.Find | Code/BoundingBoxTree.cpp:89-109 | a segment outside the node's box finds nothing |
| BoxTrees.FindIsFirstVisibleHit | Code/BoundingBoxTree.cpp:89-109 | the search returns the first hit among the triangles visible to the segment, in node-then-children order |
| BoxTrees.VisibleAreStored | Code/BoundingBoxTree.cpp:89-109 | every triangle the search examines is stored in the tree |
| BoxTrees.FindReportsStoredHit | Code/BoundingBoxTree.cpp:94-106 | a reported hit is a stored triangle the segment hits; no hit means no visible triangle is hit |
| BoxTrees.RootInsert | Code/BoundingBoxTree.cpp:39-45 | a tree without a root refuses every triangle |
| BoxTrees.InsertListCount | Code/BoundingBoxTree.cpp:47-54 | the list insertion stops at the first refusal; it succeeds exactly when every triangle was inserted |
| BoxTrees.InsertListStores | Code/BoundingBoxTree.cpp:47-54 | the triangles stored afterwards are those before plus the inserted prefix of the list, as a multiset |
| BoxTrees.RootFind | Code/BoundingBoxTree.cpp:56-62 | a tree without a root finds nothing |
| BoxTrees.Node.constructor | Code/BoundingBoxTree.cpp:64-68 | a new node is a leaf with the given box, no children and no triangles |
| BoxTrees.Node.CreateNode | Code/BoundingBoxTree.cpp:22-37 | the recursive construction builds the tree described by `Build` |
| BoxTrees.Node.InsertTriangle | Code/BoundingBoxTree.cpp:76-87 | the in-place insertion over linked nodes has the effect and the result of `Insert` |
| BoxTrees.Node.FindIntersection | Code/BoundingBoxTree.cpp:89-109 | the linked-node search returns what `Find` returns |
| BoxTrees.BoundingBoxTree.constructor | Code/BoundingBoxTree.cpp:7-10 | a new tree has no root |
| BoxTrees.BoundingBoxTree.GenerateNodes | Code/BoundingBoxTree.cpp:17-20 | the tree becomes a freshly built tree of the given box and depth |
| BoxTrees.BoundingBoxTree.InsertTriangle | Code/BoundingBoxTree.cpp:39-45 | the root insertion has the effect and the result of `RootInsert` |
| BoxTrees.BoundingBoxTree.InsertTriangleList | Code/BoundingBoxTree.cpp:47-54 | the loop over the list has the effect and the result of `InsertList` |
| BoxTrees.BoundingBoxTree.FindIntersection | Code/BoundingBoxTree.cpp:56-62 | the search from the root returns what `RootFind` returns |
| Planes.Plane.constructor | Code/Plane.cpp:8-12 | a new plane is z = 0: the signed distance of any point is its z coordinate |
| Planes.Plane.Copy | Code/Surface.cpp:149-152 | the copy has the same normal and offset, so it gives every point the same signed distance |
| Planes.Plane.SetCenterAndNormal | Code/Plane.cpp:18-22 | the plane takes the normal and passes through the center |
| Planes.Plane.Distance | Code/Plane.cpp:29-33 | with a unit normal, the signed distance is the component along the normal of the point's offset from the plane's center |
| Planes.Plane.NearestPoint | Code/Plane.cpp:45-49 | the offset from the nearest point back to the point is the normal scaled by the signed distance, and with a unit normal the nearest point lies on the plane |
| Planes.Plane.GetCenter | Code/Plane.cpp:24-27 | the point returned lies 2·dot along the normal from the corrected center |
| Planes.Plane.GetSide | Code/Plane.cpp:35-43 | front exactly when the signed distance exceeds eps, back exactly when it is below -eps, neither in between |
| Planes.Plane.Intersect | Code/Plane.cpp:51-65 | a crossing is reported exactly when the end points are not strictly on the same side; the segment lies in the plane exactly when both distances are zero |
| Planes.DistanceAlongNormal | Code/Plane.cpp:29-33 | moving a point t along the unit normal adds t to its signed distance |
| Planes.NearestPointOnPlane | Code/Plane.cpp:45-49 | the nearest point lies on the plane, projecting it again changes nothing, and its side is neither |
| Planes.GetCenterIsOffPlane | Code/Plane.cpp:24-27 | the point GetCenter returns has signed distance 2·dot, so it lies on the plane only for planes through the origin |
| Planes.GetCenterCounterexample | Code/Plane.cpp:24-27 | for the plane z = 1, GetCenter returns (0, 0, -1), two units off the plane, where (0, 0, 1) was meant |
| Planes.GetCenterOnPlaneIsOnPlane | Code/Plane.cpp:24-27 | the corrected center lies on the plane and is the point of the plane nearest the origin |
| Planes.CrossingWeight | Code/Plane.cpp:57-60 | the interpolation weight lies in [0, 1] and gives distance zero along the segment |
| Planes.IntersectOnSegmentAndPlane | Code/Plane.cpp:51-65 | a reported crossing point lies on the segment and on the plane |
| Surfaces.DirectPath | Code/Surface.cpp:79-98 | a found path has at least two points, starts at the first point and ends at the second |
| Surfaces.DirectPathChordsAccepted | Code/Surface.cpp:79-98 | every pair of consecutive points of a found path is a chord that passes the midpoint test |
| Surfaces.JoinKeepsChordsAccepted | Code/Surface.cpp:94-98 | joining two paths that share an end point keeps every chord accepted |
| Surfaces.DirectPathPassesThrough | Code/Surface.cpp:86-98 | a found path whose chord failed the midpoint test passes through the surface point nearest to that midpoint |
| Surfaces.DirectPathHalves | Code/Surface.cpp:86-98 | a found path whose chord failed the midpoint test needed depth, found both halves through the midpoint's surface point, is the first half without its last point followed by the second, and so has one point fewer than the halves together |
| Surfaces.DirectPathAccepts | Code/Surface.cpp:79-83 | when the midpoint is close enough to the surface, the path is just the two end points |
| Surfaces.DirectPathSplits | Code/Surface.cpp:86-98 | otherwise the path is the path to the surface point joined to the path from it, and fails when either half fails |
| Surfaces.PushBackAll | Code/Surface.cpp:94-98 | appending an array point by point yields the concatenation |
| Surfaces.FindDirectPath | Code/Surface.cpp:57-108 | the recursive method succeeds exactly when `DirectPath` finds a path, then appends that path, and otherwise leaves the array as it was |
| Surfaces.PlaneSurface.constructor | Code/Surface.cpp:149-152 | the surface keeps its handle and a fresh copy of the plane |
| Surfaces.PlaneSurface.GetSide | Code/Surface.cpp:158-166 | outside, inside and neither map the plane's front, back and neither |
| Surfaces.PlaneSurface.GetNearestSurfacePoint | Code/Surface.cpp:168-176 | the result carries the surface's handle, its location is the plane's nearest point to the query point, and for a unit normal it lies on the plane |
| Surfaces.PlaneSurface.FindIntersection | Code/Surface.cpp:178-186 | a crossing is reported at the plane's crossing point with the surface's handle; no crossing leaves the location unset |
| Surfaces.PlaneSurface.FindDirectPath | Code/Surface.cpp:188-204 | succeeds exactly when both points belong to this surface and the path is then the two points alone |
| Surfaces.PlaneOverrideAgreesWithGeneric | Code/Surface.cpp:188-204 | for two points on the plane, the generic search gives the same two-point path as the plane's override |
| Surfaces.SphereSurface.constructor | Code/Surface.cpp:234-236 | the surface keeps its handle |
| Surfaces.SphereSurface.GetSide | Code/Surface.cpp:242-250 | outside, inside and neither as the distance to the sphere is above, below or equal to eps |
| Surfaces.SphereSurface.GetNearestSurfacePoint | Code/Surface.cpp:252-270 | no point without a ray hit; otherwise the single hit, or the nearer of two hits |
| Surfaces.SphereSurface.FindIntersection | Code/Surface.cpp:272-282 | reports the hit exactly when the ray cast finds one point |
| Surfaces.SphereDirectPathFails | Code/Sphere.cpp:30-34 | with the ray cast as written (never a hit), the generic path search on a sphere always fails |
| Handles.HandleRegistry.constructor | Code/HandleObject.cpp:7 | a new registry is empty and issues handle 1 first |
| Handles.HandleRegistry.Register | Code/HandleObject.cpp:14-19 | registration issues the next handle, never one already in use, maps it to the object and leaves every other handle as it was |
| Handles.HandleRegistry.Unregister | Code/HandleObject.cpp:21-29 | the handle then dereferences to null and no other handle changes |
| Handles.HandleRegistry.Dereference | Code/HandleObject.cpp:31-41 | the object registered under the handle when one is, null otherwise, and always null for a handle never issued |
| Handles.HandleRegistry.NeverIssuedIsNull | Code/HandleObject.cpp:31-41 | a handle the registry has not issued yet dereferences to null |
| Objects.Object.constructor | Code/ObjectCollection.cpp:7-10 | a new object has id 0, meaning not in a collection |
| Objects.SmallestKey | Code/ObjectCollection.cpp:36 | the key found first is a key and no key is smaller |
| Objects.FirstKey | Code/ObjectCollection.cpp:36 | the first key in iteration order is the smallest key |
| Objects.SortedKeysAscending | Code/ParticleSystem.cpp:116-130 | the keys visited in map order are all the keys, each once, in ascending order |
| Objects.KeysInOrder | Code/ParticleSystem.cpp:116-130 | the walk over the map visits the keys in ascending order |
| Objects.ObjectCollection.constructor | Code/ObjectCollection.cpp:20-24 | a new collection is empty and issues id 1 first |
| Objects.ObjectCollection.AddObject | Code/ObjectCollection.cpp:43-51 | an object already holding an id is refused and nothing changes; otherwise it gets the next id and is stored under it |
| Objects.ObjectCollection.FindObject | Code/ObjectCollection.cpp:53-62 | finds the object stored under the id, or null when there is none |
| Objects.ObjectCollection.Clear | Code/ObjectCollection.cpp:32-41 | the collection becomes empty and ids are not reused |
| Graphs.FindName | Code/Graph.cpp:30-31 | the lookup returns a handle stored under the name, or none exactly when no entry has that name |
| Graphs.FindNameInOrdered | Code/Graph.cpp:30-35 | in a name-ordered adjacency map, looking up an entry's name finds that entry's handle |
| Graphs.GraphNode.constructor | Code/Graph.cpp:18-20 | a new node has no adjacencies and is registered under the next handle |
| Graphs.GraphNode.GetAdjacency | Code/Graph.cpp:26-38 | an unknown name gives null, and a node found is one the registry holds |
| Graphs.GetAdjacencyMeaning | Code/Graph.cpp:26-38 | an adjacency is found exactly when the name is in the map and its handle dereferences to a node |
| Graphs.UnvisitedMembers | Code/Graph.cpp:76-80 | the handles considered are exactly the adjacency handles not yet visited |
| Graphs.ReversedElements | Code/Graph.cpp:89-93 | depth-first order pushes the unvisited handles reversed |
| Graphs.EnqueuedLength | Code/Graph.cpp:74-97 | the queue grows by exactly the number of unvisited adjacencies |
| Graphs.GraphTraversor.constructor | Code/Graph.cpp:44-49 | the queue holds the start node and nothing is visited yet |
| Graphs.GraphTraversor.Traverse | Code/Graph.cpp:55-72 | an empty queue yields nothing and changes nothing; otherwise the front node is visited, returned and its unvisited adjacencies are queued |
| Graphs.GraphTraversor.EnqueueUnvisitedAdjacencies | Code/Graph.cpp:74-97 | the new queue is `Enqueued` of the old one: breadth-first appends, depth-first prepends in reverse |
| Graphs.DeleteNext | Code/Graph.cpp:10-11 | one traversal step unregisters exactly the node at the front of the queue |
| Graphs.DeleteGraph | Code/Graph.cpp:7-12 | deleting a graph unregisters exactly the nodes the traversal reaches, each once |
| Graphs.DiamondQueuesTwice | Code/Graph.cpp:79-86 | in a diamond (1→2, 1→3, 2→4, 3→4) the breadth-first queue holds node 4 twice |
| Graphs.DiamondDeleteUndefined | Code/Graph.cpp:7-12 | so deleting the diamond dereferences node 4's handle after node 4 is deleted, and reads its adjacencies through a null pointer |
| Graphs.FreshHandlesMeaning | Code/Graph.cpp:74-97 | the corrected enqueue adds each unvisited, not yet queued handle once, and nothing else |
| Graphs.GraphTraversor.TraverseOnce | Code/Graph.cpp:55-72 | the corrected Traverse: as Traverse, but the state afterwards is `StepOnce` of the state before, so no handle is queued twice |
| Graphs.GraphTraversor.EnqueueFreshAdjacencies | Code/Graph.cpp:74-97 | the corrected enqueue adds, in map order, exactly the neighbour handles that are neither visited nor already queued, each once |
| Graphs.EnqueueFresh | Code/Graph.cpp:74-97 | the corrected enqueue loop appends (breadth first) or pushes to the front (depth first) exactly the handles `FreshHandles` lists |
| Graphs.StepOnceKeepsWellQueued | Code/Graph.cpp:55-72 | with the corrected enqueue the queue never holds a handle twice or a visited handle |
| Graphs.ClosedGraphDeletesOnce | Code/Graph.cpp:7-12 | with the corrected enqueue, deleting a closed graph never meets a deleted node |
| Graphs.DiamondDeletesOnce | Code/Graph.cpp:7-12 | with the corrected enqueue, the diamond is deleted node by node once each |
| IndexTriangles.DefaultHasOnlyVertexZero | Code/IndexTriangle.cpp:9-14 | a default index triangle refers to vertex 0 and to no other |
| IndexTriangles.HasVertex | Code/IndexTriangle.cpp:68-74 | true exactly when the index is one of the three corners |
| IndexTriangles.CoincidentWith | Code/IndexTriangle.cpp:60-66 | true exactly when each corner of this triangle is a corner of the other |
| IndexTriangles.CoincidentReflexive | Code/IndexTriangle.cpp:60-66 | every triangle is coincident with itself |
| IndexTriangles.CoincidentIgnoresOrder | Code/IndexTriangle.cpp:60-66 | reordering the other triangle's corners does not change the answer |
| IndexTriangles.CoincidentNotSymmetric | Code/IndexTriangle.cpp:60-66 | (1,1,2) is coincident with (1,2,3) but not the other way round |
| IndexTriangles.CoincidentSymmetricWhenDistinct | Code/IndexTriangle.cpp:60-66 | for triangles with three distinct corners each, coincidence is symmetric |
| IndexTriangles.FirstOutOfBounds | Code/IndexTriangle.cpp:29-35 | the corners before the returned position are in range and the one at it is not |
| IndexTriangles.AllInBounds | Code/IndexTriangle.cpp:29-35 | the bounds check passes all three corners exactly when every index is in range |
| IndexTriangles.GetTriangle | Code/IndexTriangle.cpp:27-37 | succeeds exactly when all indices are in range; the corners before the first bad index are copied and the rest are left as they were |
| IndexTriangles.GetTriangleOfVertices | Code/IndexTriangle.cpp:39-49 | the same for a vertex array, copying each vertex's position |
| IndexTriangles.GetPlane | Code/IndexTriangle.cpp:51-58 | succeeds exactly when all indices are in range, then sets the plane through the first corner with the triangle's unit normal; otherwise the plane is unchanged |
| TriangleMeshes.FirstCoincident | Code/TriangleMesh.cpp:106-119 | finds the first listed triangle the given one is coincident with, or reports that there is none |
| TriangleMeshes.ToggledLength | Code/TriangleMesh.cpp:106-119 | the list grows by one exactly when no coincident triangle was listed and shrinks by one exactly when one was |
| TriangleMeshes.ToggleTwice | Code/TriangleMesh.cpp:106-119 | adding a new triangle and then toggling it again restores the list |
| TriangleMeshes.GetAfterSet | Code/TriangleMesh.cpp:150-166 | after setting a vertex position, reading it back gives that position and every other vertex is unchanged |
| TriangleMeshes.PositionsFromBack | Code/TriangleMesh.cpp:36-40 | the point cloud holds the positions of the vertices past the fourth, last vertex first |
| TriangleMeshes.TriangleMesh.constructor | Code/TriangleMesh.cpp:10-14 | a new mesh has no vertices and no triangles |
| TriangleMeshes.TriangleMesh.Clear | Code/TriangleMesh.cpp:22-26 | the mesh loses all vertices and triangles |
| TriangleMeshes.TriangleMesh.AddOrRemoveTriangle | Code/TriangleMesh.cpp:106-119 | removes the first coincident triangle if there is one, else appends the given triangle; vertices are unchanged |
| TriangleMeshes.TriangleMesh.SetVertexPosition | Code/TriangleMesh.cpp:150-157 | succeeds exactly for an index in range, then changes only that vertex's position |
| TriangleMeshes.TriangleMesh.GetVertexPosition | Code/TriangleMesh.cpp:159-166 | returns the vertex's position for an index in range, otherwise leaves the output as it was |
| TriangleMeshes.TriangleMesh.FindConvexHullSetup | Code/TriangleMesh.cpp:28-40 | fails with fewer than four vertices; otherwise clears the triangles, keeps the first four vertices and moves the rest, last first, into the point cloud |
| PlyFormat.FirstNonComment | Code/FileFormat.cpp:58-62 | the comment skip stops at the first line that is not a comment, and every line skipped was a comment |
| PlyFormat.FindEndHeader | Code/FileFormat.cpp:67-71 | the scan stops at the first "end_header" line, and no line before it is one |
| PlyFormat.LoadTriangleMeshHeader | Code/FileFormat.cpp:33-73 | the mesh is cleared; the load goes on exactly when the magic line is "ply" and the format line is "format ascii 1.0", with the header index past the comments and the body index after the first later "end_header" |
| PlyFormat.WithComponent | Code/FileFormat.cpp:138-161 | writing a named component makes it read back as the value and changes no other component |
| PlyFormat.AssembleLastWins | Code/FileFormat.cpp:129-162 | each component of the read vertex is the last value written under its name, or zero when no property names it |
| PlyFormat.ReadVertex | Code/FileFormat.cpp:129-162 | reading succeeds exactly when every property line reached begins with "property" and names a component, and the vertex read is the one assembled from those names and the body's values |
| PlyFormat.AddVertex | Code/FileFormat.cpp:123-165 | fails, adding nothing, when a property line reached is not "property" or names no component; otherwise appends exactly the assembled vertex |
| PlyFormat.StandardFaceLineRejectedAsWritten | Code/FileFormat.cpp:172-180 | the standard "property list uchar int vertex_index" line is refused by the check as written and accepted by the corrected one |
| PlyFormat.FanTessellatesPolygon | Code/FileFormat.cpp:182-193 | the fan has count - 2 triangles; triangle i is (corner 0, corner i + 1, corner i + 2), so each shares an edge with the next, the first starts at corner 1 and the last ends at the last corner |
| PlyFormat.AddTriangles | Code/FileFormat.cpp:167-194 | succeeds exactly when the face property line is accepted, then appends the polygon's fan; otherwise nothing changes |
| Particles.HistoryCap | Code/ParticleSystem.cpp:250 | the cap is the maximum for a non-negative count and at least 2^31 for a negative one, which the unsigned cast wraps |
| Particles.Window | Code/ParticleSystem.cpp:249-251 | the history is the newest entries of the old history after the pushed position, cut to the cap |
| Particles.IntegratedKeepsHistoryWindow | Code/ParticleSystem.cpp:249-253 | after a step the history is within its cap, the previous position is the position before the step (the new one with a zero cap), and nothing but the position, the velocity and the history changes |
| Particles.NewParticleKeepsOnePosition | Code/ParticleSystem.cpp:182-191 | a new particle keeps exactly one previous position after one step |
| Particles.ParticleState.PreviousPosition | Code/ParticleSystem.cpp:198-204 | the previous position is the newest recorded position, or the current position when none is recorded |
| Particles.ParticleState.IsDead | Code/ParticleSystem.cpp:53 | a particle without a time of death never dies, and a dead particle's time of death has come |
| Particles.Particle.constructor | Code/ParticleSystem.cpp:182-191 | a new particle is at rest with zero net force, mass 1, no time of death, an empty history and a history cap of 1; it starts at the origin, which is a modelling choice (the base particle stores no position) |
| Particles.Particle.Integrate | Code/ParticleSystem.cpp:206-254 | the history push-and-trim loop and the move to the motion's position and velocity leave the particle in the `Integrated` state |
| Particles.AccumulatedStep | Code/ParticleSystem.cpp:74-93 | applying one more stored force pushes every particle once more with that force; an id with no force adds nothing |
| Particles.AccumulatedKeepsAllButNetForce | Code/ParticleSystem.cpp:299-330 | applying forces changes nothing about a particle but its net force |
| Particles.UntargetedForceLeavesParticle | Code/ParticleSystem.cpp:440-522 | another particle's friction force, and a spring not attached to the particle or missing an end particle among the positions, leave the particle unchanged |
| Particles.GenericForcesSum | Code/ParticleSystem.cpp:327-330 | with only generic forces, the net force becomes the starting net force plus the sum of the forces' vectors |
| Particles.FrictionForceOf | Code/ParticleSystem.cpp:490-498 | a friction force is transient |
| Particles.ResolveAll | Code/ParticleSystem.cpp:129-148 | every impact handed on for a friction force has non-zero friction, and there is at most one per collision object |
| Particles.NoCollisionNoFriction | Code/ParticleSystem.cpp:129-148 | when no collision object takes the impact, the particle stays where it is and no force is added |
| Particles.FrictionlessAddsNoForce | Code/ParticleSystem.cpp:134-145 | when no resolution comes with friction, no force is added |
| Particles.WithFrictionForcesMeaning | Code/ParticleSystem.cpp:138-144 | the added forces sit under consecutive new ids, one friction force for each impact; every other force is unchanged |
| Particles.WithFrictionForcesAt | Code/ParticleSystem.cpp:138-144 | impact i of a particle is stored as that particle's friction force under id nextId + i |
| Particles.FrictionForcesAddOnlyFriction | Code/ParticleSystem.cpp:138-144 | forces added past every existing id keep the old forces and add only transient friction forces |
| Particles.FrictionBatchesStep | Code/ParticleSystem.cpp:116-150 | resolving one more particle appends its friction forces after all earlier ones and advances the id counter by their number |
| Particles.FrictionBatchesAppend | Code/ParticleSystem.cpp:116-150 | the friction impacts of one more particle come after those of the particles before it |
| Particles.BatchAppend | Code/ParticleSystem.cpp:138-144 | one more particle's friction forces take the ids following all earlier ones |
| Particles.FrictionBatchesNonZero | Code/ParticleSystem.cpp:138-144 | every impact that becomes a friction force has non-zero friction |
| Particles.WithAllFrictionsMeaning | Code/ParticleSystem.cpp:138-144 | resolving all particles keeps every old force, adds only transient friction forces, and uses exactly the ids from the counter up to the counter plus the number added |
| Particles.ResolvedForceIdsBelow | Code/ParticleSystem.cpp:138-144 | after resolution every force id is below the advanced counter |
| Particles.FrictionGoneAfterAccumulate | Code/ParticleSystem.cpp:74-93 | the next accumulation removes every friction force added by collision resolution and keeps exactly what it would have kept without them |
| Particles.ResolveParticle | Code/ParticleSystem.cpp:119-148 | one particle's walk over the collision objects leaves it at the last contact position and returns the impacts that need friction forces |
| Particles.SteppedAllAt | Code/ParticleSystem.cpp:36-40 | a surviving particle's stepped state is its state with the net force cleared, pushed by every force in id order, then integrated |
| Particles.AccumulatedAllStep | Code/ParticleSystem.cpp:74-93 | applying no force leaves every particle as it is, and applying one more stored force pushes every particle with it |
| Particles.ParticleSystem.constructor | Code/ParticleSystem.cpp:12-17 | a new system has empty collections, the center of mass at the origin and the clock at zero |
| Particles.ParticleSystem.Clear | Code/ParticleSystem.cpp:23-32 | all four collections are emptied and the center of mass and the clock are reset; force ids are not reused |
| Particles.ParticleSystem.CullDeadParticles | Code/ParticleSystem.cpp:44-61 | exactly the particles whose non-zero time of death has come are removed; the others stay under their ids |
| Particles.ParticleSystem.ResetParticlePhysics | Code/ParticleSystem.cpp:63-72 | every particle's net force becomes zero and nothing else about it changes |
| Particles.ParticleSystem.SetNetForce | Code/ParticleSystem.cpp:460-461 | the net force of one particle is set and no other particle changes |
| Particles.ParticleSystem.ApplyToEach | Code/ParticleSystem.cpp:299-308 | a force acting on every particle adds its push to each particle's net force, in id order |
| Particles.ParticleSystem.ApplyForce | Code/ParticleSystem.cpp:299-522 | one force's `Apply`: every particle ends in the `Pushed` state for the particles' positions, so a spring changes its two end particles when both exist, by a pull computed from their positions, friction changes its own particle only when the normal force is not positive, resistance adds the velocity scaled by minus the resistance, and every other force changes every particle; no position changes |
| Particles.ParticleSystem.ApplyNextForce | Code/ParticleSystem.cpp:82-83 | applying the next force in id order takes each particle from its `Accumulated` state for the forces before to the one for the forces up to it, positions unchanged |
| Particles.ParticleSystem.ApplyForcesInOrder | Code/ParticleSystem.cpp:74-93 | every force is applied once in id order, so each particle ends in its `Accumulated` state for the positions on entry, and the forces kept are exactly the non-transient ones |
| Particles.ParticleSystem.AccumulateForces | Code/ParticleSystem.cpp:74-93 | every force is applied once in id order, transient or not, enabled or not, so each particle ends in its `Accumulated` state for the positions on entry; exactly the transient forces are removed |
| Particles.ParticleSystem.IntegrateEach | Code/ParticleSystem.cpp:103-109 | every particle takes one integration step |
| Particles.ParticleSystem.IntegrateParticles | Code/ParticleSystem.cpp:95-112 | every particle takes one step of the fixed 0.016 length and the clock becomes the current time |
| Particles.ParticleSystem.ResolveNext | Code/ParticleSystem.cpp:119-148 | resolving one more particle in id order moves it to its `Resolved` state and adds its friction forces as the next batch |
| Particles.ParticleSystem.ResolveEach | Code/ParticleSystem.cpp:116-151 | every particle ends in its `Resolved` state, and the force map and counter gained are exactly the fold of the particles' friction batches in id order |
| Particles.ParticleSystem.ResolveCollisions | Code/ParticleSystem.cpp:114-152 | every particle is resolved against the collision objects in id order, and the forces become exactly the old forces with each particle's friction forces added in id order under consecutive new ids |
| Particles.ParticleSystem.StepSurvivors | Code/ParticleSystem.cpp:37-40 | each particle's net force is cleared, every force is applied in id order, the transient forces are dropped and each particle is integrated with the fixed step |
| Particles.ParticleSystem.Advance | Code/ParticleSystem.cpp:36-40 | the dead are culled, and each survivor ends in its `SteppedAll` state |
| Particles.ParticleSystem.Simulate | Code/ParticleSystem.cpp:34-42 | one step in the source's order: the dead are culled; each survivor's net force is cleared, every force is applied to it in id order and it is integrated; it is then resolved against the collision objects; the forces left are the non-transient ones plus the friction forces of each particle in id order |

## Left out

- Floating point: coordinates are exact reals. Square roots and normalisation are supplied by the caller as parameters.
- Physics formulas are not modelled:
  - the Euler and Verlet formulas of `Particle::Integrate` (Code/ParticleSystem.cpp:212-247) are the `motion` parameter, which gives the new position and velocity;
  - what a wind or torque force adds, a spring's pull from its end positions and `Vector::Normalize` are the `ForceLaw` parameter. Generic, resistance, gravity and friction forces are computed.
  - `CalculateCenterOfMass` (Code/ParticleSystem.cpp:154-176) is not modelled. It is floating-point arithmetic, and it divides by zero for an empty system.
- Particles.ParticleSystem.IntegrateParticles: the time step computed from the clock is overwritten by the constant 0.016 in the source, so only the constant is modelled.
- Particles.ParticleSystem.ResolveEach: the friction forces of one particle are added after that particle's walk over the collision objects, not during it. The resulting force map and ids are the same.
- Particles.ParticleSystem.ResolveCollisions: the ghost parameters `current` and `ids` name the particles' states and own ids on entry, so that the contract can state the result; the source has no such parameters.
- Particles.ParticleSystem.ResolveCollisions: collision objects are reduced to their ids plus the `resolve` parameter standing for `CollisionObject::ResolveCollision`. Emitters are reduced to their ids.
- Particles.Particle: the base particle declares `GetPosition`/`SetPosition` without a body and stores no position (Code/ParticleSystem.h:36-37). The model's particle stands for a particle that stores its own position in its `state` record. The only concrete particle, the mesh-vertex particle (Code/ParticleSystem.cpp:270-282), reads and writes a vertex of its mesh instead, and is not modelled: moving it moves the mesh vertex, which the model does not show.
- Particles.Particle.constructor: starting at the origin is a modelling choice. It matches a mesh-vertex particle that has no mesh yet (Code/ParticleSystem.cpp:270-276).
- Particles.Particle: the acceleration field is not kept. `Particle::Integrate` recomputes it from the net force and the mass before reading it, and nothing else reads it.
- Particles.Pushed: a wind force's push is a function of the force and the particle state, so two applications with equal inputs push alike, where the source draws a fresh random direction and strength each time. A torque force's push is a function of the force and the state too, so the system's center of mass that it reads is not passed to it. A spring's pull is a function of the force and its two end positions; its length and division by that length are not computed.
- Particles.Integrated: the new position and velocity are any function of the state before the step and the time step; the Euler and Verlet formulas, and the choice between them, are not modelled.
- The render methods, `SpringForce::Render` included, are not modelled.
- Default arguments are not modelled. The force constructors' default parameters (Code/ParticleSystem.cpp:318-498) are replaced by a force value built with all its parameters, and the `GraphTraversor` constructor's default mode `BREADTH_FIRST` (Code/Graph.h:39) by an explicit mode parameter. Whether a force is `enabled` is kept but read by nothing, as in the source.
- Integer width: ids, handles and counters are unbounded integers, so their overflow is not modelled. `previousPositionMax` is a 32-bit integer and its `(unsigned)` cast is modelled by `HistoryCap`.
- Surfaces.FindDirectPath: the source recursion has no bound. The model carries a `depth` fuel parameter and fails when the fuel runs out, so paths deeper than the fuel are not modelled.
- Surfaces.PlaneSurface.FindIntersection: a segment lying in the plane yields the source's undefined (NaN) point. The model leaves that location unconstrained.
- Surfaces.SphereSurface: the sphere's distance and ray-cast results are parameters. `Sphere::RayCast` as written returns no hit (Code/Sphere.cpp:30-34), which `SphereDirectPathFails` states.
- `Plane::SplitTriangle` and the other Plane.h declarations without a body in Plane.cpp are not modelled.
- Boxes.AxisAlignedBox: `GetCenter` (Code/AxisAlignedBox.cpp:57-60) and the copy constructor (Code/AxisAlignedBox.cpp:15-19) are not modelled; they only average and copy coordinates.
- Destructors and `ListFunctions.h` memory handling are not modelled: the tree node destructor (Code/BoundingBoxTree.cpp:70-74) and the freeing of the PLY line list. `GenerateNodes` drops the old root without freeing it, which the model cannot observe.
- BoxTrees.Node.FindIntersection: the `Triangle::Intersect` out-parameter is the `IntersectOracle` parameter, which returns the hit point only on a hit. A miss may still overwrite the caller's point: `Triangle::Intersect` writes it through `Plane::Intersect` before its `ContainsPoint` test (Code/Triangle.cpp:82-91). The model's `Option<Hit>` result does not show that write.
- Handles.HandleRegistry: the source keeps one untyped registry shared by every handle object. The model has a typed registry passed explicitly.
- Objects.ObjectCollection.Clear: the source deletes the objects in key order. Only the resulting empty map is modelled.
- TriangleMeshes.TriangleMesh.FindConvexHullSetup models `FindConvexHull` only up to the point cloud (Code/TriangleMesh.cpp:28-40). The hull construction after it, which is unfinished in the source, and `CalculateNormals` are not modelled.
- Vertex.h, IndexTriangle.h and Vector.h are not part of this model:
  - a default `Vertex` is taken to be all zeros;
  - `BoundsCheck` is taken to accept `0 <= j < size`;
  - the index triangle's pointer to its mesh is replaced by the vertex array passed in.
- PlyFormat: the element loop of `LoadTriangleMesh` (Code/FileFormat.cpp:75-96) is not modelled. It never advances the header position after an element line, so it does not terminate on an element line. `AddVertex` and `AddTriangles` are modelled as separate operations.
- PlyFormat: `TokenizeFile` and `SaveTriangleMesh` (Code/FileFormat.cpp:196-204) are stubs in the source. The tokenized file is an input of the model.
- PlyFormat.AddVertex and PlyFormat.AddTriangles: `propretyArray` is not declared anywhere (the iterator is `propretyIter`), so Code/FileFormat.cpp does not compile as written at lines 133, 140, 173, 176 and 177. The model reads `propertyArray`, the property line the iterator reached, at each of those places, in `AddTriangles` as well as in `AddVertex`.
- PlyFormat: exceptions become a `false` success result. A mesh left partly loaded is not modelled beyond the single line each method reads.

## Findings

| source | as written | input that shows it | evidently intended | confidence | as-written member | corrected member |
|---|---|---|---|---|---|---|
| Code/Plane.cpp:24-27 | `GetCenter` returns `normal * dot`; with distance `normal·p + dot`, that point has distance `2·dot` | the plane z = 1 (normal (0,0,1), dot -1): GetCenter gives (0,0,-1), two units off the plane | the point of the plane nearest the origin, `normal * -dot` | not executed | Planes.GetCenterCounterexample | Planes.GetCenterOnPlaneIsOnPlane |
| Code/Graph.cpp:79-86 | the traversor queues every adjacency not yet visited, even one already in the queue, and the deleter unregisters each dequeued node | the diamond 1→2, 1→3, 2→4, 3→4: node 4 is queued twice, so `DeleteGraph` dereferences it after deleting it | queue a handle only when it is neither visited nor queued, so every node is deleted once | not executed | Graphs.DiamondDeleteUndefined | Graphs.GraphTraversor.TraverseOnce and Graphs.ClosedGraphDeletesOnce |
| Code/FileFormat.cpp:172-180 | the face property line is compared against the keyword "proprety" | the standard line "property list uchar int vertex_index" is refused, so no PLY face is ever read | compare against "property" | not executed | PlyFormat.StandardFaceLineRejectedAsWritten | PlyFormat.AddTriangles |
