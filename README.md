# Octree with view-frustum culling

This project models the spatial index of the 2d3dsema demo. It is an octree
of axis-aligned bounding boxes (AABBs) holding references to cubes, queried
with the six-plane test of a camera's view frustum. It has four parts:

- `geometry.dfy` (module `Geometry`): vectors, planes with a signed
  distance, AABBs given as center plus half-extents, the box-against-plane
  test, the box-against-frustum test and the point-in-box test. It also
  proves what these tests guarantee.
- `camera.dfy` (module `Camera`): `createFrustumFromCamera`. `tan`,
  `radians` and `normalize` are function-valued parameters, and the lemmas
  state what they require of them.
- `scene.dfy` (module `Scene`): the `Cube` class, whose position, size and
  bounding box never change after construction.
- `octree.dfy` (module `Octree`): the octree as a value.
  - `Tree` is a leaf holding cubes or an internal node with eight children.
  - `Insert`, `IntoChild` and `Reroute` say what an insertion does.
  - `Visible` says what the visibility query returns.
  - `WF` and `Inv` are the node-state invariants.
- `octree_props.dfy` (module `OctreeProps`): lemmas over those functions.
  - Routing and the child layout.
  - The shape of each insertion case.
  - Preservation of the invariant.
  - Object counts.
  - Containment of stored positions.
  - Soundness and completeness of the query.
- `octree_node.dfy` (module `OctreeNodes`): the `OctreeNode` class as the
  program keeps it.
  - Its state is a fixed box, a list of cube references updated in place, a
    fixed array of eight child slots and a leaf flag.
  - Each method is proved to change the node exactly as the `Octree`
    functions say. Each node carries its value as the ghost field `model`,
    and its footprint as the ghost field `Repr`.

**The child layout does not match the routing rule.** This is modelled as
written. `insertIntoChild` routes by the bits `x >= cx`, `y >= cy` and
`z >= cz`, at weights 1, 2 and 4. `subdivide` puts the X-high and X-low
octants the other way round in slots 2/3 and in slots 6/7. As a result:

- a cube routed to slot 2 or 6 is always dropped (`RoutedToSlot2Or6Outside`,
  `InsertDropsAtSlot2Or6`);
- a cube routed to slot 3 or 7 is kept only when its X equals the center's
  (`RoutedToSlot3Or7`);
- a split can lose every cube it held (`SplitDropsSlot2Or6`,
  `SplitCanLoseCubes`).

The model follows 2d3dsema.cpp. main.cpp holds the same classes, with these
differences:

- It names the constants `MAX_OBJECTS_PER_NODE` and `MIN_NODE_SIZE`. The
  model has them as `Octree.MaxObjectsPerNode` and `Octree.MinNodeSize`.
- Its `insertIntoChild` has no null check (main.cpp:296). It is only reached
  once all eight children exist (after `subdivide`, or at an internal node),
  and `OctreeNode.Valid` proves that every internal node has all eight. So
  the two versions behave alike.
- It clears the leaf flag before routing the new cube (main.cpp:236). The
  routing does not read the flag, so the order cannot be observed.

2d3dsema.cpp's `createFrustumFromCamera` does not check its arguments or
report an error for them, and the model does not either; main.cpp has no
frustum builder.
`Camera.ViewAxisInside` states which parameters put the points of the view
axis between the clip distances strictly in front of all six faces.

## Model

| member | source | states |
|---|---|---|
| Geometry.SignedDistance | 2d3dsema.cpp:188-190 | none, definition: `dot(normal, p) - distance`; see `PlaneThrough` |
| Geometry.Contains | 2d3dsema.cpp:318-325 | none, definition: the inclusive six-face test; see `OctreeProps.ContainsByCorners` |
| Geometry.ProjectedRadius | 2d3dsema.cpp:230-232 | none, definition: the extents weighted by the absolute normal components; see `SupportCorner` |
| Geometry.IsOnOrForwardPlane | 2d3dsema.cpp:229-234 | none, definition: `-r <= signed distance of the center`; see `PlaneTestSound`, `PlaneTestExact` |
| Geometry.IsOnFrustum | 2d3dsema.cpp:236-243 | none, definition: the AND of the six plane tests in the source's order; see `FrustumTestSound` |
| Geometry.PlaneThrough | 2d3dsema.cpp:185-190 | the plane built from point `p1` has normal `normalize(norm)` and gives `p1` signed distance 0, whatever `normalize` returns |
| Geometry.FromMinMax | 2d3dsema.cpp:226-227 | the box from (min, max) has `center - extents == min` and `center + extents == max`; its extents are non-negative iff `min <= max` on every axis |
| Geometry.PlaneTestSound | 2d3dsema.cpp:229-234 | no false negatives: a box containing a point on or in front of the plane passes the plane test |
| Geometry.SupportCorner | 2d3dsema.cpp:229-234 | the corner furthest along the normal lies in a box with non-negative extents, and its signed distance is the center's plus the projected radius |
| Geometry.PlaneTestExact | 2d3dsema.cpp:229-234 | for non-negative extents, the plane test passes iff some point of the box is on or in front of the plane; it fails only when every point of the box is strictly behind |
| Geometry.PlaneTestMonotone | main.cpp:158-166 | widening the extents around the same center never turns a pass into a fail |
| Geometry.FrustumTestSound | 2d3dsema.cpp:236-243 | a box containing a point inside all six half-spaces passes the frustum test |
| Geometry.FrustumTestMonotone | main.cpp:168-173 | widening a box around the same center never makes it fail the frustum test |
| Camera.HalfVSide | 2d3dsema.cpp:207 | none, definition: `zFar * tan(radians(fovY) * 0.5)` with `tan` and `radians` as parameters; see `ViewAxisInside` |
| Camera.HalfHSide | 2d3dsema.cpp:208 | none, definition: `halfVSide * aspect`; see `ViewAxisInside` |
| Camera.RightNormal | 2d3dsema.cpp:213 | none, definition: `cross(up, frontMultFar + right * halfHSide)`; see `RightNormalAlongFront` |
| Camera.LeftNormal | 2d3dsema.cpp:214 | none, definition: `cross(frontMultFar - right * halfHSide, up)`; see `LeftNormalAlongFront` |
| Camera.TopNormal | 2d3dsema.cpp:215 | none, definition: `cross(right, frontMultFar - up * halfVSide)`; see `TopNormalAlongFront` |
| Camera.BottomNormal | 2d3dsema.cpp:216 | none, definition: `cross(frontMultFar + up * halfVSide, right)`; see `BottomNormalAlongFront` |
| Camera.CreateFrustumFromCamera | 2d3dsema.cpp:204-219 | the near face passes through `pos + zNear*front` and the far face through `pos + zFar*front`, with normals `normalize(front)` and `normalize(-front)`; the four side faces pass through the camera position |
| Camera.RightNormalAlongFront | 2d3dsema.cpp:213 | the right-face vector, dotted with `front`, equals the half side times the handedness `dot(cross(up, right), front)` |
| Camera.LeftNormalAlongFront | 2d3dsema.cpp:214 | the same for the left-face vector |
| Camera.TopNormalAlongFront | 2d3dsema.cpp:215 | the same for the top-face vector |
| Camera.BottomNormalAlongFront | 2d3dsema.cpp:216 | the same for the bottom-face vector |
| Camera.AheadOfNearFace | 2d3dsema.cpp:211 | with a positively scaling `normalize`, a point further along `front` than `zNear` is strictly in front of the near face |
| Camera.BeforeFarFace | 2d3dsema.cpp:212 | with a positively scaling `normalize`, a point along `front` closer than `zFar` is strictly in front of the far face |
| Camera.AxisInFrontOfSideFace | 2d3dsema.cpp:213-216 | a side face through the camera whose vector has a positive dot product with `front` keeps the forward view axis strictly in front |
| Camera.ViewAxisInside | 2d3dsema.cpp:204-219 | for a positively scaling `normalize`, a right-handed basis, a positive aspect, a positive `tan` of the half angle, and `0 < zNear < t < zFar`, the point `pos + t*front` has a strictly positive signed distance to each of the six faces, so it is inside the frustum |
| Scene.CubeBox | 2d3dsema.cpp:253-254 | none, definition: the box spanned by `pos - s/2` and `pos + s/2`; see `CubeBoxCentered` |
| Scene.Cube.constructor | 2d3dsema.cpp:253-254 | the cube keeps its position and size, and its box is the one spanned by `pos -/+ s/2` |
| Scene.CubeBoxCentered | main.cpp:185-188 | a cube's box is centered at its position, with half-extent `size/2` on every axis; the extents are non-negative iff the size is |
| Scene.CubeSeenWhenPositionInside | 2d3dsema.cpp:236-254 | a cube of non-negative size whose position is inside the frustum passes the frustum test |
| Octree.ChildIndex | 2d3dsema.cpp:327-334 | the routing index is below 8, and bits 0, 1 and 2 are set iff X, Y and Z are at or above the center (ties go to the upper half) |
| Octree.Octant | 2d3dsema.cpp:303-316 | every child box has half the parent's extents |
| Octree.Subdivision | 2d3dsema.cpp:303-316 | a split creates eight children, all empty leaves with half the parent's extents; see `SubdivisionCovers` and `SubdivisionWithin` for how they tile the parent |
| Octree.Insert | 2d3dsema.cpp:280-301 | insertion keeps the shape invariant `WF` and the node's bounds |
| Octree.IntoChild | 2d3dsema.cpp:327-339 | routing one cube into the children keeps the children well formed |
| Octree.Reroute | 2d3dsema.cpp:291-293 | routing the held cubes in order keeps the children well formed |
| Octree.Filter | 2d3dsema.cpp:346-351 | none, definition: the held cubes whose own box passes, in order; see `FilterSound` |
| Octree.Visible | 2d3dsema.cpp:341-360 | none, definition: nothing if the node box fails, else the passing cubes of a leaf or the children's results in slot order; see `VisibleSound`, `StoredAndInsideIsVisible` |
| Octree.AllVisible | 2d3dsema.cpp:353-358 | none, definition: the children's results concatenated in slot order; see `AllVisibleSound`, `VisibleInAll` |
| OctreeProps.OctantCorners | 2d3dsema.cpp:303-316 | each slot's corners per axis, as `subdivide` writes them: X-high for slots 1, 2, 5 and 6, Y-high for 2, 3, 6 and 7, Z-high for 4 to 7 |
| OctreeProps.ContainsByCorners | 2d3dsema.cpp:318-325 | the bounds check is the inclusive test `min <= p <= max` on every axis |
| OctreeProps.RoutedIntoMatchingSlot | 2d3dsema.cpp:308-337 | for slots 0, 1, 4 and 5, the child box contains every point of the parent routed to it |
| OctreeProps.RoutedToSlot2Or6Outside | 2d3dsema.cpp:308-337 | a point routed to slot 2 or 6 is never inside that slot's box |
| OctreeProps.RoutedToSlot3Or7 | 2d3dsema.cpp:308-337 | a point of the parent routed to slot 3 or 7 is inside that slot's box iff its X equals the center's |
| OctreeProps.SubdivisionCovers | 2d3dsema.cpp:303-316 | every point of the parent's box lies in the box of some child a split creates; the slots hold the eight octants, only in a different order from the routing index |
| OctreeProps.SubdivisionWithin | 2d3dsema.cpp:303-316 | for non-negative extents, every child box of a split lies within the parent's box |
| OctreeProps.OctantWithin | 2d3dsema.cpp:303-316 | a child box lies within its parent's box when the parent's extents are non-negative |
| OctreeProps.InsertOutsideIsNoOp | 2d3dsema.cpp:282-284 | a position outside the inclusive bounds leaves the node unchanged |
| OctreeProps.InsertIntoRoomyLeaf | 2d3dsema.cpp:286-288 | a leaf with fewer than `MaxObjectsPerNode` (4, main.cpp:24) cubes, or with X half-extent below `MinNodeSize` (2, main.cpp:25), appends the cube and stays a leaf |
| OctreeProps.InsertSplitsFullLeaf | 2d3dsema.cpp:289-297 | otherwise the leaf becomes internal, with eight children covering `Octant(b, 0..7)` |
| OctreeProps.SubdivisionWF | 2d3dsema.cpp:303-316 | the eight new leaves of a box that is large enough to split form a well-formed child list |
| OctreeProps.InsertTouchesOneChild | 2d3dsema.cpp:298-300 | at an internal node only the routed child changes, by inserting the cube; the other seven stay as they were |
| OctreeProps.InsertDropsAtSlot2Or6 | 2d3dsema.cpp:298-339 | at an internal node, a cube routed to slot 2 or 6 leaves the tree unchanged |
| OctreeProps.IntoChildDropsAtSlot2Or6 | 2d3dsema.cpp:327-339 | routing a cube to slot 2 or 6 leaves the children unchanged |
| OctreeProps.RerouteDropsAtSlot2Or6 | 2d3dsema.cpp:291-293 | re-routing cubes that all go to slot 2 or 6 leaves the children unchanged |
| OctreeProps.SplitDropsSlot2Or6 | 2d3dsema.cpp:289-297 | when the held cubes and the new cube all route to slot 2 or 6, the split yields eight empty children and no cube is stored |
| OctreeProps.InsertPreservesInv | 2d3dsema.cpp:280-301 | insertion preserves the invariant: internal nodes have eight children in the subdivide layout; a leaf with X half-extent at least 2 holds at most 4 cubes; every held position is inside its leaf |
| OctreeProps.IntoChildKeepsLeaves | 2d3dsema.cpp:327-339 | routing a cube keeps every child's leaf invariant |
| OctreeProps.RerouteKeepsLeaves | 2d3dsema.cpp:291-293 | re-routing the held cubes keeps every child's leaf invariant |
| OctreeProps.AllObjectsUpdate | 2d3dsema.cpp:336-337 | replacing one child exchanges exactly that child's cubes in the multiset of all stored cubes |
| OctreeProps.AllObjectsOfEmpty | 2d3dsema.cpp:303-316 | children that hold no cubes contribute no cubes |
| OctreeProps.InsertAddsAtMostOne | main.cpp:217-240 | one insertion stores at most the inserted cube more: the stored multiset afterwards is within the one before plus `c` |
| OctreeProps.IntoChildAddsAtMostOne | main.cpp:289-297 | routing one cube adds at most that cube to the children |
| OctreeProps.RerouteAddsAtMost | main.cpp:231-233 | re-routing cubes adds at most those cubes to the children |
| OctreeProps.InAllObjects | 2d3dsema.cpp:265-270 | a cube stored under a node is stored in one of its children |
| OctreeProps.StoredInsideBounds | main.cpp:219-220 | under the invariant, every stored cube's position is inside the bounds of each node above it |
| OctreeProps.InsertAll | 2d3dsema.cpp:280-301 | any sequence of insertions keeps the shape invariant and the root bounds |
| OctreeProps.InBounds | 2d3dsema.cpp:318-325 | the selected cubes are cubes of the input whose positions are inside the box |
| OctreeProps.InsertAllPreservesInv | 2d3dsema.cpp:280-301 | any sequence of insertions keeps the full invariant |
| OctreeProps.SmallLeafNeverSplits | 2d3dsema.cpp:286-288 | a leaf with X half-extent below 2 never splits, and keeps every in-bounds cube in insertion order |
| OctreeProps.SplitCanLoseCubes | 2d3dsema.cpp:289-316 | a root of half-extent 4 holding four cubes at (-1, 1, -1) splits on a fifth such cube and then stores none of the five |
| OctreeProps.FilterConcat | 2d3dsema.cpp:346-351 | the per-cube test distributes over concatenation |
| OctreeProps.FilterSound | 2d3dsema.cpp:346-351 | the cubes kept are a sub-multiset of the held cubes; a held cube is kept iff its own box passes the frustum test |
| OctreeProps.FilterAllPass | 2d3dsema.cpp:346-351 | when every held cube passes, all are kept in order |
| OctreeProps.VisibleSound | 2d3dsema.cpp:341-360 | the query returns only cubes stored in the subtree, none more often than it is stored, and only cubes whose own box passes |
| OctreeProps.AllVisibleSound | 2d3dsema.cpp:353-358 | the same, over the children in slot order |
| OctreeProps.VisiblePruned | 2d3dsema.cpp:342-344 | a subtree whose node box fails the frustum test contributes nothing |
| OctreeProps.VisibleWhenNodesPass | 2d3dsema.cpp:341-360 | when every node box passes, the query returns exactly the stored cubes whose own box passes, in storage order |
| OctreeProps.AllVisibleWhenNodesPass | 2d3dsema.cpp:353-358 | the same, over the children in slot order |
| OctreeProps.UniverseFrustum | 2d3dsema.cpp:229-243 | a frustum of six planes with zero normal and offset -1 passes every box |
| OctreeProps.UniverseAllNodesPass | 2d3dsema.cpp:342-344 | under that frustum no subtree is pruned |
| OctreeProps.VisibleInAll | 2d3dsema.cpp:353-358 | a cube returned by one child's query is returned by the query over all the children |
| OctreeProps.StoredAndInsideIsVisible | 2d3dsema.cpp:341-360 | no stored cube is wrongly culled: under the invariant, a stored cube of non-negative size whose position is inside the frustum is returned by the query |
| OctreeProps.QueryWithUniverseReturnsAll | 2d3dsema.cpp:341-360 | under that frustum the query returns every stored cube, exactly as stored |
| OctreeNodes.OctreeNode.constructor | 2d3dsema.cpp:265-272 | a new node is a valid leaf with the given bounds, no cubes and eight null child slots |
| OctreeNodes.OctreeNode.Subdivide | 2d3dsema.cpp:303-316 | fills all eight empty slots, slot `i` with a new empty leaf covering `Octant(bounds, i)` |
| OctreeNodes.OctreeNode.PlaceChild | 2d3dsema.cpp:308-315 | fills slot `k` with a new empty leaf covering `Octant(bounds, k)` and leaves the other slots untouched |
| OctreeNodes.OctreeNode.InsertIntoChild | 2d3dsema.cpp:327-339 | the routed child, if present, changes as `Octree.Insert` says; every other child keeps its value |
| OctreeNodes.OctreeNode.Insert | 2d3dsema.cpp:280-301 | keeps the node valid, and its new value is `Octree.Insert` of the old value |
| OctreeNodes.OctreeNode.Split | 2d3dsema.cpp:289-297 | a full leaf becomes a valid internal node whose value is the functional split of its cubes, followed by routing the new cube |
| OctreeNodes.OctreeNode.RouteHeld | 2d3dsema.cpp:291-293 | routing the held cubes first to last turns the children's values into `Reroute` of their old values |
| OctreeNodes.OctreeNode.RouteOne | 2d3dsema.cpp:291-293 | routing one held cube turns the children's values into `IntoChild` of their old values |
| OctreeNodes.OctreeNode.BecomeInternal | 2d3dsema.cpp:294-296 | with the list cleared and the children in place, clearing the leaf flag yields a valid internal node |
| OctreeNodes.OctreeNode.Traverse | 2d3dsema.cpp:341-360 | the result keeps the incoming cubes as a prefix and appends exactly `Visible(model, frustum)`; the tree is not modified |
| OctreeNodes.OctreeNode.TraverseChildren | 2d3dsema.cpp:353-358 | visiting the children in slot order appends exactly their query results |
| OctreeNodes.OctreeNode.VisitChild | 2d3dsema.cpp:355-357 | visiting one present child slot appends exactly that child's query result; the tree is not modified |

## Left out

- Rendering has no model: the window, GL setup, `drawCube`, `Cube::draw`, and the `draw()` call inside the traversal. The call is a side effect on the screen.
- Keyboard and mouse input, and the camera state it changes, have no model. The frustum builder takes the camera pose as its arguments.
- The render loop, the top-down overlay, the visible-membership scan and console output have no model. They are presentation only.
- Random scene generation has no model. Cube positions and sizes are arguments.
- Coordinates are `real`, so IEEE float rounding is not modelled.
- `glm::normalize`, `tanf` and `glm::radians` have no model. They are function parameters, and the lemmas that need a property of them state it in their requires.
- The destructor `~OctreeNode` has no model: Dafny's heap has no manual deallocation.
- Recursion depth is measured by `Octree.Levels(extents.x)`. This is the number of halvings before the X half-extent drops below 2.
- OctreeNodes.OctreeNode.Subdivide: the source writes eight assignments. The model fills the slots in a loop over `k`, and `Octree.Octant(b, k)` spells out each of the eight boxes. Its requires (no children yet, X half-extent at least 2) is the condition under which its single caller runs it.
- OctreeNodes.OctreeNode.Valid: it keeps the shape invariant `Octree.WF` of `model`, not the full `Octree.Inv`. The leaf bounds follow from `OctreeProps.InsertPreservesInv`, because each insertion changes `model` exactly as `Octree.Insert` does.
- Scene.CubeBoxCentered and Scene.CubeSeenWhenPositionInside: they require `Cube.Boxed()`, which the constructor ensures. A `Cube` value not built by the constructor is not covered.
- OctreeProps.StoredAndInsideIsVisible: completeness covers cubes whose position lies inside the frustum, not every cube whose box meets it. A cube's box can reach past the box of the node that stores it. That node's box can then fail the frustum test, which drops the cube. The source prunes that way, so the model does too.
