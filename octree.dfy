/**
 * The octree as a value: what a node holds, how an insertion reshapes it
 * and which cubes a visibility query returns. The class in
 * octree_node.dfy is proved to follow these functions step by step.
 */
module Octree {
  import opened Geometry
  import opened Scene

  /** A leaf splits once it holds this many cubes ... */
  const MaxObjectsPerNode: nat := 4
  /** ... unless its X half-extent is below this. */
  const MinNodeSize: real := 2.0

  /**
   * A node is a leaf holding cubes directly, or an internal node whose
   * eight children cover its octants (and which holds no cubes itself).
   */
  datatype Tree = Leaf(bounds: AABB, objects: seq<Cube>) | Node(bounds: AABB, kids: seq<Tree>)

  /** How many times `e` can be halved before it falls below MinNodeSize. */
  function Levels(e: real): nat
    decreases if e < MinNodeSize then 0 else e.Floor
  {
    if e < MinNodeSize then 0 else 1 + Levels(e / 2.0)
  }

  // ----------------------------------------------------------- subdivision

  /**
   * The routing index: bit 0 for X, bit 1 for Y, bit 2 for Z, each set when
   * the coordinate is at or above the center (ties go to the upper half).
   */
  function ChildIndex(center: Vec3, p: Vec3): (i: nat)
    ensures i < 8
    ensures (i % 2 == 1) <==> p.x >= center.x
    ensures ((i / 2) % 2 == 1) <==> p.y >= center.y
    ensures (i / 4 == 1) <==> p.z >= center.z
  {
    (if p.x >= center.x then 1 else 0)
    + (if p.y >= center.y then 2 else 0)
    + (if p.z >= center.z then 4 else 0)
  }

  /**
   * The box of child slot `i`, in the layout subdivision uses. Slots 2 and 3,
   * and slots 6 and 7, hold the X-high and X-low octants the other way round
   * from the routing index.
   */
  function Octant(b: AABB, i: nat): (o: AABB)
    requires i < 8
    ensures o.extents == Scale(0.5, b.extents)
  {
    var min, max, mid := MinCorner(b), MaxCorner(b), b.center;
    if i == 0 then FromMinMax(Vec3(min.x, min.y, min.z), Vec3(mid.x, mid.y, mid.z))
    else if i == 1 then FromMinMax(Vec3(mid.x, min.y, min.z), Vec3(max.x, mid.y, mid.z))
    else if i == 2 then FromMinMax(Vec3(mid.x, mid.y, min.z), Vec3(max.x, max.y, mid.z))
    else if i == 3 then FromMinMax(Vec3(min.x, mid.y, min.z), Vec3(mid.x, max.y, mid.z))
    else if i == 4 then FromMinMax(Vec3(min.x, min.y, mid.z), Vec3(mid.x, mid.y, max.z))
    else if i == 5 then FromMinMax(Vec3(mid.x, min.y, mid.z), Vec3(max.x, mid.y, max.z))
    else if i == 6 then FromMinMax(Vec3(mid.x, mid.y, mid.z), Vec3(max.x, max.y, max.z))
    else FromMinMax(Vec3(min.x, mid.y, mid.z), Vec3(mid.x, max.y, max.z))
  }

  /**
   * The eight children a split creates: empty leaves, each with half the
   * parent's extents (OctreeProps.SubdivisionCovers and SubdivisionWithin
   * say how they tile the parent).
   */
  function Subdivision(b: AABB): (kids: seq<Tree>)
    ensures |kids| == 8
    ensures forall i :: 0 <= i < 8 ==>
      kids[i].Leaf? && kids[i].objects == [] && kids[i].bounds.extents == Scale(0.5, b.extents)
  {
    seq(8, i requires 0 <= i < 8 => Leaf(Octant(b, i), []))
  }

  // ------------------------------------------------------------ invariants

  /**
   * Shape of a tree built by insertion: an internal node has eight children,
   * child `i` covers Octant(bounds, i), and only nodes with an X half-extent
   * of at least MinNodeSize are internal.
   */
  predicate WF(t: Tree)
    decreases t, 1
  {
    match t
    case Leaf(_, _) => true
    case Node(b, kids) => KidsWF(b, kids)
  }

  predicate KidsWF(b: AABB, kids: seq<Tree>)
    decreases kids, 0
  {
    && |kids| == 8
    && b.extents.x >= MinNodeSize
    && forall i :: 0 <= i < 8 ==> kids[i].bounds == Octant(b, i) && WF(kids[i])
  }

  /**
   * What every leaf keeps: at most MaxObjectsPerNode cubes when its X
   * half-extent is at least MinNodeSize, and every cube's position inside
   * its bounds.
   */
  predicate LeavesOk(t: Tree)
    decreases t
  {
    match t
    case Leaf(b, objs) =>
      && (b.extents.x >= MinNodeSize ==> |objs| <= MaxObjectsPerNode)
      && forall o :: o in objs ==> Contains(b, o.position)
    case Node(_, kids) => forall i :: 0 <= i < |kids| ==> LeavesOk(kids[i])
  }

  /** The node-state invariant. */
  predicate Inv(t: Tree) {
    WF(t) && LeavesOk(t)
  }

  // ------------------------------------------------------------- insertion

  /**
   * Inserting cube `c`: dropped when its position is outside the bounds;
   * appended by a leaf that has room or is too small to split; otherwise the
   * leaf splits, re-routes its cubes into the new children in order and then
   * routes `c`; an internal node routes `c` to one child.
   */
  function Insert(t: Tree, c: Cube): (r: Tree)
    requires WF(t)
    ensures WF(r) && r.bounds == t.bounds
    decreases Levels(t.bounds.extents.x), 2
  {
    if !Contains(t.bounds, c.position) then t
    else match t
      case Leaf(b, objs) =>
        if |objs| < MaxObjectsPerNode || b.extents.x < MinNodeSize then Leaf(b, objs + [c])
        else Node(b, IntoChild(b, Reroute(b, Subdivision(b), objs), c))
      case Node(b, kids) => Node(b, IntoChild(b, kids, c))
  }

  /** Routing `c` into the child its position selects. */
  function IntoChild(b: AABB, kids: seq<Tree>, c: Cube): (r: seq<Tree>)
    requires KidsWF(b, kids)
    ensures KidsWF(b, r)
    decreases Levels(b.extents.x), 0
  {
    var i := ChildIndex(b.center, c.position);
    kids[i := Insert(kids[i], c)]
  }

  /** Routing the cubes of `objs` into the children, first to last. */
  function Reroute(b: AABB, kids: seq<Tree>, objs: seq<Cube>): (r: seq<Tree>)
    requires KidsWF(b, kids)
    ensures KidsWF(b, r)
    decreases Levels(b.extents.x), 1, |objs|
  {
    if objs == [] then kids
    else IntoChild(b, Reroute(b, kids, objs[..|objs| - 1]), objs[|objs| - 1])
  }

  // ------------------------------------------------------------- contents

  /** Every cube stored in the tree, children visited in slot order. */
  function Objects(t: Tree): seq<Cube>
    decreases t, 1
  {
    match t
    case Leaf(_, objs) => objs
    case Node(_, kids) => AllObjects(kids)
  }

  function AllObjects(ts: seq<Tree>): seq<Cube>
    decreases ts, 0
  {
    if ts == [] then [] else AllObjects(ts[..|ts| - 1]) + Objects(ts[|ts| - 1])
  }

  // ------------------------------------------------------------ visibility

  /** The cubes of `objs` whose own box passes the frustum test, in order. */
  function Filter(objs: seq<Cube>, f: Frustum): seq<Cube> {
    if objs == [] then []
    else
      var last := objs[|objs| - 1];
      Filter(objs[..|objs| - 1], f) + (if IsOnFrustum(last.boundingBox, f) then [last] else [])
  }

  /**
   * What a query returns: nothing when the node's box fails the frustum
   * test, else the passing cubes of a leaf, or the children's results in
   * slot order.
   */
  function Visible(t: Tree, f: Frustum): seq<Cube>
    decreases t, 1
  {
    if !IsOnFrustum(t.bounds, f) then []
    else match t
      case Leaf(_, objs) => Filter(objs, f)
      case Node(_, kids) => AllVisible(kids, f)
  }

  function AllVisible(ts: seq<Tree>, f: Frustum): seq<Cube>
    decreases ts, 0
  {
    if ts == [] then [] else AllVisible(ts[..|ts| - 1], f) + Visible(ts[|ts| - 1], f)
  }
}
