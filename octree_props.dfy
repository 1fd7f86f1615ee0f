/**
 * What insertion and the visibility query guarantee, stated over the
 * Tree functions of module Octree.
 */
module OctreeProps {
  import opened Geometry
  import opened Scene
  import opened Octree

  // ---------------------------------------------------------------- routing

  /** Slot `i`'s box: its corners in terms of the parent's corners and center. */
  lemma OctantCorners(b: AABB, i: nat)
    requires i < 8
    ensures MinCorner(Octant(b, i)).x == (if i in {1, 2, 5, 6} then b.center.x else MinCorner(b).x)
    ensures MaxCorner(Octant(b, i)).x == (if i in {1, 2, 5, 6} then MaxCorner(b).x else b.center.x)
    ensures MinCorner(Octant(b, i)).y == (if i in {2, 3, 6, 7} then b.center.y else MinCorner(b).y)
    ensures MaxCorner(Octant(b, i)).y == (if i in {2, 3, 6, 7} then MaxCorner(b).y else b.center.y)
    ensures MinCorner(Octant(b, i)).z == (if i in {4, 5, 6, 7} then b.center.z else MinCorner(b).z)
    ensures MaxCorner(Octant(b, i)).z == (if i in {4, 5, 6, 7} then MaxCorner(b).z else b.center.z)
  {
  }

  /** Contains, stated with the box's corners. */
  lemma ContainsByCorners(b: AABB, p: Vec3)
    ensures Contains(b, p) <==> LessEq(MinCorner(b), p) && LessEq(p, MaxCorner(b))
  {
  }

  /** For slots 0, 1, 4 and 5 the child's box contains every point of the parent routed to it. */
  lemma RoutedIntoMatchingSlot(b: AABB, p: Vec3)
    requires Contains(b, p) && ChildIndex(b.center, p) in {0, 1, 4, 5}
    ensures Contains(Octant(b, ChildIndex(b.center, p)), p)
  {
    var i := ChildIndex(b.center, p);
    OctantCorners(b, i);
    ContainsByCorners(b, p);
    ContainsByCorners(Octant(b, i), p);
  }

  /** A point routed to slot 2 or 6 is never inside that slot's box. */
  lemma RoutedToSlot2Or6Outside(b: AABB, p: Vec3)
    requires ChildIndex(b.center, p) in {2, 6}
    ensures !Contains(Octant(b, ChildIndex(b.center, p)), p)
  {
    var i := ChildIndex(b.center, p);
    OctantCorners(b, i);
    ContainsByCorners(Octant(b, i), p);
  }

  /** A point of the parent routed to slot 3 or 7 is inside that slot's box iff its X equals the center's. */
  lemma RoutedToSlot3Or7(b: AABB, p: Vec3)
    requires Contains(b, p) && ChildIndex(b.center, p) in {3, 7}
    ensures Contains(Octant(b, ChildIndex(b.center, p)), p) <==> p.x == b.center.x
  {
    var i := ChildIndex(b.center, p);
    OctantCorners(b, i);
    ContainsByCorners(b, p);
    ContainsByCorners(Octant(b, i), p);
  }

  /** A child's box lies within its parent's when the parent's extents are non-negative. */
  lemma OctantWithin(b: AABB, i: nat, p: Vec3)
    requires i < 8 && NonNegative(b.extents) && Contains(Octant(b, i), p)
    ensures Contains(b, p)
  {
    OctantCorners(b, i);
    ContainsByCorners(b, p);
    ContainsByCorners(Octant(b, i), p);
  }

  /**
   * The children of a split cover the parent: every point of the parent's
   * box lies in some child's box. The slots hold the eight octants, only
   * in a different order from the routing index.
   */
  lemma SubdivisionCovers(b: AABB)
    ensures forall p :: Contains(b, p) ==> exists i :: 0 <= i < 8 && Contains(Subdivision(b)[i].bounds, p)
  {
    var kids := Subdivision(b);
    forall p | Contains(b, p)
      ensures exists i :: 0 <= i < 8 && Contains(kids[i].bounds, p)
    {
      var c := b.center;
      var i := (if p.z >= c.z then 4 else 0)
        + (if p.y >= c.y then (if p.x >= c.x then 2 else 3) else (if p.x >= c.x then 1 else 0));
      OctantCorners(b, i);
      ContainsByCorners(b, p);
      ContainsByCorners(Octant(b, i), p);
      assert Contains(kids[i].bounds, p);
    }
  }

  /** The children of a split lie within the parent when its extents are non-negative. */
  lemma SubdivisionWithin(b: AABB)
    requires NonNegative(b.extents)
    ensures forall i, p :: 0 <= i < 8 && Contains(Subdivision(b)[i].bounds, p) ==> Contains(b, p)
  {
    forall i, p | 0 <= i < 8 && Contains(Subdivision(b)[i].bounds, p)
      ensures Contains(b, p)
    {
      OctantWithin(b, i, p);
    }
  }

  // -------------------------------------------------------------- insertion

  /** A position outside the node's inclusive bounds leaves the node unchanged. */
  lemma InsertOutsideIsNoOp(t: Tree, c: Cube)
    requires WF(t) && !Contains(t.bounds, c.position)
    ensures Insert(t, c) == t
  {
  }

  /** A leaf with room, or too small to split, appends the cube and stays a leaf. */
  lemma InsertIntoRoomyLeaf(b: AABB, objs: seq<Cube>, c: Cube)
    requires Contains(b, c.position)
    requires |objs| < MaxObjectsPerNode || b.extents.x < MinNodeSize
    ensures Insert(Leaf(b, objs), c) == Leaf(b, objs + [c])
  {
  }

  /** A full leaf that is large enough becomes internal with eight children. */
  lemma InsertSplitsFullLeaf(b: AABB, objs: seq<Cube>, c: Cube)
    requires Contains(b, c.position)
    requires |objs| >= MaxObjectsPerNode && b.extents.x >= MinNodeSize
    ensures Insert(Leaf(b, objs), c).Node?
    ensures |Insert(Leaf(b, objs), c).kids| == 8
    ensures forall i :: 0 <= i < 8 ==> Insert(Leaf(b, objs), c).kids[i].bounds == Octant(b, i)
  {
  }

  /** The eight empty leaves of a box large enough to split are a well-formed child list. */
  lemma SubdivisionWF(b: AABB)
    requires b.extents.x >= MinNodeSize
    ensures KidsWF(b, Subdivision(b))
  {
  }

  /** The split of a full leaf spelled out, with the invariant it keeps. */
  lemma SplitOfFullLeaf(b: AABB, objs: seq<Cube>, c: Cube)
    requires Contains(b, c.position)
    requires |objs| >= MaxObjectsPerNode && b.extents.x >= MinNodeSize
    ensures KidsWF(b, Subdivision(b))
    ensures Insert(Leaf(b, objs), c) == Node(b, IntoChild(b, Reroute(b, Subdivision(b), objs), c))
  {
  }

  /** An internal node changes only the child the cube is routed to. */
  lemma InsertTouchesOneChild(b: AABB, kids: seq<Tree>, c: Cube)
    requires KidsWF(b, kids) && Contains(b, c.position)
    ensures var r := Insert(Node(b, kids), c); var i := ChildIndex(b.center, c.position);
      && r.Node? && |r.kids| == 8
      && r.kids[i] == Insert(kids[i], c)
      && forall j :: 0 <= j < 8 && j != i ==> r.kids[j] == kids[j]
  {
  }

  /** At an internal node, a cube routed to slot 2 or 6 is dropped: the tree does not change. */
  lemma InsertDropsAtSlot2Or6(b: AABB, kids: seq<Tree>, c: Cube)
    requires KidsWF(b, kids) && ChildIndex(b.center, c.position) in {2, 6}
    ensures Insert(Node(b, kids), c) == Node(b, kids)
  {
    IntoChildDropsAtSlot2Or6(b, kids, c);
  }

  /** Routing a cube to slot 2 or 6 leaves the children as they were. */
  lemma IntoChildDropsAtSlot2Or6(b: AABB, kids: seq<Tree>, c: Cube)
    requires KidsWF(b, kids) && ChildIndex(b.center, c.position) in {2, 6}
    ensures IntoChild(b, kids, c) == kids
  {
    var i := ChildIndex(b.center, c.position);
    RoutedToSlot2Or6Outside(b, c.position);
    assert kids[i].bounds == Octant(b, i);
    assert Insert(kids[i], c) == kids[i];
    assert kids[i := kids[i]] == kids;
  }

  /** Re-routing cubes that all go to slot 2 or 6 leaves the children as they were. */
  lemma {:induction false} RerouteDropsAtSlot2Or6(b: AABB, kids: seq<Tree>, objs: seq<Cube>)
    requires KidsWF(b, kids)
    requires forall k :: 0 <= k < |objs| ==> ChildIndex(b.center, objs[k].position) in {2, 6}
    ensures Reroute(b, kids, objs) == kids
    decreases |objs|
  {
    if objs != [] {
      RerouteDropsAtSlot2Or6(b, kids, objs[..|objs| - 1]);
      IntoChildDropsAtSlot2Or6(b, kids, objs[|objs| - 1]);
    }
  }

  /**
   * The routing mismatch loses cubes: when a full leaf splits and all of its
   * cubes and the new one are routed to slot 2 or 6, the result is the bare
   * subdivision and none of them is stored any more.
   */
  lemma SplitDropsSlot2Or6(b: AABB, objs: seq<Cube>, c: Cube)
    requires Contains(b, c.position)
    requires |objs| >= MaxObjectsPerNode && b.extents.x >= MinNodeSize
    requires forall k :: 0 <= k < |objs| ==> ChildIndex(b.center, objs[k].position) in {2, 6}
    requires ChildIndex(b.center, c.position) in {2, 6}
    ensures Insert(Leaf(b, objs), c) == Node(b, Subdivision(b))
    ensures Objects(Insert(Leaf(b, objs), c)) == []
  {
    var kids := Subdivision(b);
    RerouteDropsAtSlot2Or6(b, kids, objs);
    IntoChildDropsAtSlot2Or6(b, kids, c);
    AllObjectsOfEmpty(kids);
  }

  // -------------------------------------------------------- invariant kept

  lemma {:induction false} InsertPreservesInv(t: Tree, c: Cube)
    requires Inv(t)
    ensures Inv(Insert(t, c))
    decreases Levels(t.bounds.extents.x), 2
  {
    if Contains(t.bounds, c.position) {
      match t
      case Leaf(b, objs) =>
        if |objs| < MaxObjectsPerNode || b.extents.x < MinNodeSize {
        } else {
          var kids := Subdivision(b);
          RerouteKeepsLeaves(b, kids, objs);
          IntoChildKeepsLeaves(b, Reroute(b, kids, objs), c);
        }
      case Node(b, kids) =>
        IntoChildKeepsLeaves(b, kids, c);
    }
  }

  lemma {:induction false} IntoChildKeepsLeaves(b: AABB, kids: seq<Tree>, c: Cube)
    requires KidsWF(b, kids) && forall i :: 0 <= i < 8 ==> LeavesOk(kids[i])
    ensures forall i :: 0 <= i < 8 ==> LeavesOk(IntoChild(b, kids, c)[i])
    decreases Levels(b.extents.x), 0
  {
    var i := ChildIndex(b.center, c.position);
    InsertPreservesInv(kids[i], c);
  }

  lemma {:induction false} RerouteKeepsLeaves(b: AABB, kids: seq<Tree>, objs: seq<Cube>)
    requires KidsWF(b, kids) && forall i :: 0 <= i < 8 ==> LeavesOk(kids[i])
    ensures forall i :: 0 <= i < 8 ==> LeavesOk(Reroute(b, kids, objs)[i])
    decreases Levels(b.extents.x), 1, |objs|
  {
    if objs != [] {
      RerouteKeepsLeaves(b, kids, objs[..|objs| - 1]);
      IntoChildKeepsLeaves(b, Reroute(b, kids, objs[..|objs| - 1]), objs[|objs| - 1]);
    }
  }

  // ------------------------------------------------------------ contents

  lemma {:induction false} AllObjectsUpdate(ts: seq<Tree>, i: nat, x: Tree)
    requires i < |ts|
    ensures multiset(AllObjects(ts[i := x])) + multiset(Objects(ts[i]))
         == multiset(AllObjects(ts)) + multiset(Objects(x))
    decreases |ts|
  {
    var n := |ts|;
    var us := ts[i := x];
    assert AllObjects(ts) == AllObjects(ts[..n - 1]) + Objects(ts[n - 1]);
    assert AllObjects(us) == AllObjects(us[..n - 1]) + Objects(us[n - 1]);
    if i == n - 1 {
      assert us[..n - 1] == ts[..n - 1];
    } else {
      assert us[..n - 1] == ts[..n - 1][i := x];
      assert us[n - 1] == ts[n - 1];
      assert ts[..n - 1][i] == ts[i];
      AllObjectsUpdate(ts[..n - 1], i, x);
      SwapInPart(multiset(AllObjects(us)), multiset(AllObjects(us[..n - 1])),
                 multiset(AllObjects(ts)), multiset(AllObjects(ts[..n - 1])),
                 multiset(Objects(ts[n - 1])), multiset(Objects(ts[i])), multiset(Objects(x)));
    }
  }

  /** Exchanging `k` for `x` in the first part of a sum `t' + l` exchanges it in the sum. */
  lemma SwapInPart<T>(u: multiset<T>, u': multiset<T>, t: multiset<T>, t': multiset<T>,
                      l: multiset<T>, k: multiset<T>, x: multiset<T>)
    requires u == u' + l && t == t' + l && u' + k == t' + x
    ensures u + k == t + x
  {
    forall o: T ensures (u + k)[o] == (t + x)[o] {
      assert (u' + k)[o] == (t' + x)[o];
    }
  }

  lemma {:induction false} AllObjectsOfEmpty(ts: seq<Tree>)
    requires forall i :: 0 <= i < |ts| ==> Objects(ts[i]) == []
    ensures AllObjects(ts) == []
  {
    if ts != [] {
      AllObjectsOfEmpty(ts[..|ts| - 1]);
    }
  }

  /**
   * One insertion adds at most the inserted cube: the cubes stored
   * afterwards are a sub-multiset of those before plus `c` (a split can
   * lose some, see SplitCanLoseCubes).
   */
  lemma {:induction false} InsertAddsAtMostOne(t: Tree, c: Cube)
    requires WF(t)
    ensures multiset(Objects(Insert(t, c))) <= multiset(Objects(t)) + multiset{c}
    decreases Levels(t.bounds.extents.x), 2
  {
    if Contains(t.bounds, c.position) {
      match t
      case Leaf(b, objs) =>
        if |objs| < MaxObjectsPerNode || b.extents.x < MinNodeSize {
          assert Objects(Insert(t, c)) == objs + [c];
        } else {
          var kids := Subdivision(b);
          AllObjectsOfEmpty(kids);
          var rerouted := Reroute(b, kids, objs);
          RerouteAddsAtMost(b, kids, objs);
          IntoChildAddsAtMostOne(b, rerouted, c);
          assert Objects(Insert(t, c)) == AllObjects(IntoChild(b, rerouted, c));
          assert multiset(AllObjects(rerouted)) <= multiset(objs);
          assert multiset(AllObjects(rerouted)) + multiset{c} <= multiset(objs) + multiset{c};
        }
      case Node(b, kids) =>
        IntoChildAddsAtMostOne(b, kids, c);
        assert Objects(Insert(t, c)) == AllObjects(IntoChild(b, kids, c));
    }
  }

  lemma {:induction false} IntoChildAddsAtMostOne(b: AABB, kids: seq<Tree>, c: Cube)
    requires KidsWF(b, kids)
    ensures multiset(AllObjects(IntoChild(b, kids, c))) <= multiset(AllObjects(kids)) + multiset{c}
    decreases Levels(b.extents.x), 0
  {
    var i := ChildIndex(b.center, c.position);
    InsertAddsAtMostOne(kids[i], c);
    AllObjectsUpdate(kids, i, Insert(kids[i], c));
    SwapCancel(multiset(AllObjects(IntoChild(b, kids, c))), multiset(AllObjects(kids)),
               multiset(Objects(kids[i])), multiset(Objects(Insert(kids[i], c))), multiset{c});
  }

  /** Chaining two growth bounds. */
  lemma AddUpBounds<T>(a: multiset<T>, b: multiset<T>, c: multiset<T>, m1: multiset<T>, m2: multiset<T>)
    requires a <= b + m1 && b <= c + m2
    ensures a <= c + (m2 + m1)
  {
    forall o: T ensures a[o] <= (c + (m2 + m1))[o] {
      assert a[o] <= (b + m1)[o];
    }
  }

  /** Replacing a part `k` by `k2` that exceeds it by at most `m` grows the whole by at most `m`. */
  lemma SwapCancel<T>(a: multiset<T>, b: multiset<T>, k: multiset<T>, k2: multiset<T>, m: multiset<T>)
    requires a + k == b + k2 && k2 <= k + m
    ensures a <= b + m
  {
    forall o: T ensures a[o] <= (b + m)[o] {
      assert (a + k)[o] == (b + k2)[o];
    }
  }

  lemma {:induction false} RerouteAddsAtMost(b: AABB, kids: seq<Tree>, objs: seq<Cube>)
    requires KidsWF(b, kids)
    ensures multiset(AllObjects(Reroute(b, kids, objs))) <= multiset(AllObjects(kids)) + multiset(objs)
    decreases Levels(b.extents.x), 1, |objs|
  {
    if objs != [] {
      var init, last := objs[..|objs| - 1], objs[|objs| - 1];
      var prev := Reroute(b, kids, init);
      RerouteAddsAtMost(b, kids, init);
      IntoChildAddsAtMostOne(b, prev, last);
      assert objs == init + [last];
      AddUpBounds(multiset(AllObjects(Reroute(b, kids, objs))), multiset(AllObjects(prev)),
                  multiset(AllObjects(kids)), multiset{last}, multiset(init));
    }
  }

  lemma {:induction false} InAllObjects(ts: seq<Tree>, o: Cube)
    requires o in AllObjects(ts)
    ensures exists i :: 0 <= i < |ts| && o in Objects(ts[i])
  {
    var n := |ts|;
    if o !in Objects(ts[n - 1]) {
      InAllObjects(ts[..n - 1], o);
      var i :| 0 <= i < n - 1 && o in Objects(ts[..n - 1][i]);
      assert ts[..n - 1][i] == ts[i];
    }
  }

  /**
   * Containment: under the invariant, every stored cube's position is
   * inside the bounds of the node holding it and of every ancestor.
   */
  lemma {:induction false} StoredInsideBounds(t: Tree, o: Cube)
    requires Inv(t) && NonNegative(t.bounds.extents) && o in Objects(t)
    ensures Contains(t.bounds, o.position)
  {
    match t
    case Leaf(b, objs) =>
    case Node(b, kids) =>
      InAllObjects(kids, o);
      assert KidsWF(b, kids);
      var i :| 0 <= i < |kids| && o in Objects(kids[i]);
      assert kids[i].bounds == Octant(b, i) && Inv(kids[i]);
      assert kids[i].bounds.extents == Scale(0.5, b.extents);
      StoredInsideBounds(kids[i], o);
      OctantWithin(b, i, o.position);
  }

  // ---------------------------------------------------- populating a tree

  /** Inserting the cubes of `cs` one after the other. */
  function InsertAll(t: Tree, cs: seq<Cube>): (r: Tree)
    requires WF(t)
    ensures WF(r) && r.bounds == t.bounds
  {
    if cs == [] then t else Insert(InsertAll(t, cs[..|cs| - 1]), cs[|cs| - 1])
  }

  /** The cubes of `cs` whose position is inside `b`, in order. */
  function InBounds(b: AABB, cs: seq<Cube>): (r: seq<Cube>)
    ensures forall o :: o in r ==> o in cs && Contains(b, o.position)
  {
    if cs == [] then []
    else InBounds(b, cs[..|cs| - 1]) + (if Contains(b, cs[|cs| - 1].position) then [cs[|cs| - 1]] else [])
  }

  /** Any sequence of insertions keeps the invariant. */
  lemma {:induction false} InsertAllPreservesInv(t: Tree, cs: seq<Cube>)
    requires Inv(t)
    ensures Inv(InsertAll(t, cs))
  {
    if cs != [] {
      InsertAllPreservesInv(t, cs[..|cs| - 1]);
      InsertPreservesInv(InsertAll(t, cs[..|cs| - 1]), cs[|cs| - 1]);
    }
  }

  /**
   * Minimum-size floor: a leaf whose X half-extent is below MinNodeSize
   * never splits, and keeps every in-bounds cube, in insertion order.
   */
  lemma {:induction false} SmallLeafNeverSplits(b: AABB, objs: seq<Cube>, cs: seq<Cube>)
    requires b.extents.x < MinNodeSize
    ensures InsertAll(Leaf(b, objs), cs) == Leaf(b, objs + InBounds(b, cs))
  {
    if cs != [] {
      SmallLeafNeverSplits(b, objs, cs[..|cs| - 1]);
    }
  }

  /**
   * The routing mismatch in action: a leaf holding four cubes at
   * (-1, 1, -1), routed to slot 2, splits on a fifth such cube and keeps
   * none of the five.
   */
  lemma SplitCanLoseCubes(c1: Cube, c2: Cube, c3: Cube, c4: Cube, c5: Cube)
    requires c1.position == c2.position == c3.position == c4.position == c5.position == Vec3(-1.0, 1.0, -1.0)
    ensures var root := AABB(Vec3(0.0, 0.0, 0.0), Vec3(4.0, 4.0, 4.0));
      && Inv(Leaf(root, [c1, c2, c3, c4]))
      && Objects(Insert(Leaf(root, [c1, c2, c3, c4]), c5)) == []
  {
    var root := AABB(Vec3(0.0, 0.0, 0.0), Vec3(4.0, 4.0, 4.0));
    var objs := [c1, c2, c3, c4];
    assert ChildIndex(root.center, c5.position) == 2;
    assert forall k :: 0 <= k < |objs| ==> objs[k].position == c5.position;
    SplitDropsSlot2Or6(root, objs, c5);
  }

  // ------------------------------------------------------------ visibility

  lemma {:induction false} FilterConcat(a: seq<Cube>, b: seq<Cube>, f: Frustum)
    ensures Filter(a + b, f) == Filter(a, f) + Filter(b, f)
    decreases |b|
  {
    if b == [] {
      assert a + b == a;
    } else {
      var n := |b|;
      var ab := a + b;
      var last := b[n - 1];
      var tail := if IsOnFrustum(last.boundingBox, f) then [last] else [];
      assert ab[..|ab| - 1] == a + b[..n - 1];
      assert ab[|ab| - 1] == last;
      FilterConcat(a, b[..n - 1], f);
      assert Filter(ab, f) == Filter(a + b[..n - 1], f) + tail;
      assert Filter(b, f) == Filter(b[..n - 1], f) + tail;
      assert Filter(a, f) + Filter(b[..n - 1], f) + tail == Filter(a, f) + (Filter(b[..n - 1], f) + tail);
    }
  }

  /**
   * Filter keeps exactly the cubes whose box passes the frustum test, each
   * no more often than it occurs.
   */
  lemma {:induction false} FilterSound(objs: seq<Cube>, f: Frustum)
    ensures multiset(Filter(objs, f)) <= multiset(objs)
    ensures forall o :: o in Filter(objs, f) ==> o in objs && IsOnFrustum(o.boundingBox, f)
    ensures forall o :: o in objs && IsOnFrustum(o.boundingBox, f) ==> o in Filter(objs, f)
  {
    if objs != [] {
      var last := objs[|objs| - 1];
      FilterSound(objs[..|objs| - 1], f);
      assert objs == objs[..|objs| - 1] + [last];
    }
  }

  lemma {:induction false} FilterAllPass(objs: seq<Cube>, f: Frustum)
    requires forall i :: 0 <= i < |objs| ==> IsOnFrustum(objs[i].boundingBox, f)
    ensures Filter(objs, f) == objs
  {
    if objs != [] {
      FilterAllPass(objs[..|objs| - 1], f);
    }
  }

  /**
   * Soundness of the query: it returns only cubes stored in the subtree,
   * no cube more often than it is stored, and only cubes whose own box
   * passes the frustum test.
   */
  lemma {:induction false} VisibleSound(t: Tree, f: Frustum)
    ensures multiset(Visible(t, f)) <= multiset(Objects(t))
    ensures forall o :: o in Visible(t, f) ==> IsOnFrustum(o.boundingBox, f)
    decreases t, 1
  {
    if IsOnFrustum(t.bounds, f) {
      match t
      case Leaf(_, objs) => FilterSound(objs, f);
      case Node(_, kids) => AllVisibleSound(kids, f);
    }
  }

  lemma {:induction false} AllVisibleSound(ts: seq<Tree>, f: Frustum)
    ensures multiset(AllVisible(ts, f)) <= multiset(AllObjects(ts))
    ensures forall o :: o in AllVisible(ts, f) ==> IsOnFrustum(o.boundingBox, f)
    decreases ts, 0
  {
    if ts != [] {
      AllVisibleSound(ts[..|ts| - 1], f);
      VisibleSound(ts[|ts| - 1], f);
    }
  }

  /** A subtree whose node box fails the frustum test contributes nothing. */
  lemma VisiblePruned(t: Tree, f: Frustum)
    requires !IsOnFrustum(t.bounds, f)
    ensures Visible(t, f) == []
  {
  }

  /** Every node box of the subtree passes the frustum test. */
  predicate AllNodesPass(t: Tree, f: Frustum)
    decreases t
  {
    && IsOnFrustum(t.bounds, f)
    && (t.Node? ==> forall i :: 0 <= i < |t.kids| ==> AllNodesPass(t.kids[i], f))
  }

  /**
   * Pruning is the only thing that hides a passing cube: when every node
   * box passes, the query returns exactly the stored cubes whose own box
   * passes, in storage order.
   */
  lemma {:induction false} VisibleWhenNodesPass(t: Tree, f: Frustum)
    requires AllNodesPass(t, f)
    ensures Visible(t, f) == Filter(Objects(t), f)
    decreases t, 1
  {
    match t
    case Leaf(_, _) =>
    case Node(_, kids) => AllVisibleWhenNodesPass(kids, f);
  }

  lemma {:induction false} AllVisibleWhenNodesPass(ts: seq<Tree>, f: Frustum)
    requires forall i :: 0 <= i < |ts| ==> AllNodesPass(ts[i], f)
    ensures AllVisible(ts, f) == Filter(AllObjects(ts), f)
    decreases ts, 0
  {
    if ts != [] {
      var n := |ts|;
      AllVisibleWhenNodesPass(ts[..n - 1], f);
      VisibleWhenNodesPass(ts[n - 1], f);
      FilterConcat(AllObjects(ts[..n - 1]), Objects(ts[n - 1]), f);
    }
  }

  /** A frustum every box passes: six planes with zero normal and offset -1. */
  function UniverseFrustum(): (f: Frustum)
    ensures forall b :: IsOnFrustum(b, f)
  {
    var p := Plane(Vec3(0.0, 0.0, 0.0), -1.0);
    Frustum(p, p, p, p, p, p)
  }

  lemma {:induction false} UniverseAllNodesPass(t: Tree)
    ensures AllNodesPass(t, UniverseFrustum())
    decreases t
  {
    if t.Node? {
      forall i | 0 <= i < |t.kids| ensures AllNodesPass(t.kids[i], UniverseFrustum()) {
        UniverseAllNodesPass(t.kids[i]);
      }
    }
  }

  /** With a frustum that passes every box, the query returns every stored cube exactly as stored. */
  lemma QueryWithUniverseReturnsAll(t: Tree)
    ensures Visible(t, UniverseFrustum()) == Objects(t)
  {
    var f := UniverseFrustum();
    UniverseAllNodesPass(t);
    VisibleWhenNodesPass(t, f);
    FilterAllPass(Objects(t), f);
  }

  /** A cube returned by child `i`'s query is returned by the query over all the children. */
  lemma {:induction false} VisibleInAll(ts: seq<Tree>, f: Frustum, i: nat, o: Cube)
    requires i < |ts| && o in Visible(ts[i], f)
    ensures o in AllVisible(ts, f)
    decreases |ts|
  {
    if i < |ts| - 1 {
      assert ts[..|ts| - 1][i] == ts[i];
      VisibleInAll(ts[..|ts| - 1], f, i, o);
    }
  }

  /**
   * No stored cube is wrongly culled: under the invariant, a stored cube of
   * non-negative size whose position is inside the frustum is returned by
   * the query, because every node box on its path contains that position.
   */
  lemma {:induction false} StoredAndInsideIsVisible(t: Tree, f: Frustum, o: Cube)
    requires Inv(t) && NonNegative(t.bounds.extents) && o in Objects(t)
    requires o.Boxed() && o.size >= 0.0 && InsideFrustum(f, o.position)
    ensures o in Visible(t, f)
  {
    StoredInsideBounds(t, o);
    FrustumTestSound(t.bounds, f, o.position);
    match t
    case Leaf(_, objs) =>
      CubeSeenWhenPositionInside(o, f);
      FilterSound(objs, f);
    case Node(b, kids) =>
      InAllObjects(kids, o);
      assert KidsWF(b, kids);
      var i :| 0 <= i < |kids| && o in Objects(kids[i]);
      assert kids[i].bounds == Octant(b, i) && Inv(kids[i]);
      assert kids[i].bounds.extents == Scale(0.5, b.extents);
      StoredAndInsideIsVisible(kids[i], f, o);
      VisibleInAll(kids, f, i, o);
  }
}
