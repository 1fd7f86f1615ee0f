/**
 * The octree node as the program keeps it: a fixed box, a list of cube
 * references, eight child slots and a leaf flag, updated in place by
 * insertion. Each node carries its abstract value `model` (a Tree) and
 * the set `Repr` of objects its subtree uses.
 */
module OctreeNodes {
  import opened Geometry
  import opened Scene
  import opened Octree
  import opened OctreeProps

  class OctreeNode {
    const bounds: AABB
    var objects: seq<Cube>
    const children: array<OctreeNode?>
    var isLeaf: bool

    ghost var Repr: set<object>
    ghost var model: Tree

    /**
     * The child slots: each present child lies in Repr, owns a footprint
     * not containing this node, its slot array or a sibling's objects,
     * covers Octant(bounds, i), is valid, and exists only when the X
     * half-extent is at least MinNodeSize.
     */
    ghost predicate SlotsValid()
      reads this`Repr, Repr - {this}
      decreases Repr, 0
      ensures SlotsValid() ==> this in Repr
    {
      && this in Repr && children in Repr && children.Length == 8
      && (forall i :: 0 <= i < 8 && children[i] != null ==>
            && children[i] in Repr && children[i] != this && children[i].Repr <= Repr
            && this !in children[i].Repr && children !in children[i].Repr
            && children[i].bounds == Octant(bounds, i)
            && bounds.extents.x >= MinNodeSize
            && children[i].Valid())
      && (forall i, j :: 0 <= i < j < 8 && children[i] != null && children[j] != null ==>
            children[i].Repr !! children[j].Repr)
    }

    /**
     * A node is a leaf (no children, `model` is its cube list) or internal
     * (all eight children, no cubes of its own, `model` built from the
     * children's models); either way `model` meets the tree invariant.
     */
    ghost predicate Valid()
      reads this`Repr, this`objects, this`isLeaf, this`model, Repr - {this}
      decreases Repr, 1
      ensures Valid() ==> this in Repr
    {
      && SlotsValid()
      && WF(model) && model.bounds == bounds
      && (isLeaf ==>
            && (forall i :: 0 <= i < 8 ==> children[i] == null)
            && model == Leaf(bounds, objects))
      && (!isLeaf ==>
            && objects == []
            && model.Node? && |model.kids| == 8
            && forall i :: 0 <= i < 8 ==> children[i] != null && children[i].model == model.kids[i])
    }

    constructor (b: AABB)
      ensures Valid() && fresh(Repr)
      ensures bounds == b && isLeaf && model == Leaf(b, [])
    {
      bounds := b;
      objects := [];
      children := new OctreeNode?[8](_ => null);
      isLeaf := true;
      Repr := {this, children};
      model := Leaf(b, []);
      new;
      assert children in Repr;
    }

    /** Creates the eight empty children, slot `k` covering Octant(bounds, k). */
    method Subdivide()
      requires SlotsValid() && bounds.extents.x >= MinNodeSize
      requires forall i :: 0 <= i < 8 ==> children[i] == null
      modifies this`Repr, children
      ensures SlotsValid() && fresh(Repr - old(Repr))
      ensures forall i :: 0 <= i < 8 ==> children[i] != null && children[i].model == Leaf(Octant(bounds, i), [])
    {
      for k := 0 to 8
        invariant SlotsValid() && fresh(Repr - old(Repr))
        invariant forall i :: 0 <= i < k ==> children[i] != null && children[i].model == Leaf(Octant(bounds, i), [])
        invariant forall i :: k <= i < 8 ==> children[i] == null
      {
        PlaceChild(k);
      }
    }

    /** Fills the empty slot `k` with a new empty leaf covering Octant(bounds, k). */
    method PlaceChild(k: nat)
      requires SlotsValid() && k < 8 && children[k] == null && bounds.extents.x >= MinNodeSize
      modifies this`Repr, children
      ensures SlotsValid() && fresh(Repr - old(Repr))
      ensures children[k] != null && children[k].model == Leaf(Octant(bounds, k), [])
      ensures forall j :: 0 <= j < 8 && j != k ==> children[j] == old(children[j])
    {
      var child := new OctreeNode(Octant(bounds, k));
      children[k] := child;
      Repr := Repr + child.Repr;
    }

    /**
     * Routes `cube` to the child its position selects; an absent child
     * leaves everything as it was.
     */
    method InsertIntoChild(cube: Cube)
      requires SlotsValid()
      modifies this`Repr, Repr - {this, children}
      decreases Levels(bounds.extents.x), 0
      ensures SlotsValid() && fresh(Repr - old(Repr))
      ensures var i := ChildIndex(bounds.center, cube.position);
        children[i] != null ==> WF(old(children[i].model)) && children[i].model == Octree.Insert(old(children[i].model), cube)
      ensures forall j :: 0 <= j < 8 && j != ChildIndex(bounds.center, cube.position) && children[j] != null ==>
        children[j].model == old(children[j].model)
    {
      var index := ChildIndex(bounds.center, cube.position);
      var child := children[index];
      if child != null {
        child.Insert(cube);
        Repr := Repr + child.Repr;
        assert child.Valid() && this !in child.Repr && children !in child.Repr;
        // A sibling's footprint is disjoint from what the insertion modified.
        forall j | 0 <= j < 8 && j != index && children[j] != null
          ensures children[j].Repr == old(children[j].Repr) && children[j].model == old(children[j].model)
          ensures children[j].Valid() && children[j].Repr !! child.Repr
        {
          assert old(children[j].Valid() && children[j].Repr !! child.Repr);
        }
      }
    }

    /**
     * Inserts `cube` into the subtree rooted at this node: a position
     * outside the bounds is ignored, a leaf with room (or too small to
     * split) appends it, a full leaf splits, and an internal node routes it.
     */
    method Insert(cube: Cube)
      requires Valid()
      modifies Repr
      decreases Levels(bounds.extents.x), 4
      ensures Valid() && fresh(Repr - old(Repr))
      ensures model == Octree.Insert(old(model), cube)
    {
      if !Contains(bounds, cube.position) {
        return;
      }
      if isLeaf {
        if |objects| < MaxObjectsPerNode || bounds.extents.x < MinNodeSize {
          objects := objects + [cube];
          model := Leaf(bounds, objects);
        } else {
          SplitOfFullLeaf(bounds, objects, cube);
          Split(cube);
        }
      } else {
        ghost var kids := model.kids;
        assert KidsWF(bounds, kids);
        InsertIntoChild(cube);
        model := Node(bounds, IntoChild(bounds, kids, cube));
      }
    }

    /**
     * The split of a full leaf: subdivide, route the held cubes into the
     * new children in order, clear the list, route `cube`, become internal.
     */
    method Split(cube: Cube)
      requires SlotsValid() && bounds.extents.x >= MinNodeSize
      requires forall i :: 0 <= i < 8 ==> children[i] == null
      modifies Repr
      decreases Levels(bounds.extents.x), 3
      ensures Valid() && fresh(Repr - old(Repr))
      ensures model == Node(bounds, IntoChild(bounds, Reroute(bounds, Subdivision(bounds), old(objects)), cube))
    {
      SubdivisionWF(bounds);
      ghost var kids := IntoChild(bounds, Reroute(bounds, Subdivision(bounds), objects), cube);
      Subdivide();
      RouteHeld(Subdivision(bounds));
      objects := [];
      InsertIntoChild(cube);
      BecomeInternal(kids);
    }

    /** Marks a node whose cubes have all moved into its children as internal. */
    method BecomeInternal(ghost kids: seq<Tree>)
      requires SlotsValid() && objects == [] && KidsWF(bounds, kids)
      requires forall j :: 0 <= j < 8 ==> children[j] != null && children[j].model == kids[j]
      modifies this`isLeaf, this`model
      ensures Valid() && !isLeaf && model == Node(bounds, kids)
    {
      isLeaf := false;
      model := Node(bounds, kids);
    }

    /**
     * Routes the cubes this node holds, first to last, into its children,
     * whose models start as `kids`; the list itself is left for the caller
     * to clear.
     */
    method RouteHeld(ghost kids: seq<Tree>)
      requires SlotsValid() && KidsWF(bounds, kids)
      requires forall j :: 0 <= j < 8 ==> children[j] != null && children[j].model == kids[j]
      modifies this`Repr, Repr - {this, children}
      decreases Levels(bounds.extents.x), 2
      ensures SlotsValid() && fresh(Repr - old(Repr))
      ensures forall j :: 0 <= j < 8 ==> children[j] != null && children[j].model == Reroute(bounds, kids, objects)[j]
    {
      for k := 0 to |objects|
        invariant SlotsValid() && fresh(Repr - old(Repr))
        invariant forall j :: 0 <= j < 8 ==>
          children[j] != null && children[j].model == Reroute(bounds, kids, objects[..k])[j]
      {
        ghost var step := objects[..k + 1];
        assert step[..|step| - 1] == objects[..k] && step[|step| - 1] == objects[k];
        RouteOne(objects[k], Reroute(bounds, kids, objects[..k]));
      }
      assert objects[..|objects|] == objects;
    }

    /** One step of RouteHeld: the children's models go from `before` to IntoChild(bounds, before, c). */
    method RouteOne(c: Cube, ghost before: seq<Tree>)
      requires SlotsValid() && KidsWF(bounds, before)
      requires forall j :: 0 <= j < 8 ==> children[j] != null && children[j].model == before[j]
      modifies this`Repr, Repr - {this, children}
      decreases Levels(bounds.extents.x), 1
      ensures SlotsValid() && fresh(Repr - old(Repr))
      ensures forall j :: 0 <= j < 8 ==> children[j] != null && children[j].model == IntoChild(bounds, before, c)[j]
    {
      InsertIntoChild(c);
    }

    /**
     * Appends to `visible` the cubes of this subtree that a query with
     * `frustum` returns.
     */
    method Traverse(frustum: Frustum, visible: seq<Cube>) returns (result: seq<Cube>)
      requires Valid()
      decreases Repr, 2
      ensures result == visible + Visible(model, frustum)
    {
      if !IsOnFrustum(bounds, frustum) {
        return visible;
      }
      result := visible;
      for k := 0 to |objects|
        invariant result == visible + Filter(objects[..k], frustum)
      {
        ghost var step := objects[..k + 1];
        assert step[..|step| - 1] == objects[..k] && step[|step| - 1] == objects[k];
        if IsOnFrustum(objects[k].boundingBox, frustum) {
          result := result + [objects[k]];
        }
      }
      assert objects[..|objects|] == objects;
      if !isLeaf {
        result := TraverseChildren(frustum, result);
      }
    }

    /** The children's part of Traverse: each child in slot order. */
    method TraverseChildren(frustum: Frustum, visible: seq<Cube>) returns (result: seq<Cube>)
      requires Valid() && !isLeaf
      decreases Repr, 1
      ensures result == visible + AllVisible(model.kids, frustum)
    {
      ghost var kids := model.kids;
      result := visible;
      for i := 0 to 8
        invariant result == visible + AllVisible(kids[..i], frustum)
      {
        ghost var step := kids[..i + 1];
        assert step[..|step| - 1] == kids[..i] && step[|step| - 1] == kids[i];
        result := VisitChild(i, frustum, result);
      }
      assert kids[..8] == kids;
    }

    /** One slot of TraverseChildren: the child's cubes appended to `visible`. */
    method VisitChild(i: nat, frustum: Frustum, visible: seq<Cube>) returns (result: seq<Cube>)
      requires Valid() && !isLeaf && i < 8
      decreases Repr, 0
      ensures result == visible + Visible(model.kids[i], frustum)
    {
      result := visible;
      if children[i] != null {
        result := children[i].Traverse(frustum, visible);
      }
    }
  }
}
