/**
 * Scene objects: a cube is a position, an edge length and the bounding box
 * derived from them. The octree stores references to cubes and never
 * changes them.
 */
module Scene {
  import opened Geometry

  /** The box of a cube of edge `size` centred at `pos`. */
  function CubeBox(pos: Vec3, size: real): AABB {
    FromMinMax(Sub(pos, Splat(size / 2.0)), Add(pos, Splat(size / 2.0)))
  }

  class Cube {
    const position: Vec3
    const size: real
    const boundingBox: AABB

    /** The box the constructor computed from the position and the size. */
    predicate Boxed() {
      boundingBox == CubeBox(position, size)
    }

    constructor (pos: Vec3, s: real)
      ensures position == pos && size == s && Boxed()
    {
      position := pos;
      size := s;
      boundingBox := CubeBox(pos, s);
    }
  }

  /** A cube's box is centred at its position with half-extent `size / 2` on every axis. */
  lemma CubeBoxCentered(c: Cube)
    requires c.Boxed()
    ensures c.boundingBox.center == c.position
    ensures c.boundingBox.extents == Splat(c.size / 2.0)
    ensures NonNegative(c.boundingBox.extents) <==> c.size >= 0.0
  {
  }

  /** A cube of non-negative size passes the frustum test whenever its position is inside the frustum. */
  lemma CubeSeenWhenPositionInside(c: Cube, f: Frustum)
    requires c.Boxed() && c.size >= 0.0 && InsideFrustum(f, c.position)
    ensures IsOnFrustum(c.boundingBox, f)
  {
    CubeBoxCentered(c);
    FrustumTestSound(c.boundingBox, f, c.position);
  }
}
