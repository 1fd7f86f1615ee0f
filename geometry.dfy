/**
 * Geometry primitives of the culling core: vectors, planes, axis-aligned
 * boxes and view frusta, with the box-versus-plane and box-versus-frustum
 * tests. Coordinates are exact reals (single-precision rounding is not
 * modelled).
 */
module Geometry {

  datatype Vec3 = Vec3(x: real, y: real, z: real)

  function Add(a: Vec3, b: Vec3): Vec3 { Vec3(a.x + b.x, a.y + b.y, a.z + b.z) }

  function Sub(a: Vec3, b: Vec3): Vec3 { Vec3(a.x - b.x, a.y - b.y, a.z - b.z) }

  function Neg(a: Vec3): Vec3 { Vec3(-a.x, -a.y, -a.z) }

  /** `k * v` (and `v * k`) of glm. */
  function Scale(k: real, a: Vec3): Vec3 { Vec3(k * a.x, k * a.y, k * a.z) }

  /** `glm::vec3(s)`: all three components equal to `s`. */
  function Splat(s: real): Vec3 { Vec3(s, s, s) }

  function Dot(a: Vec3, b: Vec3): real { a.x * b.x + a.y * b.y + a.z * b.z }

  function Cross(a: Vec3, b: Vec3): Vec3 {
    Vec3(a.y * b.z - a.z * b.y, a.z * b.x - a.x * b.z, a.x * b.y - a.y * b.x)
  }

  function Abs(r: real): real { if r < 0.0 then -r else r }

  /** Componentwise `a <= b`. */
  predicate LessEq(a: Vec3, b: Vec3) { a.x <= b.x && a.y <= b.y && a.z <= b.z }

  predicate NonNegative(a: Vec3) { 0.0 <= a.x && 0.0 <= a.y && 0.0 <= a.z }

  // ---------------------------------------------------------------- planes

  /** A plane: a normal and the offset `distance = dot(normal, pointOnPlane)`. */
  datatype Plane = Plane(normal: Vec3, distance: real)

  function SignedDistance(pl: Plane, p: Vec3): real {
    Dot(pl.normal, p) - pl.distance
  }

  /**
   * The plane through `p1` with normal `normalize(norm)`. The normalisation
   * is a parameter: its value is not modelled, and whatever it returns the
   * plane passes through `p1`.
   */
  function PlaneThrough(p1: Vec3, norm: Vec3, normalize: Vec3 -> Vec3): (pl: Plane)
    ensures pl.normal == normalize(norm)
    ensures SignedDistance(pl, p1) == 0.0
  {
    var n := normalize(norm);
    Plane(n, Dot(n, p1))
  }

  // ----------------------------------------------------------------- boxes

  /** An axis-aligned box: a center and half-extents per axis. */
  datatype AABB = AABB(center: Vec3, extents: Vec3)

  function MinCorner(b: AABB): Vec3 { Sub(b.center, b.extents) }

  function MaxCorner(b: AABB): Vec3 { Add(b.center, b.extents) }

  /** The box spanned by a min and a max corner. */
  function FromMinMax(min: Vec3, max: Vec3): (b: AABB)
    ensures MinCorner(b) == min && MaxCorner(b) == max
    ensures NonNegative(b.extents) <==> LessEq(min, max)
  {
    AABB(Scale(0.5, Add(max, min)), Scale(0.5, Sub(max, min)))
  }

  /** Inclusive point-in-box test on all six faces. */
  predicate Contains(b: AABB, p: Vec3) {
    && p.x >= b.center.x - b.extents.x && p.x <= b.center.x + b.extents.x
    && p.y >= b.center.y - b.extents.y && p.y <= b.center.y + b.extents.y
    && p.z >= b.center.z - b.extents.z && p.z <= b.center.z + b.extents.z
  }

  /** The box's projected radius along the plane normal. */
  function ProjectedRadius(b: AABB, pl: Plane): real {
    b.extents.x * Abs(pl.normal.x) + b.extents.y * Abs(pl.normal.y) + b.extents.z * Abs(pl.normal.z)
  }

  /** True unless the whole box lies strictly behind the plane. */
  predicate IsOnOrForwardPlane(b: AABB, pl: Plane) {
    -ProjectedRadius(b, pl) <= SignedDistance(pl, b.center)
  }

  // ---------------------------------------------------------------- frusta

  datatype Frustum = Frustum(
    topFace: Plane, bottomFace: Plane,
    rightFace: Plane, leftFace: Plane,
    farFace: Plane, nearFace: Plane)

  predicate IsOnFrustum(b: AABB, f: Frustum) {
    && IsOnOrForwardPlane(b, f.leftFace)
    && IsOnOrForwardPlane(b, f.rightFace)
    && IsOnOrForwardPlane(b, f.topFace)
    && IsOnOrForwardPlane(b, f.bottomFace)
    && IsOnOrForwardPlane(b, f.nearFace)
    && IsOnOrForwardPlane(b, f.farFace)
  }

  /** `p` is on the non-negative side of every face of `f`. */
  predicate InsideFrustum(f: Frustum, p: Vec3) {
    && SignedDistance(f.leftFace, p) >= 0.0
    && SignedDistance(f.rightFace, p) >= 0.0
    && SignedDistance(f.topFace, p) >= 0.0
    && SignedDistance(f.bottomFace, p) >= 0.0
    && SignedDistance(f.nearFace, p) >= 0.0
    && SignedDistance(f.farFace, p) >= 0.0
  }

  /** `p` is on the positive side of every face of `f`: off all six planes. */
  predicate StrictlyInsideFrustum(f: Frustum, p: Vec3) {
    && SignedDistance(f.leftFace, p) > 0.0
    && SignedDistance(f.rightFace, p) > 0.0
    && SignedDistance(f.topFace, p) > 0.0
    && SignedDistance(f.bottomFace, p) > 0.0
    && SignedDistance(f.nearFace, p) > 0.0
    && SignedDistance(f.farFace, p) > 0.0
  }

  // ---------------------------------------------------------------- lemmas

  lemma NonNegativeProduct(x: real, y: real)
    requires x >= 0.0 && y >= 0.0
    ensures x * y >= 0.0
  {
  }

  lemma MulBound(a: real, d: real, e: real)
    requires -e <= d <= e
    ensures a * d <= Abs(a) * e
    ensures -(Abs(a) * e) <= a * d
  {
    var m := Abs(a);
    NonNegativeProduct(m, e - d);
    NonNegativeProduct(m, e + d);
    assert m * (e - d) == m * e - m * d;
    assert m * (e + d) == m * e + m * d;
    if a >= 0.0 {
      assert a * d == m * d;
    } else {
      assert a * d == -(m * d);
    }
  }

  /** How far the signed distance can move inside the box: at most the projected radius. */
  lemma SignedDistanceSpread(b: AABB, pl: Plane, q: Vec3)
    requires Contains(b, q)
    ensures SignedDistance(pl, q) - SignedDistance(pl, b.center) <= ProjectedRadius(b, pl)
  {
    var n, c, e := pl.normal, b.center, b.extents;
    MulBound(n.x, q.x - c.x, e.x);
    MulBound(n.y, q.y - c.y, e.y);
    MulBound(n.z, q.z - c.z, e.z);
    assert SignedDistance(pl, q) - SignedDistance(pl, c)
        == n.x * (q.x - c.x) + n.y * (q.y - c.y) + n.z * (q.z - c.z);
  }

  /** No false negatives: a box with a point on or in front of the plane passes. */
  lemma PlaneTestSound(b: AABB, pl: Plane, q: Vec3)
    requires Contains(b, q) && SignedDistance(pl, q) >= 0.0
    ensures IsOnOrForwardPlane(b, pl)
  {
    SignedDistanceSpread(b, pl, q);
  }

  /** The corner of the box furthest along the plane normal. */
  function SupportCorner(b: AABB, pl: Plane): (p: Vec3)
    ensures NonNegative(b.extents) ==> Contains(b, p)
    ensures SignedDistance(pl, p) == SignedDistance(pl, b.center) + ProjectedRadius(b, pl)
  {
    var n, c, e := pl.normal, b.center, b.extents;
    var p := Vec3(if n.x >= 0.0 then c.x + e.x else c.x - e.x,
                  if n.y >= 0.0 then c.y + e.y else c.y - e.y,
                  if n.z >= 0.0 then c.z + e.z else c.z - e.z);
    assert n.x * p.x == n.x * c.x + e.x * Abs(n.x);
    assert n.y * p.y == n.y * c.y + e.y * Abs(n.y);
    assert n.z * p.z == n.z * c.z + e.z * Abs(n.z);
    p
  }

  /**
   * The plane test is exact for a box with non-negative extents: it passes
   * iff some point of the box is on or in front of the plane; so it fails
   * only when every point of the box (its corners included) is strictly
   * behind the plane.
   */
  lemma PlaneTestExact(b: AABB, pl: Plane)
    requires NonNegative(b.extents)
    ensures IsOnOrForwardPlane(b, pl) <==> exists q :: Contains(b, q) && SignedDistance(pl, q) >= 0.0
    ensures !IsOnOrForwardPlane(b, pl) ==> forall q :: Contains(b, q) ==> SignedDistance(pl, q) < 0.0
  {
    if IsOnOrForwardPlane(b, pl) {
      var p := SupportCorner(b, pl);
      assert Contains(b, p) && SignedDistance(pl, p) >= 0.0;
    }
    forall q | Contains(b, q) && SignedDistance(pl, q) >= 0.0
      ensures IsOnOrForwardPlane(b, pl)
    {
      PlaneTestSound(b, pl, q);
    }
  }

  /** Widening the extents around the same center never turns a pass into a fail. */
  lemma PlaneTestMonotone(b: AABB, wider: AABB, pl: Plane)
    requires wider.center == b.center && LessEq(b.extents, wider.extents)
    requires IsOnOrForwardPlane(b, pl)
    ensures IsOnOrForwardPlane(wider, pl)
  {
    var n := pl.normal;
    assert (wider.extents.x - b.extents.x) * Abs(n.x) >= 0.0;
    assert (wider.extents.y - b.extents.y) * Abs(n.y) >= 0.0;
    assert (wider.extents.z - b.extents.z) * Abs(n.z) >= 0.0;
  }

  /** Conservative culling: a box with a point inside all six half-spaces passes. */
  lemma FrustumTestSound(b: AABB, f: Frustum, q: Vec3)
    requires Contains(b, q) && InsideFrustum(f, q)
    ensures IsOnFrustum(b, f)
  {
    PlaneTestSound(b, f.leftFace, q);
    PlaneTestSound(b, f.rightFace, q);
    PlaneTestSound(b, f.topFace, q);
    PlaneTestSound(b, f.bottomFace, q);
    PlaneTestSound(b, f.nearFace, q);
    PlaneTestSound(b, f.farFace, q);
  }

  /** Widening a box never makes it fail the frustum test. */
  lemma FrustumTestMonotone(b: AABB, wider: AABB, f: Frustum)
    requires wider.center == b.center && LessEq(b.extents, wider.extents)
    requires IsOnFrustum(b, f)
    ensures IsOnFrustum(wider, f)
  {
    PlaneTestMonotone(b, wider, f.leftFace);
    PlaneTestMonotone(b, wider, f.rightFace);
    PlaneTestMonotone(b, wider, f.topFace);
    PlaneTestMonotone(b, wider, f.bottomFace);
    PlaneTestMonotone(b, wider, f.nearFace);
    PlaneTestMonotone(b, wider, f.farFace);
  }
}
