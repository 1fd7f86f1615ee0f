/**
 * Building the six faces of the view frustum from the camera pose, the
 * aspect ratio, the vertical field of view and the clip distances.
 * `tan`, `radians` and `normalize` are parameters: their values are not
 * modelled, and the lemmas state what they require of them.
 */
module Camera {
  import opened Geometry

  /** Half the height of the far face: `zFar * tan(radians(fovY) * 0.5)`. */
  function HalfVSide(fovY: real, zFar: real, tan: real -> real, radians: real -> real): real {
    zFar * tan(radians(fovY) * 0.5)
  }

  function HalfHSide(aspect: real, fovY: real, zFar: real, tan: real -> real, radians: real -> real): real {
    HalfVSide(fovY, zFar, tan, radians) * aspect
  }

  /** The vectors handed to the plane constructor for the four side faces. */
  function RightNormal(up: Vec3, farVec: Vec3, right: Vec3, halfH: real): Vec3 {
    Cross(up, Add(farVec, Scale(halfH, right)))
  }

  function LeftNormal(up: Vec3, farVec: Vec3, right: Vec3, halfH: real): Vec3 {
    Cross(Sub(farVec, Scale(halfH, right)), up)
  }

  function TopNormal(up: Vec3, farVec: Vec3, right: Vec3, halfV: real): Vec3 {
    Cross(right, Sub(farVec, Scale(halfV, up)))
  }

  function BottomNormal(up: Vec3, farVec: Vec3, right: Vec3, halfV: real): Vec3 {
    Cross(Add(farVec, Scale(halfV, up)), right)
  }

  /**
   * The frustum seen from `pos`: the near and far faces face each other
   * along `front`, and the four side faces all pass through the camera.
   */
  function CreateFrustumFromCamera(
    pos: Vec3, front: Vec3, up: Vec3, right: Vec3,
    aspect: real, fovY: real, zNear: real, zFar: real,
    tan: real -> real, radians: real -> real, normalize: Vec3 -> Vec3): (f: Frustum)
    ensures SignedDistance(f.nearFace, Add(pos, Scale(zNear, front))) == 0.0
    ensures SignedDistance(f.farFace, Add(pos, Scale(zFar, front))) == 0.0
    ensures SignedDistance(f.rightFace, pos) == 0.0
    ensures SignedDistance(f.leftFace, pos) == 0.0
    ensures SignedDistance(f.topFace, pos) == 0.0
    ensures SignedDistance(f.bottomFace, pos) == 0.0
    ensures f.nearFace.normal == normalize(front) && f.farFace.normal == normalize(Neg(front))
  {
    var halfV := HalfVSide(fovY, zFar, tan, radians);
    var halfH := HalfHSide(aspect, fovY, zFar, tan, radians);
    var farVec := Scale(zFar, front);
    Frustum(
      topFace := PlaneThrough(pos, TopNormal(up, farVec, right, halfV), normalize),
      bottomFace := PlaneThrough(pos, BottomNormal(up, farVec, right, halfV), normalize),
      rightFace := PlaneThrough(pos, RightNormal(up, farVec, right, halfH), normalize),
      leftFace := PlaneThrough(pos, LeftNormal(up, farVec, right, halfH), normalize),
      farFace := PlaneThrough(Add(pos, farVec), Neg(front), normalize),
      nearFace := PlaneThrough(Add(pos, Scale(zNear, front)), front, normalize))
  }

  /** `normalize` returns its argument scaled by `factor` of it. */
  ghost predicate ScalesBy(normalize: Vec3 -> Vec3, factor: Vec3 -> real) {
    forall w :: normalize(w) == Scale(factor(w), w)
  }

  /** Orientation of the camera basis: `cross(up, right)` points along `front`. */
  function Handedness(front: Vec3, up: Vec3, right: Vec3): real {
    Dot(Cross(up, right), front)
  }

  // --------------------------------------------------- real arithmetic

  /** Moving a factor `k` out of a product. */
  lemma MulShift(k: real, x: real, y: real)
    ensures x * (k * y) == k * (x * y)
    ensures (k * x) * y == k * (x * y)
  {
  }

  /** Multiplication distributes over a sum and a difference, on either side. */
  lemma MulDistrib(k: real, x: real, y: real)
    ensures k * (x + y) == k * x + k * y
    ensures k * (x - y) == k * x - k * y
    ensures (x + y) * k == x * k + y * k
    ensures (x - y) * k == x * k - y * k
  {
  }

  /** One component of a cross product whose argument is scaled by `k`. */
  lemma ScaledMinor(k: real, p: real, q: real, r: real, s: real)
    ensures p * (k * q) - r * (k * s) == k * (p * q - r * s)
    ensures (k * p) * q - (k * r) * s == k * (p * q - r * s)
  {
    MulShift(k, p, q);
    MulShift(k, r, s);
    MulDistrib(k, p * q, r * s);
  }

  /** One component of a cross product whose argument is a sum or a difference. */
  lemma SplitMinor(p: real, q1: real, q2: real, r: real, s1: real, s2: real)
    ensures p * (q1 + q2) - r * (s1 + s2) == (p * q1 - r * s1) + (p * q2 - r * s2)
    ensures p * (q1 - q2) - r * (s1 - s2) == (p * q1 - r * s1) - (p * q2 - r * s2)
    ensures (q1 + q2) * p - (s1 + s2) * r == (q1 * p - s1 * r) + (q2 * p - s2 * r)
    ensures (q1 - q2) * p - (s1 - s2) * r == (q1 * p - s1 * r) - (q2 * p - s2 * r)
  {
    MulDistrib(p, q1, q2);
    MulDistrib(r, s1, s2);
  }

  // ---------------------------------------------------- vector algebra

  lemma CrossOrthogonal(a: Vec3, b: Vec3)
    ensures Dot(Cross(a, b), b) == 0.0 && Dot(Cross(a, b), a) == 0.0
  {
  }

  lemma DotScale(k: real, a: Vec3, b: Vec3)
    ensures Dot(Scale(k, a), b) == k * Dot(a, b)
  {
    MulShift(k, a.x, b.x);
    MulShift(k, a.y, b.y);
    MulShift(k, a.z, b.z);
    MulDistrib(k, a.x * b.x, a.y * b.y);
    MulDistrib(k, a.x * b.x + a.y * b.y, a.z * b.z);
  }

  lemma DotSub(w: Vec3, p: Vec3, q: Vec3)
    ensures Dot(w, p) - Dot(w, q) == Dot(w, Sub(p, q))
  {
    MulDistrib(w.x, p.x, q.x);
    MulDistrib(w.y, p.y, q.y);
    MulDistrib(w.z, p.z, q.z);
  }

  lemma CrossScaleRight(a: Vec3, k: real, b: Vec3)
    ensures Cross(a, Scale(k, b)) == Scale(k, Cross(a, b))
  {
    var l, r := Cross(a, Scale(k, b)), Scale(k, Cross(a, b));
    assert l.x == r.x by { ScaledMinor(k, a.y, b.z, a.z, b.y); }
    assert l.y == r.y by { ScaledMinor(k, a.z, b.x, a.x, b.z); }
    assert l.z == r.z by { ScaledMinor(k, a.x, b.y, a.y, b.x); }
  }

  lemma CrossScaleLeft(k: real, a: Vec3, b: Vec3)
    ensures Cross(Scale(k, a), b) == Scale(k, Cross(a, b))
  {
    var l, r := Cross(Scale(k, a), b), Scale(k, Cross(a, b));
    assert l.x == r.x by { ScaledMinor(k, a.y, b.z, a.z, b.y); }
    assert l.y == r.y by { ScaledMinor(k, a.z, b.x, a.x, b.z); }
    assert l.z == r.z by { ScaledMinor(k, a.x, b.y, a.y, b.x); }
  }

  lemma CrossAddRight(a: Vec3, b: Vec3, c: Vec3)
    ensures Cross(a, Add(b, c)) == Add(Cross(a, b), Cross(a, c))
  {
    SplitMinor(a.y, b.z, c.z, a.z, b.y, c.y);
    SplitMinor(a.z, b.x, c.x, a.x, b.z, c.z);
    SplitMinor(a.x, b.y, c.y, a.y, b.x, c.x);
  }

  lemma CrossSubRight(a: Vec3, b: Vec3, c: Vec3)
    ensures Cross(a, Sub(b, c)) == Sub(Cross(a, b), Cross(a, c))
  {
    SplitMinor(a.y, b.z, c.z, a.z, b.y, c.y);
    SplitMinor(a.z, b.x, c.x, a.x, b.z, c.z);
    SplitMinor(a.x, b.y, c.y, a.y, b.x, c.x);
  }

  lemma CrossAddLeft(a: Vec3, b: Vec3, c: Vec3)
    ensures Cross(Add(b, c), a) == Add(Cross(b, a), Cross(c, a))
  {
    SplitMinor(a.z, b.y, c.y, a.y, b.z, c.z);
    SplitMinor(a.x, b.z, c.z, a.z, b.x, c.x);
    SplitMinor(a.y, b.x, c.x, a.x, b.y, c.y);
  }

  lemma CrossSubLeft(a: Vec3, b: Vec3, c: Vec3)
    ensures Cross(Sub(b, c), a) == Sub(Cross(b, a), Cross(c, a))
  {
    SplitMinor(a.z, b.y, c.y, a.y, b.z, c.z);
    SplitMinor(a.x, b.z, c.z, a.z, b.x, c.x);
    SplitMinor(a.y, b.x, c.x, a.x, b.y, c.y);
  }

  lemma DotAdd(a: Vec3, b: Vec3, d: Vec3)
    ensures Dot(Add(a, b), d) == Dot(a, d) + Dot(b, d)
    ensures Dot(Sub(a, b), d) == Dot(a, d) - Dot(b, d)
  {
    MulDistrib(d.x, a.x, b.x);
    MulDistrib(d.y, a.y, b.y);
    MulDistrib(d.z, a.z, b.z);
  }

  lemma CrossAntisymmetric(a: Vec3, b: Vec3)
    ensures Cross(b, a) == Neg(Cross(a, b))
  {
  }

  /** Swapping `up` and `right` flips the handedness. */
  lemma HandednessFlipped(front: Vec3, up: Vec3, right: Vec3)
    ensures Dot(Cross(right, up), front) == -Handedness(front, up, right)
  {
    CrossAntisymmetric(up, right);
  }

  /** `dot(cross(a, b + k * c), front)` when `b` is a multiple of `front`. */
  lemma CrossAlongFrontRight(a: Vec3, zFar: real, front: Vec3, k: real, c: Vec3)
    ensures Dot(Cross(a, Add(Scale(zFar, front), Scale(k, c))), front) == k * Dot(Cross(a, c), front)
    ensures Dot(Cross(a, Sub(Scale(zFar, front), Scale(k, c))), front) == -(k * Dot(Cross(a, c), front))
  {
    var b := Scale(zFar, front);
    CrossAddRight(a, b, Scale(k, c));
    CrossSubRight(a, b, Scale(k, c));
    DotAdd(Cross(a, b), Cross(a, Scale(k, c)), front);
    CrossScaleRight(a, zFar, front);
    CrossScaleRight(a, k, c);
    DotScale(zFar, Cross(a, front), front);
    DotScale(k, Cross(a, c), front);
    CrossOrthogonal(a, front);
  }

  /** `dot(cross(b + k * c, a), front)` when `b` is a multiple of `front`. */
  lemma CrossAlongFrontLeft(a: Vec3, zFar: real, front: Vec3, k: real, c: Vec3)
    ensures Dot(Cross(Add(Scale(zFar, front), Scale(k, c)), a), front) == k * Dot(Cross(c, a), front)
    ensures Dot(Cross(Sub(Scale(zFar, front), Scale(k, c)), a), front) == -(k * Dot(Cross(c, a), front))
  {
    var b := Scale(zFar, front);
    CrossAddLeft(a, b, Scale(k, c));
    CrossSubLeft(a, b, Scale(k, c));
    DotAdd(Cross(b, a), Cross(Scale(k, c), a), front);
    CrossScaleLeft(zFar, front, a);
    CrossScaleLeft(k, c, a);
    DotScale(zFar, Cross(front, a), front);
    DotScale(k, Cross(c, a), front);
    CrossOrthogonal(front, a);
  }

  /** The right-face vector, dotted with `front`, is the half side times the handedness. */
  lemma RightNormalAlongFront(front: Vec3, up: Vec3, right: Vec3, zFar: real, h: real)
    ensures Dot(RightNormal(up, Scale(zFar, front), right, h), front) == h * Handedness(front, up, right)
  {
    CrossAlongFrontRight(up, zFar, front, h, right);
  }

  /** The same for the left-face vector. */
  lemma LeftNormalAlongFront(front: Vec3, up: Vec3, right: Vec3, zFar: real, h: real)
    ensures Dot(LeftNormal(up, Scale(zFar, front), right, h), front) == h * Handedness(front, up, right)
  {
    CrossAlongFrontLeft(up, zFar, front, h, right);
    HandednessFlipped(front, up, right);
  }

  /** The same for the top-face vector. */
  lemma TopNormalAlongFront(front: Vec3, up: Vec3, right: Vec3, zFar: real, h: real)
    ensures Dot(TopNormal(up, Scale(zFar, front), right, h), front) == h * Handedness(front, up, right)
  {
    CrossAlongFrontRight(right, zFar, front, h, up);
    HandednessFlipped(front, up, right);
  }

  /** The same for the bottom-face vector. */
  lemma BottomNormalAlongFront(front: Vec3, up: Vec3, right: Vec3, zFar: real, h: real)
    ensures Dot(BottomNormal(up, Scale(zFar, front), right, h), front) == h * Handedness(front, up, right)
  {
    CrossAlongFrontLeft(right, zFar, front, h, up);
  }

  /** Against a plane whose normal is `k * w`, the signed distance is `k * dot(w, p - anchor)`. */
  lemma ScaledPlaneDistance(anchor: Vec3, w: Vec3, normalize: Vec3 -> Vec3, k: real, p: Vec3)
    requires normalize(w) == Scale(k, w)
    ensures SignedDistance(PlaneThrough(anchor, w, normalize), p) == k * Dot(w, Sub(p, anchor))
  {
    DotScale(k, w, p);
    DotScale(k, w, anchor);
    DotSub(w, p, anchor);
    assert k * Dot(w, p) - k * Dot(w, anchor) == k * (Dot(w, p) - Dot(w, anchor));
  }

  lemma PositiveProduct3(a: real, b: real, c: real)
    requires a > 0.0 && b > 0.0 && c > 0.0
    ensures a * b * c > 0.0
  {
    assert a * b > 0.0;
  }

  /** A point ahead of the camera by more than `zNear` is in front of the near face. */
  lemma AheadOfNearFace(pos: Vec3, front: Vec3, zNear: real, t: real, normalize: Vec3 -> Vec3, k: real)
    requires normalize(front) == Scale(k, front) && k > 0.0
    requires Dot(front, front) > 0.0 && zNear < t
    ensures SignedDistance(PlaneThrough(Add(pos, Scale(zNear, front)), front, normalize), Add(pos, Scale(t, front))) > 0.0
  {
    var p := Add(pos, Scale(t, front));
    ScaledPlaneDistance(Add(pos, Scale(zNear, front)), front, normalize, k, p);
    assert Sub(p, Add(pos, Scale(zNear, front))) == Scale(t - zNear, front);
    DotScale(t - zNear, front, front);
    assert Dot(front, Scale(t - zNear, front)) == Dot(Scale(t - zNear, front), front);
    PositiveProduct3(k, t - zNear, Dot(front, front));
    assert k * ((t - zNear) * Dot(front, front)) == k * (t - zNear) * Dot(front, front);
  }

  /** A point ahead of the camera by less than `zFar` is in front of the far face. */
  lemma BeforeFarFace(pos: Vec3, front: Vec3, zFar: real, t: real, normalize: Vec3 -> Vec3, k: real)
    requires normalize(Neg(front)) == Scale(k, Neg(front)) && k > 0.0
    requires Dot(front, front) > 0.0 && t < zFar
    ensures SignedDistance(PlaneThrough(Add(pos, Scale(zFar, front)), Neg(front), normalize), Add(pos, Scale(t, front))) > 0.0
  {
    var p := Add(pos, Scale(t, front));
    ScaledPlaneDistance(Add(pos, Scale(zFar, front)), Neg(front), normalize, k, p);
    assert Sub(p, Add(pos, Scale(zFar, front))) == Scale(t - zFar, front);
    assert Neg(front) == Scale(-1.0, front);
    DotScale(-1.0, front, Scale(t - zFar, front));
    DotScale(t - zFar, front, front);
    assert Dot(front, Scale(t - zFar, front)) == Dot(Scale(t - zFar, front), front);
    PositiveProduct3(k, zFar - t, Dot(front, front));
  }

  /** A side face through the camera whose vector `w` has `dot(w, front) > 0` keeps the view axis in front. */
  lemma AxisInFrontOfSideFace(pos: Vec3, front: Vec3, w: Vec3, t: real, normalize: Vec3 -> Vec3, k: real)
    requires normalize(w) == Scale(k, w) && k > 0.0
    requires Dot(w, front) > 0.0 && t > 0.0
    ensures SignedDistance(PlaneThrough(pos, w, normalize), Add(pos, Scale(t, front))) > 0.0
  {
    var p := Add(pos, Scale(t, front));
    ScaledPlaneDistance(pos, w, normalize, k, p);
    assert Sub(p, pos) == Scale(t, front);
    DotScale(t, front, w);
    assert Dot(w, Scale(t, front)) == Dot(Scale(t, front), w);
    assert Dot(front, w) == Dot(w, front);
    PositiveProduct3(k, t, Dot(w, front));
  }

  /**
   * With a normalisation that scales by a positive factor, a camera basis
   * whose `cross(up, right)` points along `front`, a positive aspect, a
   * positive `tan` of the half angle and clip distances
   * `0 < zNear < t < zFar`, the point `pos + t * front` on the view axis is
   * strictly in front of all six faces (and so inside the frustum).
   */
  lemma ViewAxisInside(
    pos: Vec3, front: Vec3, up: Vec3, right: Vec3,
    aspect: real, fovY: real, zNear: real, zFar: real,
    tan: real -> real, radians: real -> real, normalize: Vec3 -> Vec3,
    factor: Vec3 -> real, t: real)
    requires ScalesBy(normalize, factor) && forall w :: factor(w) > 0.0
    requires Dot(front, front) > 0.0 && Handedness(front, up, right) > 0.0
    requires aspect > 0.0 && tan(radians(fovY) * 0.5) > 0.0
    requires 0.0 < zNear < t < zFar
    ensures var f := CreateFrustumFromCamera(pos, front, up, right, aspect, fovY, zNear, zFar, tan, radians, normalize);
      StrictlyInsideFrustum(f, Add(pos, Scale(t, front)))
    ensures var f := CreateFrustumFromCamera(pos, front, up, right, aspect, fovY, zNear, zFar, tan, radians, normalize);
      InsideFrustum(f, Add(pos, Scale(t, front)))
  {
    var halfV := HalfVSide(fovY, zFar, tan, radians);
    var halfH := HalfHSide(aspect, fovY, zFar, tan, radians);
    var hand := Handedness(front, up, right);
    var farVec := Scale(zFar, front);
    assert halfV > 0.0 by { assert zFar * tan(radians(fovY) * 0.5) > 0.0; }
    assert halfH > 0.0 by { assert halfV * aspect > 0.0; }
    assert halfH * hand > 0.0 && halfV * hand > 0.0;
    RightNormalAlongFront(front, up, right, zFar, halfH);
    LeftNormalAlongFront(front, up, right, zFar, halfH);
    TopNormalAlongFront(front, up, right, zFar, halfV);
    BottomNormalAlongFront(front, up, right, zFar, halfV);
    var wr := RightNormal(up, farVec, right, halfH);
    var wl := LeftNormal(up, farVec, right, halfH);
    var wt := TopNormal(up, farVec, right, halfV);
    var wb := BottomNormal(up, farVec, right, halfV);
    AheadOfNearFace(pos, front, zNear, t, normalize, factor(front));
    BeforeFarFace(pos, front, zFar, t, normalize, factor(Neg(front)));
    AxisInFrontOfSideFace(pos, front, wr, t, normalize, factor(wr));
    AxisInFrontOfSideFace(pos, front, wl, t, normalize, factor(wl));
    AxisInFrontOfSideFace(pos, front, wt, t, normalize, factor(wt));
    AxisInFrontOfSideFace(pos, front, wb, t, normalize, factor(wb));
  }
}
