/**
 * The axis-aligned rectangles `XYRect`, `XZRect` and `YZRect`.  All three
 * follow one rule, written once here over the rectangle's `Plane`: the
 * plane fixes one axis at `k`, and the rectangle spans `[a0, a1]` on the
 * first remaining axis and `[b0, b1]` on the second.
 *
 * | plane | fixed axis | `a` axis | `b` axis | normal |
 * |-------|------------|----------|----------|--------|
 * | XY    | z          | x        | y        | (0, 0, 1) |
 * | XZ    | y          | x        | z        | (0, 1, 0) |
 * | YZ    | x          | y        | z        | (1, 0, 0) |
 */
module Rectangles {
  import opened Vectors
  import opened Rays
  import opened Wrappers
  import opened Aabbs
  import opened Materials
  import opened HitRecords

  datatype Plane = XY | XZ | YZ

  /** The axis the plane holds at `k`. */
  function FixedAxis(plane: Plane): (i: nat)
    ensures i < 3
  {
    match plane
    case XY => 2
    case XZ => 1
    case YZ => 0
  }

  /** The first in-plane axis, which gives `u`. */
  function AxisA(plane: Plane): (i: nat)
    ensures i < 3 && i != FixedAxis(plane)
  {
    match plane
    case XY => 0
    case XZ => 0
    case YZ => 1
  }

  /** The second in-plane axis, which gives `v`. */
  function AxisB(plane: Plane): (i: nat)
    ensures i < 3 && i != FixedAxis(plane) && i != AxisA(plane)
  {
    match plane
    case XY => 1
    case XZ => 2
    case YZ => 2
  }

  /** The vector with `f` on the fixed axis, `a` on the first in-plane axis and `b` on the second. */
  function Assemble(plane: Plane, f: real, a: real, b: real): (v: Vec3)
    ensures v.Index(FixedAxis(plane)) == f && v.Index(AxisA(plane)) == a && v.Index(AxisB(plane)) == b
  {
    match plane
    case XY => Vec3(a, b, f)
    case XZ => Vec3(a, f, b)
    case YZ => Vec3(f, a, b)
  }

  /** The fixed normal: the unit vector along the fixed axis. */
  function Normal(plane: Plane): (n: Vec3)
    ensures n == Assemble(plane, 1.0, 0.0, 0.0)
  {
    match plane
    case XY => Vec3(0.0, 0.0, 1.0)
    case XZ => Vec3(0.0, 1.0, 0.0)
    case YZ => Vec3(1.0, 0.0, 0.0)
  }

  /** The parameter at which the ray crosses the plane, when it is not parallel to it. */
  function Crossing(plane: Plane, k: real, r: Ray): (t: Option<real>)
    ensures t.Some? <==> r.direction.Index(FixedAxis(plane)) != 0.0
    ensures t.Some? ==> PointAtParameter(r, t.value).Index(FixedAxis(plane)) == k
  {
    var i := FixedAxis(plane);
    var d := r.direction.Index(i);
    if d == 0.0 then None
    else
      var t := (k - r.origin.Index(i)) / d;
      assert r.origin.Index(i) + d * t == k;
      assert PointAtParameter(r, t).Index(i) == r.origin.Index(i) + r.direction.Index(i) * t by {
        IndexMatchesAccessors(r.origin);
        IndexMatchesAccessors(r.direction);
      }
      Some(t)
  }

  /** The point of the ray at `t`, on the in-plane axis `i`. */
  function InPlane(r: Ray, t: real, i: nat): real
    requires i < 3
  {
    r.origin.Index(i) + t * r.direction.Index(i)
  }

  /** `hit` of a rectangle: the plane crossing, if it lies in `[t0, t1]` and inside the rectangle's extents. */
  function RectHit(plane: Plane, a0: real, a1: real, b0: real, b1: real, k: real, mat: Material,
                   r: Ray, t0: real, t1: real): (res: Option<HitRecord>)
    requires a0 != a1 && b0 != b1
    ensures res.Some? ==> Crossing(plane, k, r) == Some(res.value.t)
    ensures res.Some? ==> t0 <= res.value.t <= t1
    ensures res.Some? ==> res.value.p == PointAtParameter(r, res.value.t)
    ensures res.Some? ==> res.value.normal == Normal(plane) && res.value.mat == mat
  {
    match Crossing(plane, k, r)
    case None => None
    case Some(t) =>
      if t < t0 || t > t1 then None
      else
        var a := InPlane(r, t, AxisA(plane));
        var b := InPlane(r, t, AxisB(plane));
        if a < a0 || a > a1 || b < b0 || b > b1 then None
        else Some(HitRecord(t, PointAtParameter(r, t), Normal(plane), (a - a0) / (a1 - a0), (b - b0) / (b1 - b0), mat))
  }

  /**
   * A rectangle is hit exactly when the ray crosses its plane at some `t`
   * in `[t0, t1]` at a point within both extents.
   */
  lemma RectHitExact(plane: Plane, a0: real, a1: real, b0: real, b1: real, k: real, mat: Material,
                     r: Ray, t0: real, t1: real)
    requires a0 != a1 && b0 != b1
    ensures RectHit(plane, a0, a1, b0, b1, k, mat, r, t0, t1).Some? <==>
      && Crossing(plane, k, r).Some?
      && var t := Crossing(plane, k, r).value;
      && t0 <= t <= t1
      && a0 <= InPlane(r, t, AxisA(plane)) <= a1
      && b0 <= InPlane(r, t, AxisB(plane)) <= b1
  {
  }

  /** A hit point lies on the plane, within the extents, and its `(u, v)` lies in the unit square when `a0 < a1` and `b0 < b1`. */
  lemma RectHitOnRectangle(plane: Plane, a0: real, a1: real, b0: real, b1: real, k: real, mat: Material,
                           r: Ray, t0: real, t1: real)
    requires a0 != a1 && b0 != b1
    ensures var res := RectHit(plane, a0, a1, b0, b1, k, mat, r, t0, t1);
      res.Some? ==>
        && res.value.p.Index(FixedAxis(plane)) == k
        && a0 <= res.value.p.Index(AxisA(plane)) <= a1
        && b0 <= res.value.p.Index(AxisB(plane)) <= b1
    ensures var res := RectHit(plane, a0, a1, b0, b1, k, mat, r, t0, t1);
      res.Some? && a0 < a1 && b0 < b1 ==> 0.0 <= res.value.u <= 1.0 && 0.0 <= res.value.v <= 1.0
  {
    var res := RectHit(plane, a0, a1, b0, b1, k, mat, r, t0, t1);
    if res.Some? {
      var t := res.value.t;
      PointComponent(r, t, AxisA(plane));
      PointComponent(r, t, AxisB(plane));
      if a0 < a1 && b0 < b1 {
        UnitFraction(InPlane(r, t, AxisA(plane)), a0, a1);
        UnitFraction(InPlane(r, t, AxisB(plane)), b0, b1);
      }
    }
  }

  lemma PointComponent(r: Ray, t: real, i: nat)
    requires i < 3
    ensures PointAtParameter(r, t).Index(i) == InPlane(r, t, i)
  {
  }

  /** `(x - lo) / (hi - lo)` lies in [0, 1] for `x` in `[lo, hi]`. */
  lemma UnitFraction(x: real, lo: real, hi: real)
    requires lo < hi && lo <= x <= hi
    ensures 0.0 <= (x - lo) / (hi - lo) <= 1.0
  {
    Reals.ScaledCompare(x - lo, hi - lo, 0.0);
    Reals.ScaledCompare(x - lo, hi - lo, 1.0);
    assert (x - lo) / (hi - lo) == (x - lo) * (1.0 / (hi - lo));
  }

  /** The half-thickness the box adds on the fixed axis. */
  const Padding := 0.0001

  /** `bounding_box` of a rectangle: the exact extents in the plane, padded on the fixed axis; the shutter times play no part. */
  function RectBox(plane: Plane, a0: real, a1: real, b0: real, b1: real, k: real): (b: Aabb)
    ensures b.min.Index(FixedAxis(plane)) == k - Padding && b.max.Index(FixedAxis(plane)) == k + Padding
    ensures b.min.Index(AxisA(plane)) == a0 && b.max.Index(AxisA(plane)) == a1
    ensures b.min.Index(AxisB(plane)) == b0 && b.max.Index(AxisB(plane)) == b1
  {
    Aabb(Assemble(plane, k - Padding, a0, b0), Assemble(plane, k + Padding, a1, b1))
  }

  /** Every hit point lies in the rectangle's box. */
  lemma RectBoxContainsHits(plane: Plane, a0: real, a1: real, b0: real, b1: real, k: real, mat: Material,
                            r: Ray, t0: real, t1: real)
    requires a0 != a1 && b0 != b1
    ensures var res := RectHit(plane, a0, a1, b0, b1, k, mat, r, t0, t1);
      res.Some? ==> Contains(RectBox(plane, a0, a1, b0, b1, k), res.value.p)
  {
    RectHitOnRectangle(plane, a0, a1, b0, b1, k, mat, r, t0, t1);
    var res := RectHit(plane, a0, a1, b0, b1, k, mat, r, t0, t1);
    if res.Some? {
      var box := RectBox(plane, a0, a1, b0, b1, k);
      ContainsByAxes(plane, box, res.value.p);
    }
  }

  /** Containment checked on the fixed axis and the two in-plane axes is containment. */
  lemma ContainsByAxes(plane: Plane, box: Aabb, p: Vec3)
    requires box.min.Index(FixedAxis(plane)) <= p.Index(FixedAxis(plane)) <= box.max.Index(FixedAxis(plane))
    requires box.min.Index(AxisA(plane)) <= p.Index(AxisA(plane)) <= box.max.Index(AxisA(plane))
    requires box.min.Index(AxisB(plane)) <= p.Index(AxisB(plane)) <= box.max.Index(AxisB(plane))
    ensures Contains(box, p)
  {
  }
}
