/**
 * `Hittable`: everything a ray can hit.  The renderer's trait objects become
 * one closed datatype with a variant per implementation; `hit` and
 * `bounding_box` dispatch on it.  A `Vec` of surfaces is itself a surface
 * (`List`), whose hit is the earliest child hit and whose box surrounds
 * every child's box.
 */
module Hittables {
  import opened Intrinsics
  import opened Vectors
  import opened Rays
  import opened Wrappers
  import opened Aabbs
  import opened Materials
  import opened HitRecords
  import opened Spheres
  import opened MovingSpheres
  import opened Rectangles
  import opened Translations
  import opened Rotations

  datatype Hittable =
    | Sphere(center: Vec3, radius: real, mat: Material)
    | MovingSphere(center0: Vec3, center1: Vec3, time0: real, time1: real, radius: real, mat: Material)
    | Rect(plane: Plane, a0: real, a1: real, b0: real, b1: real, k: real, mat: Material)
      /** The result of `flip_normals` around a surface. */
    | FlipNormals(child: Hittable)
    | CornellBox(pmin: Vec3, pmax: Vec3, sides: seq<Hittable>)
    | Translate(child: Hittable, offset: Vec3)
    | RotateY(child: Hittable, sinTheta: real, cosTheta: real, bbox: Option<Aabb>)
      /** The two node shapes of `BVH`. */
    | BvhSingle(left: Hittable, box: Aabb)
    | BvhDouble(left: Hittable, right: Hittable, box: Aabb)
      /** `Vec<Box<dyn Hittable>>`. */
    | List(items: seq<Hittable>)

  /**
   * The divisions `hit` and `bounding_box` perform are by non-zero values: a
   * moving sphere's two times differ and a rectangle's extents are not
   * degenerate, throughout the surface.
   */
  predicate WellFormed(h: Hittable) {
    match h
    case Sphere(_, _, _) => true
    case MovingSphere(_, _, time0, time1, _, _) => time1 != time0
    case Rect(_, a0, a1, b0, b1, _, _) => a0 != a1 && b0 != b1
    case FlipNormals(child) => WellFormed(child)
    case CornellBox(_, _, sides) => forall i :: 0 <= i < |sides| ==> WellFormed(sides[i])
    case Translate(child, _) => WellFormed(child)
    case RotateY(child, _, _, _) => WellFormed(child)
    case BvhSingle(left, _) => WellFormed(left)
    case BvhDouble(left, right, _) => WellFormed(left) && WellFormed(right)
    case List(items) => forall i :: 0 <= i < |items| ==> WellFormed(items[i])
  }

  predicate AllWellFormed(items: seq<Hittable>) {
    forall i :: 0 <= i < |items| ==> WellFormed(items[i])
  }

  /** The normal `flip_normals` reports for a child's normal `n`. */
  function Flip(m: Math, n: Vec3): Vec3 {
    var c := m.flipNormal((n.x, n.y, n.z));
    Vec3(c.0, c.1, c.2)
  }

  // ---------------------------------------------------------------------
  // hit

  /** `hit` of every surface: whatever surface reports a hit, its `t` lies within `[tMin, tMax]`. */
  function Hit(h: Hittable, r: Ray, tMin: real, tMax: real, m: Math): (res: Option<HitRecord>)
    requires WellFormed(h)
    ensures res.Some? ==> tMin <= res.value.t <= tMax
    decreases h, 0
  {
    match h
    case Sphere(center, radius, mat) => SphereHit(center, radius, mat, r, tMin, tMax, m)
    case MovingSphere(c0, c1, time0, time1, radius, mat) =>
      MovingSphereHit(c0, c1, time0, time1, radius, mat, r, tMin, tMax, m)
    case Rect(plane, a0, a1, b0, b1, k, mat) => RectHit(plane, a0, a1, b0, b1, k, mat, r, tMin, tMax)
    case FlipNormals(child) =>
      (match Hit(child, r, tMin, tMax, m)
       case None => None
       case Some(rec) => Some(rec.(normal := Flip(m, rec.normal))))
    case CornellBox(_, _, sides) => ListHit(sides, |sides|, r, tMin, tMax, m)
    case Translate(child, offset) =>
      (match Hit(child, MoveRay(r, offset), tMin, tMax, m)
       case None => None
       case Some(rec) => Some(MoveRecord(rec, offset)))
    case RotateY(child, s, c, _) =>
      (match Hit(child, RotateRay(r, s, c), tMin, tMax, m)
       case None => None
       case Some(rec) => Some(RotateRecord(rec, s, c)))
    case BvhSingle(left, box) =>
      if HitFrom(box, r, 0, tMin, tMax) then Hit(left, r, tMin, tMax, m) else None
    case BvhDouble(left, right, box) =>
      if HitFrom(box, r, 0, tMin, tMax) then Nearer(Hit(left, r, tMin, tMax, m), Hit(right, r, tMin, tMax, m))
      else None
    case List(items) => ListHit(items, |items|, r, tMin, tMax, m)
  }

  /**
   * One step of `min_by` over the child hits: the minimum so far is kept
   * unless the next hit is strictly nearer, so the first of equal minima
   * survives.  A child that misses is skipped, as `filter_map` drops it.
   */
  function Earlier(best: Option<HitRecord>, next: Option<HitRecord>): (res: Option<HitRecord>)
    ensures res.None? <==> best.None? && next.None?
    ensures res == best || res == next
    ensures res.Some? && best.Some? ==> res.value.t <= best.value.t
    ensures res.Some? && next.Some? ==> res.value.t <= next.value.t
    ensures best.Some? && next.Some? && best.value.t <= next.value.t ==> res == best
  {
    match (best, next)
    case (None, _) => next
    case (_, None) => best
    case (Some(a), Some(b)) => if a.t > b.t then next else best
  }

  /** The list `hit` over the first `n` children: `filter_map` then `min_by`, as a left fold. */
  function ListHit(items: seq<Hittable>, n: nat, r: Ray, tMin: real, tMax: real, m: Math): (res: Option<HitRecord>)
    requires n <= |items| && AllWellFormed(items)
    ensures res.Some? ==> tMin <= res.value.t <= tMax
    decreases items, n
  {
    if n == 0 then None
    else Earlier(ListHit(items, n - 1, r, tMin, tMax, m), Hit(items[n - 1], r, tMin, tMax, m))
  }

  /**
   * The `Double` node's choice: the hit with the smaller `t`; the comparison
   * is strict, so on equal `t` the right child's hit is returned.
   */
  function Nearer(left: Option<HitRecord>, right: Option<HitRecord>): (res: Option<HitRecord>)
    ensures res.None? <==> left.None? && right.None?
    ensures res == left || res == right
    ensures res.Some? && left.Some? ==> res.value.t <= left.value.t
    ensures res.Some? && right.Some? ==> res.value.t <= right.value.t
    ensures left.Some? && right.Some? && !(left.value.t < right.value.t) ==> res == right
  {
    match (left, right)
    case (Some(l), Some(rr)) => if l.t < rr.t then left else right
    case (Some(_), None) => left
    case (None, _) => right
  }

  // ---------------------------------------------------------------------
  // bounding_box

  /** `bounding_box` of every surface over the shutter interval `[t0, t1]`. */
  function BoundingBox(h: Hittable, t0: real, t1: real): Option<Aabb>
    requires WellFormed(h)
    decreases h, 0
  {
    match h
    case Sphere(center, radius, _) => Some(RadiusBox(center, radius))
    case MovingSphere(c0, c1, time0, time1, radius, _) => Some(MovingBox(c0, c1, time0, time1, radius, t0, t1))
    case Rect(plane, a0, a1, b0, b1, k, _) => Some(RectBox(plane, a0, a1, b0, b1, k))
    case FlipNormals(child) => BoundingBox(child, t0, t1)
    case CornellBox(pmin, pmax, _) => Some(Aabb(pmin, pmax))
    case Translate(child, offset) => MoveBox(BoundingBox(child, t0, t1), offset)
    case RotateY(_, _, _, bbox) => bbox
    case BvhSingle(_, box) => Some(box)
    case BvhDouble(_, _, box) => Some(box)
    case List(items) => ListBox(items, t0, t1)
  }

  /** The list `bounding_box`: `None` for no children, else the fold started from the first child's box. */
  function ListBox(items: seq<Hittable>, t0: real, t1: real): (res: Option<Aabb>)
    requires AllWellFormed(items)
    decreases items, 2
    ensures |items| == 0 ==> res.None?
    ensures res.Some? <==> |items| > 0 && forall i :: 0 <= i < |items| ==> BoundingBox(items[i], t0, t1).Some?
    ensures res.Some? ==> forall i :: 0 <= i < |items| ==> Encloses(res.value, BoundingBox(items[i], t0, t1).value)
  {
    if |items| == 0 then None
    else match BoundingBox(items[0], t0, t1)
      case None => None
      case Some(init) => BoxFold(items, |items|, init, t0, t1)
  }

  /**
   * `try_fold` over the first `n` children from `init`: each child's box is
   * merged in with `surrounding_box`, and a child without one stops the
   * fold with `None`.
   */
  function BoxFold(items: seq<Hittable>, n: nat, init: Aabb, t0: real, t1: real): (res: Option<Aabb>)
    requires n <= |items| && AllWellFormed(items)
    decreases items, 1, n
    ensures res.Some? <==> forall i :: 0 <= i < n ==> BoundingBox(items[i], t0, t1).Some?
    ensures res.Some? ==> Encloses(res.value, init)
    ensures res.Some? ==> forall i :: 0 <= i < n ==> Encloses(res.value, BoundingBox(items[i], t0, t1).value)
  {
    if n == 0 then Some(init)
    else match BoxFold(items, n - 1, init, t0, t1)
      case None => None
      case Some(acc) =>
        match BoundingBox(items[n - 1], t0, t1)
        case None => None
        case Some(b) => Some(SurroundingBox(acc, b))
  }

  // ---------------------------------------------------------------------
  // Properties of the list

  /** The list `hit` is `None` exactly when no child is hit. */
  lemma {:induction false} ListHitNone(items: seq<Hittable>, n: nat, r: Ray, tMin: real, tMax: real, m: Math)
    requires n <= |items| && AllWellFormed(items)
    ensures ListHit(items, n, r, tMin, tMax, m).None? <==> forall j :: 0 <= j < n ==> Hit(items[j], r, tMin, tMax, m).None?
  {
    if n > 0 {
      ListHitNone(items, n - 1, r, tMin, tMax, m);
    }
  }

  /**
   * A list hit is the hit of one child `i`: its `t` is no greater than any
   * child's, and every earlier child either misses or is strictly farther,
   * so among equal minima the first child wins.
   */
  lemma {:induction false} ListHitFirstMinimum(items: seq<Hittable>, n: nat, r: Ray, tMin: real, tMax: real, m: Math)
    requires n <= |items| && AllWellFormed(items)
    ensures var res := ListHit(items, n, r, tMin, tMax, m);
      res.Some? ==> exists i ::
        && 0 <= i < n && Hit(items[i], r, tMin, tMax, m) == res
        && (forall j :: 0 <= j < n && Hit(items[j], r, tMin, tMax, m).Some? ==> res.value.t <= Hit(items[j], r, tMin, tMax, m).value.t)
        && (forall j :: 0 <= j < i && Hit(items[j], r, tMin, tMax, m).Some? ==> res.value.t < Hit(items[j], r, tMin, tMax, m).value.t)
  {
    if n > 0 {
      var res := ListHit(items, n, r, tMin, tMax, m);
      var prev := ListHit(items, n - 1, r, tMin, tMax, m);
      var last := Hit(items[n - 1], r, tMin, tMax, m);
      ListHitFirstMinimum(items, n - 1, r, tMin, tMax, m);
      ListHitNone(items, n - 1, r, tMin, tMax, m);
      if res.Some? {
        if res == prev {
          var i :| 0 <= i < n - 1 && Hit(items[i], r, tMin, tMax, m) == prev
            && (forall j :: 0 <= j < n - 1 && Hit(items[j], r, tMin, tMax, m).Some? ==> prev.value.t <= Hit(items[j], r, tMin, tMax, m).value.t)
            && (forall j :: 0 <= j < i && Hit(items[j], r, tMin, tMax, m).Some? ==> prev.value.t < Hit(items[j], r, tMin, tMax, m).value.t);
          assert Hit(items[i], r, tMin, tMax, m) == res;
        } else {
          assert res == last;
          assert Hit(items[n - 1], r, tMin, tMax, m) == res;
        }
      }
    }
  }

  // ---------------------------------------------------------------------
  // Properties of the wrappers

  /** `flip_normals` keeps the child's hit except for the normal, and misses where the child misses. */
  lemma FlipNormalsHit(child: Hittable, r: Ray, tMin: real, tMax: real, m: Math)
    requires WellFormed(child)
    ensures var res := Hit(FlipNormals(child), r, tMin, tMax, m);
      var inner := Hit(child, r, tMin, tMax, m);
      && (res.None? <==> inner.None?)
      && (res.Some? ==> res.value.(normal := inner.value.normal) == inner.value)
  {
  }

  /** A translated surface misses exactly when its child misses the moved ray, and its hit point moved back is the child's. */
  lemma TranslateHit(child: Hittable, offset: Vec3, r: Ray, tMin: real, tMax: real, m: Math)
    requires WellFormed(child)
    ensures var res := Hit(Translate(child, offset), r, tMin, tMax, m);
      var inner := Hit(child, MoveRay(r, offset), tMin, tMax, m);
      && (res.None? <==> inner.None?)
      && (res.Some? ==> Sub(res.value.p, offset) == inner.value.p && res.value.(p := inner.value.p) == inner.value)
  {
  }

  /**
   * `RotateY::new`: the sine and cosine of the angle, given in degrees, and
   * the box of the child over `[0, 1]` rotated corner by corner, or `None`
   * when the child has no box.  The cached box is what `bounding_box`
   * returns at any time.
   */
  method NewRotateY(child: Hittable, angle: real, m: Math) returns (h: Hittable)
    requires WellFormed(child)
    ensures h.RotateY? && h.child == child && WellFormed(h)
    ensures h.sinTheta == m.sin(PI / 180.0 * angle) && h.cosTheta == m.cos(PI / 180.0 * angle)
    ensures h.bbox.None? <==> BoundingBox(child, 0.0, 1.0).None?
    ensures h.bbox.Some? ==>
      var ts := Testers(BoundingBox(child, 0.0, 1.0).value, h.sinTheta, h.cosTheta);
      h.bbox.value == Aabb(Lowest(ts), Highest(ts))
    ensures forall t0, t1 :: BoundingBox(h, t0, t1) == h.bbox
  {
    var radians := (PI / 180.0) * angle;
    var sinTheta := m.sin(radians);
    var cosTheta := m.cos(radians);
    var bbox: Option<Aabb> := None;
    match BoundingBox(child, 0.0, 1.0) {
      case None =>
      case Some(box) =>
        var rotated := RotatedBox(box, sinTheta, cosTheta);
        bbox := Some(rotated);
    }
    h := RotateY(child, sinTheta, cosTheta, bbox);
  }

  /** With `sin^2 + cos^2 = 1`, a rotated surface's hit point turned back into the child's frame is the child's hit point. */
  lemma RotateYHit(child: Hittable, s: real, c: real, bbox: Option<Aabb>, r: Ray, tMin: real, tMax: real, m: Math)
    requires WellFormed(child) && s * s + c * c == 1.0
    ensures var res := Hit(RotateY(child, s, c, bbox), r, tMin, tMax, m);
      var inner := Hit(child, RotateRay(r, s, c), tMin, tMax, m);
      && (res.None? <==> inner.None?)
      && (res.Some? ==> RotateIn(res.value.p, s, c) == inner.value.p && RotateIn(res.value.normal, s, c) == inner.value.normal)
      && (res.Some? ==> res.value.t == inner.value.t && res.value.u == inner.value.u && res.value.v == inner.value.v
                        && res.value.mat == inner.value.mat)
  {
    var inner := Hit(child, RotateRay(r, s, c), tMin, tMax, m);
    if inner.Some? {
      RotationsInverse(inner.value.p, s, c);
      RotationsInverse(inner.value.normal, s, c);
    }
  }

  /**
   * Whether a surface has a box does not depend on the shutter interval, so
   * the `bounding_box(0, 0)` the BVH sorts by exists exactly when the one
   * over `[time0, time1]` does.
   */
  lemma {:induction false} BoxExistsAnyTime(h: Hittable, t0: real, t1: real, u0: real, u1: real)
    requires WellFormed(h)
    ensures BoundingBox(h, t0, t1).Some? <==> BoundingBox(h, u0, u1).Some?
    decreases h, 0
  {
    match h
    case FlipNormals(child) => BoxExistsAnyTime(child, t0, t1, u0, u1);
    case Translate(child, _) => BoxExistsAnyTime(child, t0, t1, u0, u1);
    case List(items) =>
      forall i | 0 <= i < |items|
        ensures BoundingBox(items[i], t0, t1).Some? <==> BoundingBox(items[i], u0, u1).Some?
      {
        BoxExistsAnyTime(items[i], t0, t1, u0, u1);
      }
    case _ =>
  }
}
