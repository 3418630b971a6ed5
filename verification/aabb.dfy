/**
 * `AABB`, the axis-aligned bounding box, with the slab test `hit` and
 * `surrounding_box`.
 *
 * The slab test divides by each direction component.  For a non-zero
 * component this is ordinary division.  For a zero component the source
 * divides by zero and relies on IEEE infinities and on `f32::max`/`f32::min`
 * ignoring a NaN operand: the axis then leaves `[tmin, tmax]` unchanged when
 * the origin lies between the two faces (inclusive) and otherwise makes the
 * test fail.  `Slab` states that outcome directly.
 */
module Aabbs {
  import opened Reals
  import opened Vectors
  import opened Rays
  import opened Wrappers

  datatype Aabb = Aabb(min: Vec3, max: Vec3)

  /** `f32::min` and `f32::max` on non-NaN operands. */
  function Min(a: real, b: real): real { if a <= b then a else b }
  function Max(a: real, b: real): real { if a >= b then a else b }

  /** `outer` contains `inner`, face by face. */
  predicate Encloses(outer: Aabb, inner: Aabb) {
    && outer.min.x <= inner.min.x && outer.min.y <= inner.min.y && outer.min.z <= inner.min.z
    && inner.max.x <= outer.max.x && inner.max.y <= outer.max.y && inner.max.z <= outer.max.z
  }

  /** The point lies in the closed box. */
  predicate Contains(b: Aabb, p: Vec3) {
    && b.min.x <= p.x <= b.max.x
    && b.min.y <= p.y <= b.max.y
    && b.min.z <= p.z <= b.max.z
  }

  /** `surrounding_box`: the smallest box that contains both boxes. */
  function SurroundingBox(box0: Aabb, box1: Aabb): (r: Aabb)
    ensures Encloses(r, box0) && Encloses(r, box1)
    ensures forall c :: Encloses(c, box0) && Encloses(c, box1) ==> Encloses(c, r)
  {
    Aabb(Vec3(Min(box0.min.x, box1.min.x), Min(box0.min.y, box1.min.y), Min(box0.min.z, box1.min.z)),
         Vec3(Max(box0.max.x, box1.max.x), Max(box0.max.y, box1.max.y), Max(box0.max.z, box1.max.z)))
  }

  lemma SurroundingBoxLaws(a: Aabb, b: Aabb, c: Aabb)
    ensures SurroundingBox(a, b) == SurroundingBox(b, a)
    ensures SurroundingBox(a, SurroundingBox(b, c)) == SurroundingBox(SurroundingBox(a, b), c)
    ensures SurroundingBox(a, a) == a
  {
  }

  lemma EnclosesContains(outer: Aabb, inner: Aabb, p: Vec3)
    requires Encloses(outer, inner) && Contains(inner, p)
    ensures Contains(outer, p)
  {
  }

  // ---------------------------------------------------------------------
  // The slab test

  /** The parameter at which a ray from `o` with inverse direction `invd` meets the face at `m`. */
  function Crossing(m: real, o: real, invd: real): real { (m - o) * invd }

  /**
   * One iteration of the loop in `hit` on a single axis, given the two faces
   * `lo` and `hi` of the box, the origin `o` and the direction `d` along that
   * axis: the interval `[tmin, tmax]` narrowed to the slab, or `None` when a
   * zero direction leaves the origin outside the slab.
   */
  function SlabStep(lo: real, hi: real, o: real, d: real, tmin: real, tmax: real): Option<(real, real)>
  {
    if d == 0.0 then
      if lo <= o <= hi then Some((tmin, tmax)) else None
    else
      var invd := 1.0 / d;
      var (m0, m1) := if invd >= 0.0 then (lo, hi) else (hi, lo);
      Some((Max(Crossing(m0, o, invd), tmin), Min(Crossing(m1, o, invd), tmax)))
  }

  /** The point `o + d * t` lies strictly between the faces, or, if `d` is zero, `o` lies between them or on one. */
  predicate SlabAdmits(lo: real, hi: real, o: real, d: real, t: real) {
    if d == 0.0 then lo <= o <= hi else lo < o + d * t < hi
  }

  /** The meaning of one slab step: it keeps exactly the parameters the slab admits. */
  lemma SlabStepExact(lo: real, hi: real, o: real, d: real, tmin: real, tmax: real, t: real)
    ensures SlabStep(lo, hi, o, d, tmin, tmax).None? ==> !SlabAdmits(lo, hi, o, d, t)
    ensures SlabStep(lo, hi, o, d, tmin, tmax).Some? ==>
      var (a, b) := SlabStep(lo, hi, o, d, tmin, tmax).value;
      (tmin < t < tmax && SlabAdmits(lo, hi, o, d, t)) <==> a < t < b
  {
    if d != 0.0 {
      ScaledCompare(lo - o, d, t);
      ScaledCompare(hi - o, d, t);
    }
  }

  function Slab(b: Aabb, r: Ray, i: nat, tmin: real, tmax: real): Option<(real, real)>
    requires i < 3
  {
    SlabStep(b.min.Index(i), b.max.Index(i), r.origin.Index(i), r.direction.Index(i), tmin, tmax)
  }

  /** The loop of `hit` from axis `i` on, with the interval reached so far. */
  function HitFrom(b: Aabb, r: Ray, i: nat, tmin: real, tmax: real): bool
    requires i <= 3
    decreases 3 - i
  {
    if i == 3 then true
    else match Slab(b, r, i, tmin, tmax)
      case None => false
      case Some((lo, hi)) => if hi <= lo then false else HitFrom(b, r, i + 1, lo, hi)
  }

  /**
   * The point of `r` at parameter `t` lies strictly between the faces of axis
   * `i` when the ray moves along that axis; when it does not, the origin lies
   * between them or on one of them.
   */
  predicate AxisAdmits(b: Aabb, r: Ray, i: nat, t: real)
    requires i < 3
  {
    SlabAdmits(b.min.Index(i), b.max.Index(i), r.origin.Index(i), r.direction.Index(i), t)
  }

  lemma AxisAdmitsPoint(b: Aabb, r: Ray, i: nat, t: real)
    requires i < 3
    ensures r.direction.Index(i) != 0.0 ==>
      (AxisAdmits(b, r, i, t) <==> b.min.Index(i) < PointAtParameter(r, t).Index(i) < b.max.Index(i))
  {
  }

  predicate AdmitsFrom(b: Aabb, r: Ray, i: nat, t: real)
    requires i <= 3
  {
    forall j :: i <= j < 3 ==> AxisAdmits(b, r, j, t)
  }

  lemma SlabExact(b: Aabb, r: Ray, i: nat, tmin: real, tmax: real, t: real)
    requires i < 3
    ensures Slab(b, r, i, tmin, tmax).None? ==> !AxisAdmits(b, r, i, t)
    ensures Slab(b, r, i, tmin, tmax).Some? ==>
      var (lo, hi) := Slab(b, r, i, tmin, tmax).value;
      (tmin < t < tmax && AxisAdmits(b, r, i, t)) <==> lo < t < hi
  {
    SlabStepExact(b.min.Index(i), b.max.Index(i), r.origin.Index(i), r.direction.Index(i), tmin, tmax, t);
  }

  /**
   * From axis `i` on, the loop answers true exactly when some parameter
   * strictly inside the current interval is admitted by every remaining axis.
   */
  lemma {:induction false} HitFromExact(b: Aabb, r: Ray, i: nat, tmin: real, tmax: real)
    requires i <= 3
    requires i < 3 || tmin < tmax
    ensures HitFrom(b, r, i, tmin, tmax) <==> exists t :: tmin < t < tmax && AdmitsFrom(b, r, i, t)
    decreases 3 - i
  {
    if i == 3 {
      var t := (tmin + tmax) / 2.0;
      assert tmin < t < tmax && AdmitsFrom(b, r, i, t);
    } else {
      match Slab(b, r, i, tmin, tmax)
      case None =>
        forall t | tmin < t < tmax
          ensures !AdmitsFrom(b, r, i, t)
        {
          SlabExact(b, r, i, tmin, tmax, t);
        }
      case Some((lo, hi)) =>
        if hi <= lo {
          forall t | tmin < t < tmax
            ensures !AdmitsFrom(b, r, i, t)
          {
            SlabExact(b, r, i, tmin, tmax, t);
          }
        } else {
          HitFromExact(b, r, i + 1, lo, hi);
          if HitFrom(b, r, i, tmin, tmax) {
            var t :| lo < t < hi && AdmitsFrom(b, r, i + 1, t);
            SlabExact(b, r, i, tmin, tmax, t);
            assert tmin < t < tmax && AdmitsFrom(b, r, i, t);
          } else {
            forall t | tmin < t < tmax
              ensures !AdmitsFrom(b, r, i, t)
            {
              SlabExact(b, r, i, tmin, tmax, t);
              if AdmitsFrom(b, r, i, t) {
                assert AxisAdmits(b, r, i, t);
                assert lo < t < hi && AdmitsFrom(b, r, i + 1, t);
                assert false;
              }
            }
          }
        }
    }
  }

  /**
   * `AABB::hit`: the slab test, axis by axis, returning as soon as the
   * interval is empty.
   */
  method Hit(b: Aabb, r: Ray, tmin: real, tmax: real) returns (hit: bool)
    ensures hit == HitFrom(b, r, 0, tmin, tmax)
  {
    var lo, hi := tmin, tmax;
    for i := 0 to 3
      invariant i == 0 || lo < hi
      invariant HitFrom(b, r, 0, tmin, tmax) == HitFrom(b, r, i, lo, hi)
    {
      ghost var step := Slab(b, r, i, lo, hi);
      var d := r.direction.Index(i);
      var o := r.origin.Index(i);
      var mn, mx := b.min.Index(i), b.max.Index(i);
      assert step == SlabStep(mn, mx, o, d, lo, hi);
      if d == 0.0 {
        // 1 / 0 is an infinity: the slab spans every parameter or none.
        if !(mn <= o <= mx) {
          assert step == None;
          return false;
        }
        assert step == Some((lo, hi));
      } else {
        var invd := 1.0 / d;
        var (m0, m1) := if invd >= 0.0 then (mn, mx) else (mx, mn);
        var t0 := Crossing(m0, o, invd);
        var t1 := Crossing(m1, o, invd);
        lo := Max(t0, lo);
        hi := Min(t1, hi);
        assert step == Some((lo, hi));
      }
      if hi <= lo {
        return false;
      }
    }
    return true;
  }

  /**
   * What the slab test decides: `hit` is true exactly when some parameter
   * strictly between `tmin` and `tmax` puts the ray inside the box on every
   * axis (strictly inside along each axis the ray moves on).
   */
  lemma HitMeaning(b: Aabb, r: Ray, tmin: real, tmax: real)
    ensures HitFrom(b, r, 0, tmin, tmax) <==> exists t :: tmin < t < tmax && AdmitsFrom(b, r, 0, t)
  {
    HitFromExact(b, r, 0, tmin, tmax);
  }
  /** With the faces in order and a moving ray, the slab is entered no later than it is left. */
  lemma SlabEntryBeforeExit(lo: real, hi: real, o: real, d: real)
    requires lo <= hi && d != 0.0
    ensures var invd := 1.0 / d;
      var (m0, m1) := if invd >= 0.0 then (lo, hi) else (hi, lo);
      Crossing(m0, o, invd) <= Crossing(m1, o, invd)
  {
    var invd := 1.0 / d;
    assert Crossing(hi, o, invd) - Crossing(lo, o, invd) == (hi - lo) * invd;
    if invd >= 0.0 {
      Reals.NonNegativeProduct(hi - lo, invd);
    } else {
      Reals.NonNegativeProduct(hi - lo, -invd);
    }
  }

  /** An empty interval is a miss, already decided on the first axis. */
  lemma EmptyIntervalMisses(b: Aabb, r: Ray, tmin: real, tmax: real)
    requires tmax <= tmin
    ensures Slab(b, r, 0, tmin, tmax).None? || Slab(b, r, 0, tmin, tmax).value.1 <= Slab(b, r, 0, tmin, tmax).value.0
    ensures !HitFrom(b, r, 0, tmin, tmax)
  {
  }

  /** A ray starting strictly inside the box hits it when the interval spans the parameter zero. */
  lemma {:induction false} InsideOriginHits(b: Aabb, r: Ray, tmin: real, tmax: real)
    requires b.min.x < r.origin.x < b.max.x
    requires b.min.y < r.origin.y < b.max.y
    requires b.min.z < r.origin.z < b.max.z
    requires tmin < 0.0 < tmax
    ensures HitFrom(b, r, 0, tmin, tmax)
  {
    forall j | 0 <= j < 3
      ensures AxisAdmits(b, r, j, 0.0)
    {
      assert r.origin.Index(j) + r.direction.Index(j) * 0.0 == r.origin.Index(j);
    }
    assert AdmitsFrom(b, r, 0, 0.0);
    HitMeaning(b, r, tmin, tmax);
  }
}
