/**
 * `Sphere`: the ray-sphere intersection, shared with the moving sphere,
 * and the sphere's bounding box.
 *
 * With `oc = origin - center`, the ray meets the sphere where
 * `a t^2 + 2 b t + c = 0` for `a = |d|^2`, `b = oc . d` and
 * `c = oc . oc - radius^2`.  The hit takes the smaller root when it lies in
 * the open interval `(t_min, t_max)`, and the larger one otherwise.
 */
module Spheres {
  import opened Intrinsics
  import opened Reals
  import opened Vectors
  import opened Rays
  import opened Wrappers
  import opened Aabbs
  import opened Materials
  import opened HitRecords

  /** `b * b - a * c` of the intersection quadratic. */
  function Discriminant(oc: Vec3, d: Vec3, radius: real): real {
    Dot(oc, d) * Dot(oc, d) - SquaredLength(d) * (Dot(oc, oc) - radius * radius)
  }

  /**
   * A positive discriminant rules out both divisions by zero: by
   * Cauchy-Schwarz it is at most `a * radius^2`, so neither the direction
   * nor the radius can be zero.
   */
  lemma DiscriminantPositiveDivisors(oc: Vec3, d: Vec3, radius: real)
    requires Discriminant(oc, d, radius) > 0.0
    ensures SquaredLength(d) != 0.0 && radius != 0.0
  {
    if SquaredLength(d) == 0.0 {
      SquaredLengthNonNegative(d);
      ZeroDirectionDiscriminant(oc, radius);
    }
    if radius == 0.0 {
      ZeroRadiusDiscriminant(oc, d);
    }
  }

  lemma ZeroDirectionDiscriminant(oc: Vec3, radius: real)
    ensures Discriminant(oc, Zero, radius) == 0.0
  {
  }

  lemma ZeroRadiusDiscriminant(oc: Vec3, d: Vec3)
    ensures Discriminant(oc, d, 0.0) <= 0.0
  {
    CauchySchwarz(oc, d);
    SquaredLengthIsDotSelf(d);
    assert Discriminant(oc, d, 0.0) == Dot(oc, d) * Dot(oc, d) - Dot(d, d) * Dot(oc, oc);
  }

  /** The nearer intersection `(-b - sqrt(disc)) / a`. */
  function SmallerRoot(oc: Vec3, d: Vec3, radius: real, m: Math): real
    requires Discriminant(oc, d, radius) > 0.0
  {
    DiscriminantPositiveDivisors(oc, d, radius);
    (-Dot(oc, d) - m.sqrt(Discriminant(oc, d, radius))) / SquaredLength(d)
  }

  /** The farther intersection `(-b + sqrt(disc)) / a`. */
  function LargerRoot(oc: Vec3, d: Vec3, radius: real, m: Math): real
    requires Discriminant(oc, d, radius) > 0.0
  {
    DiscriminantPositiveDivisors(oc, d, radius);
    (-Dot(oc, d) + m.sqrt(Discriminant(oc, d, radius))) / SquaredLength(d)
  }

  /** The root the hit reports: the smaller root if it lies strictly between the bounds, else the larger one if it does. */
  function NearestRoot(oc: Vec3, d: Vec3, radius: real, tMin: real, tMax: real, m: Math): (t: Option<real>)
    ensures t.Some? ==> tMin < t.value < tMax
    ensures t.Some? ==> Discriminant(oc, d, radius) > 0.0 && SquaredLength(d) != 0.0 && radius != 0.0
  {
    if Discriminant(oc, d, radius) > 0.0 then
      DiscriminantPositiveDivisors(oc, d, radius);
      var near := SmallerRoot(oc, d, radius, m);
      if near < tMax && near > tMin then Some(near)
      else
        var far := LargerRoot(oc, d, radius, m);
        if far < tMax && far > tMin then Some(far) else None
    else
      None
  }

  /**
   * No hit without a positive discriminant; the smaller root wins whenever
   * it is in range, even when the larger one is too; the larger root is
   * reported only when the smaller one is out of range.
   */
  lemma RootPreference(oc: Vec3, d: Vec3, radius: real, tMin: real, tMax: real, m: Math)
    ensures Discriminant(oc, d, radius) <= 0.0 ==> NearestRoot(oc, d, radius, tMin, tMax, m).None?
    ensures Discriminant(oc, d, radius) > 0.0 && tMin < SmallerRoot(oc, d, radius, m) < tMax ==>
      NearestRoot(oc, d, radius, tMin, tMax, m) == Some(SmallerRoot(oc, d, radius, m))
    ensures var t := NearestRoot(oc, d, radius, tMin, tMax, m);
      t.Some? && t.value != SmallerRoot(oc, d, radius, m) ==>
        t.value == LargerRoot(oc, d, radius, m) && !(tMin < SmallerRoot(oc, d, radius, m) < tMax)
    ensures Discriminant(oc, d, radius) > 0.0 ==>
      (NearestRoot(oc, d, radius, tMin, tMax, m).None? <==>
        !(tMin < SmallerRoot(oc, d, radius, m) < tMax) && !(tMin < LargerRoot(oc, d, radius, m) < tMax))
  {
  }

  /** A root of `a t^2 + 2 b t + c` for `a != 0`, given `t a = -b +- s` with `s^2 = b^2 - a c`. */
  lemma QuadraticRoot(a: real, b: real, c: real, s: real, t: real)
    requires a != 0.0 && s * s == b * b - a * c
    requires t * a == -b - s || t * a == -b + s
    ensures a * t * t + 2.0 * b * t + c == 0.0
  {
    var u := t * a;
    var e := a * t * t + 2.0 * b * t + c;
    assert a * e == u * u + 2.0 * b * u + a * c;
    assert (u + b) * (u + b) == s * s;
    assert a * e == 0.0;
    FactorZero(a, e);
  }

  lemma QuotientTimesDivisor(n: real, a: real)
    requires a != 0.0
    ensures (n / a) * a == n
  {
  }

  lemma FactorZero(a: real, e: real)
    requires a != 0.0 && a * e == 0.0
    ensures e == 0.0
  {
    assert e == (a * e) / a;
  }

  /** `|oc + t d|^2 = |oc|^2 + 2 t (oc . d) + t^2 |d|^2`. */
  lemma ExpandSquaredLength(oc: Vec3, d: Vec3, t: real)
    ensures SquaredLength(Add(oc, Scale(d, t))) == Dot(oc, oc) + 2.0 * Dot(oc, d) * t + SquaredLength(d) * t * t
  {
  }

  /** With an exact square root, both roots lie on the sphere: `|oc + t d|^2 = radius^2`. */
  lemma RootOnSphere(oc: Vec3, d: Vec3, radius: real, t: real, m: Math)
    requires ExactSqrt(m) && Discriminant(oc, d, radius) > 0.0
    requires t == SmallerRoot(oc, d, radius, m) || t == LargerRoot(oc, d, radius, m)
    ensures SquaredLength(Add(oc, Scale(d, t))) == radius * radius
  {
    var s := RootTimesDivisor(oc, d, radius, t, m);
    OnSphereFromRoot(oc, d, radius, s, t);
  }

  /** A `t` with `t a = -b -+ s` and `s^2 = b^2 - a c` puts `oc + t d` on the sphere. */
  lemma OnSphereFromRoot(oc: Vec3, d: Vec3, radius: real, s: real, t: real)
    requires SquaredLength(d) != 0.0
    requires s * s == Dot(oc, d) * Dot(oc, d) - SquaredLength(d) * (Dot(oc, oc) - radius * radius)
    requires t * SquaredLength(d) == -Dot(oc, d) - s || t * SquaredLength(d) == -Dot(oc, d) + s
    ensures SquaredLength(Add(oc, Scale(d, t))) == radius * radius
  {
    RootOfQuadratic(SquaredLength(d), Dot(oc, d), Dot(oc, oc), radius * radius, s, t);
    ExpandSquaredLength(oc, d, t);
  }

  /** A root times `a` is `-b -+ s`, where `s` is the exact square root of the discriminant. */
  lemma RootTimesDivisor(oc: Vec3, d: Vec3, radius: real, t: real, m: Math) returns (s: real)
    requires ExactSqrt(m) && Discriminant(oc, d, radius) > 0.0
    requires t == SmallerRoot(oc, d, radius, m) || t == LargerRoot(oc, d, radius, m)
    ensures SquaredLength(d) != 0.0
    ensures s * s == Dot(oc, d) * Dot(oc, d) - SquaredLength(d) * (Dot(oc, oc) - radius * radius)
    ensures t * SquaredLength(d) == -Dot(oc, d) - s || t * SquaredLength(d) == -Dot(oc, d) + s
  {
    DiscriminantPositiveDivisors(oc, d, radius);
    s := m.sqrt(Discriminant(oc, d, radius));
    SqrtSquare(m, Discriminant(oc, d, radius));
    if t == SmallerRoot(oc, d, radius, m) {
      QuotientTimesDivisor(-Dot(oc, d) - s, SquaredLength(d));
    } else {
      QuotientTimesDivisor(-Dot(oc, d) + s, SquaredLength(d));
    }
  }

  /** A root `t` of `a t^2 + 2 b t + (e - r2)` satisfies `e + 2 b t + a t^2 = r2`. */
  lemma RootOfQuadratic(a: real, b: real, e: real, r2: real, s: real, t: real)
    requires a != 0.0 && s * s == b * b - a * (e - r2)
    requires t * a == -b - s || t * a == -b + s
    ensures e + 2.0 * b * t + a * t * t == r2
  {
    QuadraticRoot(a, b, e - r2, s, t);
  }

  /** With an exact square root, the smaller root is no larger than the larger one. */
  lemma RootsOrdered(oc: Vec3, d: Vec3, radius: real, m: Math)
    requires ExactSqrt(m) && Discriminant(oc, d, radius) > 0.0
    ensures SmallerRoot(oc, d, radius, m) <= LargerRoot(oc, d, radius, m)
  {
    DiscriminantPositiveDivisors(oc, d, radius);
    var a := SquaredLength(d);
    var b := Dot(oc, d);
    var s := m.sqrt(Discriminant(oc, d, radius));
    SquaredLengthNonNegative(d);
    assert a > 0.0;
    assert s >= 0.0;
    ScaledCompare(-b - s, a, (-b + s) / a);
    assert (-b + s) / a == (-b + s) * (1.0 / a);
    assert (-b - s) / a == (-b - s) * (1.0 / a);
    if (-b + s) / a < (-b - s) / a {
      ScaledCompare(-b + s, a, (-b - s) / a);
      assert a * ((-b - s) / a) == -b - s;
    }
  }

  /** The record of a hit at parameter `t` on a sphere of the given centre. */
  function SurfaceHit(center: Vec3, radius: real, r: Ray, t: real): (p: Vec3)
    ensures Sub(p, center) == Add(Sub(r.origin, center), Scale(r.direction, t))
  {
    PointAtParameter(r, t)
  }

  /** `Sphere::hit`. */
  function SphereHit(center: Vec3, radius: real, mat: Material, r: Ray, tMin: real, tMax: real, m: Math): (res: Option<HitRecord>)
    ensures res.Some? ==> tMin < res.value.t < tMax && radius != 0.0
    ensures res.Some? ==> NearestRoot(Sub(r.origin, center), r.direction, radius, tMin, tMax, m) == Some(res.value.t)
    ensures res.Some? ==> res.value.p == PointAtParameter(r, res.value.t) && res.value.mat == mat
    ensures res.Some? ==> Scale(res.value.normal, radius) == Sub(res.value.p, center)
    ensures res.None? <==> NearestRoot(Sub(r.origin, center), r.direction, radius, tMin, tMax, m).None?
  {
    match NearestRoot(Sub(r.origin, center), r.direction, radius, tMin, tMax, m)
    case None => None
    case Some(t) =>
      var p := SurfaceHit(center, radius, r, t);
      Some(HitRecord(t, p, DivScalar(Sub(p, center), radius), 0.0, 0.0, mat))
  }

  /** With an exact square root, a sphere's hit point lies on the sphere and its normal has length one. */
  lemma SphereHitOnSurface(center: Vec3, radius: real, mat: Material, r: Ray, tMin: real, tMax: real, m: Math)
    requires ExactSqrt(m)
    ensures var res := SphereHit(center, radius, mat, r, tMin, tMax, m);
      res.Some? ==> SquaredLength(Sub(res.value.p, center)) == radius * radius && SquaredLength(res.value.normal) == 1.0
  {
    var res := SphereHit(center, radius, mat, r, tMin, tMax, m);
    if res.Some? {
      var oc := Sub(r.origin, center);
      RootPreference(oc, r.direction, radius, tMin, tMax, m);
      RootOnSphere(oc, r.direction, radius, res.value.t, m);
      var q := Sub(res.value.p, center);
      DivScalarSquaredLength(q, radius);
      SqPositive(radius);
      CancelFactor(SquaredLength(res.value.normal), Sq(radius), SquaredLength(q));
    }
  }

  /**
   * The box `center -+ (radius, radius, radius)`: centred on `center`, with
   * `radius` from the centre to each face.  For a negative radius its
   * corners are swapped (see `NegativeRadiusBoxNeverHit`).
   */
  function RadiusBox(center: Vec3, radius: real): (b: Aabb)
    ensures Sub(center, b.min) == Vec3(radius, radius, radius)
    ensures Sub(b.max, center) == Vec3(radius, radius, radius)
    ensures Sub(b.max, b.min) == Vec3(2.0 * radius, 2.0 * radius, 2.0 * radius)
  {
    var extent := Vec3(radius, radius, radius);
    Aabb(Sub(center, extent), Add(center, extent))
  }

  /** A square no larger than `r^2` has a root within `[-r, r]`. */
  lemma SquareBound(x: real, r: real)
    requires r >= 0.0 && x * x <= r * r
    ensures -r <= x <= r
  {
    assert Product(x - r, x + r) == x * x - r * r;
    if x > r {
      ProductPositive(x - r, x + r);
    }
    if x < -r {
      ProductOfNegatives(x - r, x + r);
    }
  }

  /** A point at distance `radius >= 0` from the centre lies in the sphere's box. */
  lemma RadiusBoxContainsSurface(center: Vec3, radius: real, p: Vec3)
    requires radius >= 0.0 && SquaredLength(Sub(p, center)) == radius * radius
    ensures Contains(RadiusBox(center, radius), p)
  {
    var q := Sub(p, center);
    SqNonNegative(q.x);
    SqNonNegative(q.y);
    SqNonNegative(q.z);
    SquareBound(q.x, radius);
    SquareBound(q.y, radius);
    SquareBound(q.z, radius);
  }

  /** `Sphere::bounding_box`: whatever the shutter times, every hit point of a sphere of non-negative radius lies in it. */
  lemma SphereBoxContainsHits(center: Vec3, radius: real, mat: Material, r: Ray, tMin: real, tMax: real, m: Math)
    requires ExactSqrt(m) && radius >= 0.0
    ensures var res := SphereHit(center, radius, mat, r, tMin, tMax, m);
      res.Some? ==> Contains(RadiusBox(center, radius), res.value.p)
  {
    var res := SphereHit(center, radius, mat, r, tMin, tMax, m);
    if res.Some? {
      SphereHitOnSurface(center, radius, mat, r, tMin, tMax, m);
      RadiusBoxContainsSurface(center, radius, res.value.p);
    }
  }

  /**
   * With a negative radius the box is inside out, `min` above `max` on every
   * axis, and the slab test rejects every ray over every interval, although
   * the sphere itself is still hit.
   */
  lemma NegativeRadiusBoxNeverHit(center: Vec3, radius: real, r: Ray, tMin: real, tMax: real)
    requires radius < 0.0
    ensures !HitFrom(RadiusBox(center, radius), r, 0, tMin, tMax)
  {
    var b := RadiusBox(center, radius);
    HitMeaning(b, r, tMin, tMax);
    forall t | tMin < t < tMax
      ensures !AdmitsFrom(b, r, 0, t)
    {
      assert !AxisAdmits(b, r, 0, t);
    }
  }
}
