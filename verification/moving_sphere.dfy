/**
 * `MovingSphere`: a sphere whose centre moves in a straight line from
 * `center0` at `time0` to `center1` at `time1`.  A ray meets it as it meets
 * the sphere standing at the centre of the ray's own time, and its bounding
 * box over a shutter interval surrounds the spheres at the interval's two
 * ends.
 */
module MovingSpheres {
  import opened Intrinsics
  import opened Vectors
  import opened Rays
  import opened Wrappers
  import opened Aabbs
  import opened Materials
  import opened HitRecords
  import opened Spheres

  /** How far along its path the centre is at `time`: 0 at `time0`, 1 at `time1`. */
  function Fraction(time0: real, time1: real, time: real): (f: real)
    requires time1 != time0
    ensures f * (time1 - time0) == time - time0
  {
    (time - time0) / (time1 - time0)
  }

  /** `a + f (b - a)`. */
  function Lerp(a: real, b: real, f: real): real {
    a + f * (b - a)
  }

  /**
   * `center(time)`: `center0 + f * (center1 - center0)` for the fraction `f`
   * of the path at `time`; the centre is `center0` at `time0` and `center1`
   * at `time1`.
   */
  function Center(c0: Vec3, c1: Vec3, time0: real, time1: real, time: real): (c: Vec3)
    requires time1 != time0
    ensures time == time0 ==> c == c0
    ensures time == time1 ==> c == c1
  {
    var f := Fraction(time0, time1, time);
    assert time == time1 ==> f == 1.0 by {
      if time == time1 {
        Reals.CancelFactor(f, time1 - time0, time1 - time0);
      }
    }
    Vec3(Lerp(c0.x, c1.x, f), Lerp(c0.y, c1.y, f), Lerp(c0.z, c1.z, f))
  }

  /** The centre moves by equal steps in equal times. */
  lemma CenterSteps(c0: Vec3, c1: Vec3, time0: real, time1: real, time: real, dt: real)
    requires time1 != time0
    ensures Sub(Center(c0, c1, time0, time1, time + dt), Center(c0, c1, time0, time1, time)) ==
      ScaleLeft(dt / (time1 - time0), Sub(c1, c0))
  {
    var f := Fraction(time0, time1, time);
    var e := dt / (time1 - time0);
    FractionStep(time0, time1, time, dt);
    LerpStep(c0.x, c1.x, f, e);
    LerpStep(c0.y, c1.y, f, e);
    LerpStep(c0.z, c1.z, f, e);
  }

  lemma FractionStep(time0: real, time1: real, time: real, dt: real)
    requires time1 != time0
    ensures Fraction(time0, time1, time + dt) == Fraction(time0, time1, time) + dt / (time1 - time0)
  {
    var k := time1 - time0;
    assert (time + dt - time0) / k == (time - time0) / k + dt / k;
  }

  lemma LerpStep(a: real, b: real, f: real, e: real)
    ensures Lerp(a, b, f + e) - Lerp(a, b, f) == e * (b - a)
  {
  }

  /** `MovingSphere::hit`: the sphere hit at the centre of the ray's time, with `(u, v)` from `get_sphere_uv` of the normal. */
  function MovingSphereHit(c0: Vec3, c1: Vec3, time0: real, time1: real, radius: real, mat: Material,
                           r: Ray, tMin: real, tMax: real, m: Math): (res: Option<HitRecord>)
    requires time1 != time0
    ensures var center := Center(c0, c1, time0, time1, r.time);
      var sphere := SphereHit(center, radius, mat, r, tMin, tMax, m);
      && (res.None? <==> sphere.None?)
      && (res.Some? ==>
            res.value.t == sphere.value.t && res.value.p == sphere.value.p
            && res.value.normal == sphere.value.normal && res.value.mat == mat)
      && (res.Some? ==> var n := res.value.normal; (res.value.u, res.value.v) == m.sphereUv(n.x, n.y, n.z))
  {
    var center := Center(c0, c1, time0, time1, r.time);
    match NearestRoot(Sub(r.origin, center), r.direction, radius, tMin, tMax, m)
    case None => None
    case Some(t) =>
      var p := PointAtParameter(r, t);
      var normal := DivScalar(Sub(p, center), radius);
      var uv := m.sphereUv(normal.x, normal.y, normal.z);
      Some(HitRecord(t, p, normal, uv.0, uv.1, mat))
  }

  /** With an exact square root, a hit lies on the sphere at the ray's time and has a unit normal. */
  lemma MovingSphereHitOnSurface(c0: Vec3, c1: Vec3, time0: real, time1: real, radius: real, mat: Material,
                                 r: Ray, tMin: real, tMax: real, m: Math)
    requires time1 != time0 && ExactSqrt(m)
    ensures var res := MovingSphereHit(c0, c1, time0, time1, radius, mat, r, tMin, tMax, m);
      res.Some? ==>
        && tMin < res.value.t < tMax
        && SquaredLength(Sub(res.value.p, Center(c0, c1, time0, time1, r.time))) == radius * radius
        && SquaredLength(res.value.normal) == 1.0
  {
    SphereHitOnSurface(Center(c0, c1, time0, time1, r.time), radius, mat, r, tMin, tMax, m);
  }

  /** `MovingSphere::bounding_box`: the box around the spheres at the two shutter times. */
  function MovingBox(c0: Vec3, c1: Vec3, time0: real, time1: real, radius: real, t0: real, t1: real): (b: Aabb)
    requires time1 != time0
    ensures Encloses(b, RadiusBox(Center(c0, c1, time0, time1, t0), radius))
    ensures Encloses(b, RadiusBox(Center(c0, c1, time0, time1, t1), radius))
  {
    SurroundingBox(RadiusBox(Center(c0, c1, time0, time1, t0), radius),
                   RadiusBox(Center(c0, c1, time0, time1, t1), radius))
  }

  /** `x` lies between `a` and `b`, in either order. */
  predicate Between(a: real, x: real, b: real) {
    a <= x <= b || b <= x <= a
  }

  /** Scaling keeps a value between the scaled ends. */
  lemma ScaleBetween(a: real, x: real, b: real, k: real)
    requires Between(a, x, b)
    ensures Between(a * k, x * k, b * k)
  {
    var lo, hi := if a <= b then a else b, if a <= b then b else a;
    if k >= 0.0 {
      Reals.NonNegativeProduct(x - lo, k);
      Reals.NonNegativeProduct(hi - x, k);
    } else {
      Reals.NonNegativeProduct(x - lo, -k);
      Reals.NonNegativeProduct(hi - x, -k);
    }
  }

  /** Interpolation keeps a fraction between two others between their images. */
  lemma LerpBetween(a: real, b: real, f0: real, f: real, f1: real)
    requires Between(f0, f, f1)
    ensures Between(Lerp(a, b, f0), Lerp(a, b, f), Lerp(a, b, f1))
  {
    ScaleBetween(f0, f, f1, b - a);
  }

  /** The fraction of the path grows or shrinks with time, so it keeps `time` between the shutter times. */
  lemma FractionBetween(time0: real, time1: real, t0: real, time: real, t1: real)
    requires time1 != time0 && Between(t0, time, t1)
    ensures Between(Fraction(time0, time1, t0), Fraction(time0, time1, time), Fraction(time0, time1, t1))
  {
    var k := time1 - time0;
    ScaleBetween(t0 - time0, time - time0, t1 - time0, 1.0 / k);
    assert (t0 - time0) / k == (t0 - time0) * (1.0 / k);
    assert (time - time0) / k == (time - time0) * (1.0 / k);
    assert (t1 - time0) / k == (t1 - time0) * (1.0 / k);
  }

  /** Between the two shutter times the centre lies, axis by axis, between the two end centres. */
  lemma CenterBetween(c0: Vec3, c1: Vec3, time0: real, time1: real, t0: real, time: real, t1: real)
    requires time1 != time0 && Between(t0, time, t1)
    ensures var a := Center(c0, c1, time0, time1, t0);
      var c := Center(c0, c1, time0, time1, time);
      var b := Center(c0, c1, time0, time1, t1);
      Between(a.x, c.x, b.x) && Between(a.y, c.y, b.y) && Between(a.z, c.z, b.z)
  {
    FractionBetween(time0, time1, t0, time, t1);
    var f0, f, f1 := Fraction(time0, time1, t0), Fraction(time0, time1, time), Fraction(time0, time1, t1);
    LerpBetween(c0.x, c1.x, f0, f, f1);
    LerpBetween(c0.y, c1.y, f0, f, f1);
    LerpBetween(c0.z, c1.z, f0, f, f1);
  }

  /** The box encloses the sphere at every time between the two shutter times. */
  lemma MovingBoxEnclosesPath(c0: Vec3, c1: Vec3, time0: real, time1: real, radius: real, t0: real, time: real, t1: real)
    requires time1 != time0 && Between(t0, time, t1)
    ensures Encloses(MovingBox(c0, c1, time0, time1, radius, t0, t1), RadiusBox(Center(c0, c1, time0, time1, time), radius))
  {
    CenterBetween(c0, c1, time0, time1, t0, time, t1);
  }

  /** For a ray whose time lies between the shutter times, every hit point lies in the box. */
  lemma MovingBoxContainsHits(c0: Vec3, c1: Vec3, time0: real, time1: real, radius: real, mat: Material,
                              r: Ray, tMin: real, tMax: real, m: Math, t0: real, t1: real)
    requires time1 != time0 && ExactSqrt(m) && radius >= 0.0 && Between(t0, r.time, t1)
    ensures var res := MovingSphereHit(c0, c1, time0, time1, radius, mat, r, tMin, tMax, m);
      res.Some? ==> Contains(MovingBox(c0, c1, time0, time1, radius, t0, t1), res.value.p)
  {
    var res := MovingSphereHit(c0, c1, time0, time1, radius, mat, r, tMin, tMax, m);
    if res.Some? {
      var center := Center(c0, c1, time0, time1, r.time);
      SphereBoxContainsHits(center, radius, mat, r, tMin, tMax, m);
      MovingBoxEnclosesPath(c0, c1, time0, time1, radius, t0, r.time, t1);
      EnclosesContains(MovingBox(c0, c1, time0, time1, radius, t0, t1), RadiusBox(center, radius), res.value.p);
    }
  }
}
