/**
 * `Material` and the optics its scattering rules are built from: mirror
 * reflection, Snell refraction, Schlick's reflectance approximation, the
 * rejection sampler for a random point in the unit ball, and the light a
 * material emits.
 *
 * The random numbers the sampler draws are a parameter: a finite sequence of
 * the uniform triples the source would draw, in order.
 */
module Materials {
  import opened Intrinsics
  import opened Reals
  import opened Vectors
  import opened Wrappers
  import Perlin
  import opened Textures

  datatype Material =
    | Glass(refIdx: real)
    | Diffuse(albedo: Texture)
    | Light(emit: Texture)
    | Metal(tint: Vec3, fuzz: real)

  // ---------------------------------------------------------------------
  // random_in_unit_sphere

  /** The candidate point `2 v - (1, 1, 1)` for one uniform triple `v`. */
  function Candidate(v: Vec3): Vec3 {
    Sub(ScaleLeft(2.0, v), Ones)
  }

  predicate InUnitBall(p: Vec3) {
    SquaredLength(p) < 1.0
  }

  /**
   * The point the rejection loop settles on when it draws `draws` in order:
   * the first candidate inside the unit ball, or `None` when none of these
   * draws gives one (the source would go on drawing).
   */
  function FirstInside(draws: seq<Vec3>): (r: Option<Vec3>)
    ensures r.Some? ==> InUnitBall(r.value)
    ensures r.Some? ==> exists k :: 0 <= k < |draws| && r.value == Candidate(draws[k])
  {
    if |draws| == 0 then None
    else if InUnitBall(Candidate(draws[0])) then Some(Candidate(draws[0]))
    else
      var rest := FirstInside(draws[1..]);
      assert rest.Some? ==> exists k :: 0 <= k < |draws| && rest.value == Candidate(draws[k]) by {
        if rest.Some? {
          var k :| 0 <= k < |draws[1..]| && rest.value == Candidate(draws[1..][k]);
          assert rest.value == Candidate(draws[k + 1]);
        }
      }
      rest
  }

  /** Some draw lands inside the ball exactly when the loop settles, and then it settles on the first such draw. */
  lemma {:induction false} FirstInsideIsFirst(draws: seq<Vec3>)
    ensures FirstInside(draws).Some? <==> exists k :: 0 <= k < |draws| && InUnitBall(Candidate(draws[k]))
    ensures FirstInside(draws).Some? ==>
      exists k :: 0 <= k < |draws| && FirstInside(draws).value == Candidate(draws[k])
        && forall i :: 0 <= i < k ==> !InUnitBall(Candidate(draws[i]))
  {
    if |draws| > 0 && !InUnitBall(Candidate(draws[0])) {
      var rest := draws[1..];
      FirstInsideIsFirst(rest);
      if exists k :: 0 <= k < |draws| && InUnitBall(Candidate(draws[k])) {
        var k :| 0 <= k < |draws| && InUnitBall(Candidate(draws[k]));
        assert k > 0 && InUnitBall(Candidate(rest[k - 1]));
      }
      if FirstInside(rest).Some? {
        var k :| 0 <= k < |rest| && FirstInside(rest).value == Candidate(rest[k])
          && forall i :: 0 <= i < k ==> !InUnitBall(Candidate(rest[i]));
        assert FirstInside(draws).value == Candidate(draws[k + 1]);
        forall i | 0 <= i < k + 1
          ensures !InUnitBall(Candidate(draws[i]))
        {
          if i > 0 { assert draws[i] == rest[i - 1]; }
        }
        assert InUnitBall(Candidate(rest[k]));
      }
    }
  }

  /**
   * `random_in_unit_sphere`: starting from `(1, 1, 1)`, which lies outside
   * the ball, it replaces the point by the next candidate until one lies
   * inside.  Running out of draws gives `None`.
   */
  method RandomInUnitSphere(draws: seq<Vec3>) returns (r: Option<Vec3>)
    ensures r == FirstInside(draws)
  {
    var p := Ones;
    var i := 0;
    while SquaredLength(p) >= 1.0
      invariant 0 <= i <= |draws|
      invariant FirstInside(draws) == if SquaredLength(p) < 1.0 then Some(p) else FirstInside(draws[i..])
      decreases |draws| - i
    {
      if i == |draws| {
        return None;
      }
      assert draws[i..][1..] == draws[i + 1..];
      p := Candidate(draws[i]);
      i := i + 1;
    }
    r := Some(p);
  }

  // ---------------------------------------------------------------------
  // reflect, refract, schlick

  /** `reflect`: `v - 2 (v . n) n`. */
  function Reflect(v: Vec3, n: Vec3): Vec3 {
    Sub(v, ScaleLeft(2.0 * Dot(v, n), n))
  }

  /**
   * Against a unit normal, reflection flips the component along the normal,
   * keeps the length, and reflecting twice gives back the original vector.
   */
  lemma ReflectMirrors(v: Vec3, n: Vec3)
    requires SquaredLength(n) == 1.0
    ensures Dot(Reflect(v, n), n) == -Dot(v, n)
    ensures Reflect(Reflect(v, n), n) == v
    ensures SquaredLength(Reflect(v, n)) == SquaredLength(v)
  {
    var d := Dot(v, n);
    var r := Reflect(v, n);
    assert Dot(r, n) == d - 2.0 * d * Dot(n, n);
    assert Dot(n, n) == 1.0;
    assert SquaredLength(r) == SquaredLength(v) - 4.0 * d * d + 4.0 * d * d * Dot(n, n);
  }

  /** The discriminant `1 - eta^2 (1 - dt^2)` of Snell's law. */
  function RefractDiscriminant(dt: real, eta: real): real {
    1.0 - eta * eta * (1.0 - dt * dt)
  }

  /**
   * `refract(v, n, ni_over_nt)`: bends the unit direction of `v` at a
   * surface with normal `n`; there is no refracted ray exactly when the
   * discriminant is not positive (total internal reflection).
   */
  function Refract(v: Vec3, n: Vec3, eta: real, m: Math): (r: Option<Vec3>)
    requires Length(v, m) != 0.0
    ensures r.Some? <==> RefractDiscriminant(Dot(UnitVector(v, m), n), eta) > 0.0
  {
    var uv := UnitVector(v, m);
    var dt := Dot(uv, n);
    var discriminant := RefractDiscriminant(dt, eta);
    if discriminant > 0.0 then
      Some(Sub(ScaleLeft(eta, Sub(uv, Scale(n, dt))), Scale(n, m.sqrt(discriminant))))
    else
      None
  }

  /**
   * With an exact square root and a unit normal, a ray passing into a
   * denser medium (`|eta| < 1`) always refracts: no total internal
   * reflection.
   */
  lemma DenserMediumRefracts(v: Vec3, n: Vec3, eta: real, m: Math)
    requires ExactSqrt(m) && v != Zero && SquaredLength(n) == 1.0
    requires -1.0 < eta < 1.0
    ensures Length(v, m) > 0.0
    ensures Refract(v, n, eta, m).Some?
  {
    UnitVectorIsUnit(v, m);
    var uv := UnitVector(v, m);
    var dt := Dot(uv, n);
    CauchySchwarz(uv, n);
    SquaredLengthIsDotSelf(uv);
    SquaredLengthIsDotSelf(n);
    assert dt * dt <= 1.0;
    var s := 1.0 - dt * dt;
    assert 0.0 <= s <= 1.0;
    var e := eta * eta;
    assert 0.0 <= e < 1.0 by {
      if eta >= 0.0 { assert eta * eta <= eta * 1.0; } else { assert eta * eta <= -eta; }
    }
    assert e * s <= e by {
      NonNegativeProduct(e, 1.0 - s);
    }
  }

  /** `schlick(cosine, ref_idx)`: `r0 + (1 - r0) (1 - cosine)^5` with `r0 = ((1 - ref_idx) / (1 + ref_idx))^2`. */
  function Schlick(cosine: real, refIdx: real, m: Math): real
    requires 1.0 + refIdx != 0.0
  {
    var r0 := m.powf((1.0 - refIdx) / (1.0 + refIdx), 2.0);
    r0 + (1.0 - r0) * m.powf(1.0 - cosine, 5.0)
  }

  /** For a non-negative index and a cosine in [0, 1], the reflectance is a probability, no smaller than at normal incidence. */
  lemma SchlickIsProbability(cosine: real, refIdx: real, m: Math)
    requires SchlickPowers(m) && refIdx >= 0.0 && 0.0 <= cosine <= 1.0
    ensures var r0 := Sq((1.0 - refIdx) / (1.0 + refIdx));
      0.0 <= r0 <= Schlick(cosine, refIdx, m) <= 1.0
  {
    var q := (1.0 - refIdx) / (1.0 + refIdx);
    var r0 := m.powf(q, 2.0);
    assert r0 == q * q;
    assert -1.0 <= q <= 1.0 by {
      assert q * (1.0 + refIdx) == 1.0 - refIdx;
      ScaledCompare(1.0 - refIdx, 1.0 + refIdx, 1.0);
      ScaledCompare(1.0 - refIdx, 1.0 + refIdx, -1.0);
      assert q == (1.0 - refIdx) * (1.0 / (1.0 + refIdx));
    }
    assert 0.0 <= r0 <= 1.0 by {
      SqNonNegative(q);
      if q >= 0.0 { assert q * q <= q * 1.0; } else { assert q * q <= -q; }
    }
    var p := m.powf(1.0 - cosine, 5.0);
    assert 0.0 <= p <= 1.0;
    NonNegativeProduct(1.0 - r0, p);
    NonNegativeProduct(1.0 - r0, 1.0 - p);
  }

  // ---------------------------------------------------------------------
  // emitted

  /** `emitted`: a light shows its texture, every other material emits black. */
  function Emitted(mat: Material, u: real, v: real, p: Vec3, m: Math, t: Perlin.Tables): (c: Vec3)
    requires Perlin.Valid(t) && (mat.Light? ==> WellFormed(mat.emit))
    ensures !mat.Light? ==> c == Zero
  {
    match mat
    case Light(emit) => Value(emit, u, v, p, m, t)
    case _ => Zero
  }

  /** Emitted light lies in [0, 1] when the light's solid colours do, given a bounded `sin`. */
  lemma EmittedInUnitCube(mat: Material, u: real, v: real, p: Vec3, m: Math, t: Perlin.Tables)
    requires Perlin.Valid(t) && BoundedSin(m)
    requires mat.Light? ==> WellFormed(mat.emit) && SolidsInUnitCube(mat.emit)
    ensures InUnitCube(Emitted(mat, u, v, p, m, t))
  {
    if mat.Light? {
      ValueInUnitCube(mat.emit, u, v, p, m, t);
    }
  }
}
