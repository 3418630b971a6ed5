/**
 * The floating-point intrinsics the renderer calls (`sqrt`, `sin`, `cos`,
 * `tan`, `powf`), the UV helper `get_sphere_uv` and the normal map applied
 * by the `flip_normals` wrapper, whose code is not part of this model.  They are carried as uninterpreted functions in one record that
 * every operation needing them takes as a parameter; a property that depends
 * on one of them states the fact it needs as a precondition.
 */
module Intrinsics {

  datatype Math = Math(
    sqrt: real -> real,
    sin: real -> real,
    cos: real -> real,
    tan: real -> real,
    powf: (real, real) -> real,
    sphereUv: (real, real, real) -> (real, real),
    flipNormal: Vec3Components -> Vec3Components)

  /** The three components of a vector, as `flipNormal` receives and returns them. */
  type Vec3Components = (real, real, real)

  /** `sqrt` is the exact non-negative square root on non-negative inputs. */
  ghost predicate ExactSqrt(m: Math) {
    forall x :: 0.0 <= x ==> 0.0 <= m.sqrt(x) && m.sqrt(x) * m.sqrt(x) == x
  }

  lemma SqrtSquare(m: Math, x: real)
    requires ExactSqrt(m) && 0.0 <= x
    ensures 0.0 <= m.sqrt(x) && m.sqrt(x) * m.sqrt(x) == x
  {
  }

  /** `sin` stays within [-1, 1]. */
  ghost predicate BoundedSin(m: Math) {
    forall x :: -1.0 <= m.sin(x) <= 1.0
  }

  /** `powf(x, 2.0)` is `x * x`, and `powf(x, 5.0)` stays in [0, 1] for x in [0, 1]. */
  ghost predicate SchlickPowers(m: Math) {
    && (forall x :: m.powf(x, 2.0) == x * x)
    && (forall x :: 0.0 <= x <= 1.0 ==> 0.0 <= m.powf(x, 5.0) <= 1.0)
  }

  /** The value of `std::f32::consts::PI`, written to the precision of an f32 literal. */
  const PI: real := 3.14159265358979323846

  /** `std::f32::MAX` and `std::f32::MIN`. */
  const F32_MAX: real := 340282346638528859811704183484516925440.0
  const F32_MIN: real := -340282346638528859811704183484516925440.0
}
