/**
 * Facts about real multiplication that the vector lemmas build on.  Strict
 * sign facts are stated about `Sq` and `Product` rather than about a bare
 * product, so that a caller receives them in the same form it uses.
 */
module Reals {

  function Sq(r: real): real { r * r }

  function Product(a: real, b: real): real { a * b }

  lemma ProductPositive(a: real, b: real)
    requires a > 0.0 && b > 0.0
    ensures Product(a, b) > 0.0
  {
  }

  lemma ProductOfNegatives(a: real, b: real)
    requires a < 0.0 && b < 0.0
    ensures Product(a, b) > 0.0
  {
  }

  lemma SqNonNegative(r: real)
    ensures Sq(r) >= 0.0
  {
  }

  /** A non-zero real has a positive square. */
  lemma SqPositive(r: real)
    requires r != 0.0
    ensures Sq(r) > 0.0
  {
    if r > 0.0 {
      ProductPositive(r, r);
      assert Product(r, r) == Sq(r);
    } else {
      ProductOfNegatives(r, r);
      assert Product(r, r) == Sq(r);
    }
  }

  /** `(a / l)^2 * l^2 == a^2`. */
  lemma QuotientSquare(a: real, l: real)
    requires l != 0.0
    ensures Sq(a / l) * Sq(l) == Sq(a)
  {
    var q := a / l;
    assert q * l == a;
    assert Sq(q) * Sq(l) == (q * l) * (q * l);
  }

  lemma Distribute(p: real, q: real, r: real, k: real)
    ensures (p + q + r) * k == p * k + q * k + r * k
  {
  }

  /** From `t * k == s` with `k == s != 0`, `t` is one. */
  lemma CancelFactor(t: real, k: real, s: real)
    requires k == s && s != 0.0 && t * k == s
    ensures t == 1.0
  {
    assert t * s == s;
    assert (t - 1.0) * s == 0.0;
  }

  /** Comparing `a * (1 / d)` with `t` is comparing `a` with `d * t`, the order flipping when `d` is negative. */
  lemma ScaledCompare(a: real, d: real, t: real)
    requires d != 0.0
    ensures d > 0.0 ==> (a * (1.0 / d) < t <==> a < d * t)
    ensures d > 0.0 ==> (t < a * (1.0 / d) <==> d * t < a)
    ensures d < 0.0 ==> (a * (1.0 / d) < t <==> d * t < a)
    ensures d < 0.0 ==> (t < a * (1.0 / d) <==> a < d * t)
  {
    var q := a * (1.0 / d);
    assert q * d == a;
    if d > 0.0 {
      if q < t { PositiveTimesPositive(t - q, d); }
      if t < q { PositiveTimesPositive(q - t, d); }
      if a < d * t { assert (t - q) * d == d * t - a; PositiveFactor(t - q, d); }
      if d * t < a { assert (q - t) * d == a - d * t; PositiveFactor(q - t, d); }
    } else {
      if q < t { PositiveTimesNegative(t - q, d); }
      if t < q { PositiveTimesNegative(q - t, d); }
      if d * t < a { assert (t - q) * d == d * t - a; PositiveFactorOfNegative(t - q, d); }
      if a < d * t { assert (q - t) * d == a - d * t; PositiveFactorOfNegative(q - t, d); }
    }
  }

  lemma NonNegativeProduct(a: real, b: real)
    requires a >= 0.0 && b >= 0.0
    ensures a * b >= 0.0
  {
  }

  /** Scaling a non-negative `b` by a factor of at least one does not shrink it. */
  lemma ProductMonotone(a: real, b: real)
    requires a >= 1.0 && b >= 0.0
    ensures a * b >= b
  {
    assert a * b - b == (a - 1.0) * b;
  }

  lemma PositiveTimesPositive(x: real, d: real)
    requires x > 0.0 && d > 0.0
    ensures x * d > 0.0
  {
  }

  lemma PositiveTimesNegative(x: real, d: real)
    requires x > 0.0 && d < 0.0
    ensures x * d < 0.0
  {
  }

  lemma PositiveFactor(x: real, d: real)
    requires d > 0.0 && x * d > 0.0
    ensures x > 0.0
  {
  }

  lemma PositiveFactorOfNegative(x: real, d: real)
    requires d < 0.0 && x * d < 0.0
    ensures x > 0.0
  {
  }
}
