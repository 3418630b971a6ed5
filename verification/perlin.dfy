/**
 * Perlin noise: the permutation and gradient tables, the lattice lookup of
 * `noise`, the trilinear `perlin_interp` and the octave loop of
 * `turbulence`.
 *
 * The tables, which the renderer builds once at start-up, are an explicit
 * argument here.  The random draws that build them are parameters: the
 * shuffle receives the index each step swaps with, and the gradient
 * generator receives the three uniform samples of each entry.
 */
module Perlin {
  import opened Intrinsics
  import opened Vectors
  import Reals

  /** `RANVEC`, `PERM_X`, `PERM_Y` and `PERM_Z`. */
  datatype Tables = Tables(ranvec: seq<Vec3>, permX: seq<int>, permY: seq<int>, permZ: seq<int>)

  const TableSize: nat := 256

  /** `0..n` collected into a vector. */
  function Range(n: nat): (r: seq<int>)
    ensures |r| == n
    ensures forall i :: 0 <= i < n ==> r[i] == i
  {
    if n == 0 then [] else Range(n - 1) + [n - 1]
  }

  /** `p` holds each of `0..n` exactly once and nothing else. */
  predicate IsPermutationOf(p: seq<int>, n: nat) {
    multiset(p) == multiset(Range(n))
  }

  lemma {:induction false} RangeCounts(n: nat, v: int)
    ensures multiset(Range(n))[v] == if 0 <= v < n then 1 else 0
  {
    if n > 0 {
      RangeCounts(n - 1, v);
      var r := Range(n - 1);
      assert Range(n) == r + [n - 1];
      assert multiset(r + [n - 1]) == multiset(r) + multiset{n - 1};
    }
  }

  /** A permutation of `0..n` has length `n`, holds every value of `0..n` once, and holds nothing outside it. */
  lemma PermutationMembers(p: seq<int>, n: nat)
    requires IsPermutationOf(p, n)
    ensures |p| == n
    ensures forall v :: 0 <= v < n ==> multiset(p)[v] == 1
    ensures forall i :: 0 <= i < |p| ==> 0 <= p[i] < n
  {
    assert |multiset(p)| == |multiset(Range(n))|;
    forall v | 0 <= v < n
      ensures multiset(p)[v] == 1
    {
      RangeCounts(n, v);
    }
    forall i | 0 <= i < |p|
      ensures 0 <= p[i] < n
    {
      assert p[i] in multiset(p);
      RangeCounts(n, p[i]);
    }
  }

  /** Every entry of `p` indexes a table of `TableSize` entries. */
  predicate Indexes(p: seq<int>) {
    forall i :: 0 <= i < |p| ==> 0 <= p[i] < TableSize
  }

  /** What the lookups of `noise` need of the tables: 256 gradients and three permutation tables of 256 indices. */
  predicate Valid(t: Tables) {
    && |t.ranvec| == TableSize
    && |t.permX| == TableSize && Indexes(t.permX)
    && |t.permY| == TableSize && Indexes(t.permY)
    && |t.permZ| == TableSize && Indexes(t.permZ)
  }

  /** Tables built from 256 gradients and three permutations of `0..256` are valid. */
  lemma BuiltTablesAreValid(t: Tables)
    requires |t.ranvec| == TableSize
    requires IsPermutationOf(t.permX, TableSize)
    requires IsPermutationOf(t.permY, TableSize)
    requires IsPermutationOf(t.permZ, TableSize)
    ensures Valid(t)
  {
    PermutationMembers(t.permX, TableSize);
    PermutationMembers(t.permY, TableSize);
    PermutationMembers(t.permZ, TableSize);
  }

  // ---------------------------------------------------------------------
  // Building the tables

  /**
   * `SliceRandom::shuffle`: Fisher–Yates from the back, where position `i`
   * swaps with `draws[i]`, any index in `0..=i`.
   */
  method Shuffle(a: array<int>, draws: seq<nat>)
    requires |draws| == a.Length
    requires forall i :: 0 <= i < |draws| ==> draws[i] <= i
    modifies a
    ensures multiset(a[..]) == multiset(old(a[..]))
  {
    var i := a.Length;
    while i > 1
      invariant 0 <= i <= a.Length
      invariant multiset(a[..]) == multiset(old(a[..]))
    {
      i := i - 1;
      var j := draws[i];
      a[i], a[j] := a[j], a[i];
    }
  }

  /** `perlin_permutation(n)`: `0..n` shuffled. */
  method PerlinPermutation(n: nat, draws: seq<nat>) returns (p: seq<int>)
    requires |draws| == n
    requires forall i :: 0 <= i < n ==> draws[i] <= i
    ensures IsPermutationOf(p, n)
  {
    var a := new int[n](i => i);
    assert a[..] == Range(n);
    Shuffle(a, draws);
    p := a[..];
  }

  /** The vector `2 * (x, y, z) - 1` made from three uniform samples. */
  function Candidate(draw: (real, real, real)): Vec3 {
    Vec3(2.0 * draw.0 - 1.0, 2.0 * draw.1 - 1.0, 2.0 * draw.2 - 1.0)
  }

  /** `perlin_generate(n)`: one unit gradient per triple of samples. */
  method PerlinGenerate(n: nat, draws: seq<(real, real, real)>, m: Math) returns (p: seq<Vec3>)
    requires |draws| == n
    requires forall k :: 0 <= k < n ==> Length(Candidate(draws[k]), m) != 0.0
    ensures |p| == n
    ensures forall k :: 0 <= k < n ==> p[k] == UnitVector(Candidate(draws[k]), m)
  {
    p := [];
    for k := 0 to n
      invariant |p| == k
      invariant forall k' :: 0 <= k' < k ==> p[k'] == UnitVector(Candidate(draws[k']), m)
    {
      var v := Candidate(draws[k]);
      p := p + [UnitVector(v, m)];
    }
  }

  /** With an exact square root every generated gradient has length one. */
  lemma GeneratedGradientsAreUnit(p: seq<Vec3>, draws: seq<(real, real, real)>, m: Math)
    requires ExactSqrt(m) && |p| == |draws|
    requires forall k :: 0 <= k < |p| ==> Candidate(draws[k]) != Zero
    requires forall k :: 0 <= k < |p| ==> Length(Candidate(draws[k]), m) != 0.0 && p[k] == UnitVector(Candidate(draws[k]), m)
    ensures forall k :: 0 <= k < |p| ==> SquaredLength(p[k]) == 1.0
  {
    forall k | 0 <= k < |p|
      ensures SquaredLength(p[k]) == 1.0
    {
      UnitVectorIsUnit(Candidate(draws[k]), m);
    }
  }

  // ---------------------------------------------------------------------
  // Lattice lookup

  /**
   * `x & 255` on a 32-bit integer.  On the two's-complement pattern of an
   * `i32` the low eight bits are the residue of `x` modulo 256, which is
   * never negative, so the mask of a negative lattice coordinate is still a
   * table index.
   */
  function Mask255(x: int): (r: int)
    ensures 0 <= r < 256
    ensures (x - r) % 256 == 0
  {
    x % 256
  }

  /**
   * `a ^ b ^ c` on three permutation entries.  The entries lie in `0..256`,
   * where the exclusive or of the `i32` values is that of their low eight
   * bits, and so is again an index into the gradient table.
   */
  function Xor3(a: int, b: int, c: int): (r: int)
    requires 0 <= a < 256 && 0 <= b < 256 && 0 <= c < 256
    ensures 0 <= r < 256
  {
    ((a as bv8) ^ (b as bv8) ^ (c as bv8)) as int
  }

  /** The gradient at lattice corner `(i + di, j + dj, k + dk)`. */
  function Corner(t: Tables, i: int, j: int, k: int, di: nat, dj: nat, dk: nat): Vec3
    requires Valid(t)
  {
    var a := t.permX[Mask255(i + di)];
    var b := t.permY[Mask255(j + dj)];
    var c := t.permZ[Mask255(k + dk)];
    t.ranvec[Xor3(a, b, c)]
  }

  /** The fractional part `x - floor(x)`. */
  function Fraction(x: real): (r: real)
    ensures 0.0 <= r < 1.0

  {
    x - x.Floor as real
  }

  // ---------------------------------------------------------------------
  // Trilinear interpolation

  /** The smoothed weight `u^2 (3 - 2u)`. */
  function Smooth(u: real): real { u * u * (3.0 - 2.0 * u) }

  /** `i * s + (1 - i) * (1 - s)`: `1 - s` for the near corner, `s` for the far one. */
  function CornerWeight(i: nat, s: real): real {
    (i as real) * s + (1.0 - i as real) * (1.0 - s)
  }

  /** The eight corners in the loop's order: corner `n` is `(i, j, k)` with `n = 4i + 2j + k`. */
  function CornerI(n: nat): nat { if n >= 4 then 1 else 0 }
  function CornerJ(n: nat): nat { if n == 2 || n == 3 || n == 6 || n == 7 then 1 else 0 }
  function CornerK(n: nat): nat { if n == 1 || n == 3 || n == 5 || n == 7 then 1 else 0 }

  function Weight(n: nat, u: real, v: real, w: real): real {
    CornerWeight(CornerI(n), Smooth(u)) * CornerWeight(CornerJ(n), Smooth(v)) * CornerWeight(CornerK(n), Smooth(w))
  }

  /** One corner's contribution: its three weights times its gradient's dot product with the offset. */
  function Summand(wi: real, wj: real, wk: real, gradient: Vec3, offset: Vec3): real {
    wi * wj * wk * Dot(gradient, offset)
  }

  /** The offset `(u - i, v - j, w - k)` of the point from corner `n`. */
  function CornerOffset(n: nat, u: real, v: real, w: real): Vec3 {
    Vec3(u - CornerI(n) as real, v - CornerJ(n) as real, w - CornerK(n) as real)
  }

  function Term(g: seq<Vec3>, n: nat, u: real, v: real, w: real): real
    requires n < |g|
  {
    Summand(CornerWeight(CornerI(n), Smooth(u)), CornerWeight(CornerJ(n), Smooth(v)), CornerWeight(CornerK(n), Smooth(w)),
            g[n], CornerOffset(n, u, v, w))
  }

  /** The sum of the first `n` corner terms. */
  function InterpPrefix(g: seq<Vec3>, n: nat, u: real, v: real, w: real): real
    requires n <= |g|
  {
    if n == 0 then 0.0 else InterpPrefix(g, n - 1, u, v, w) + Term(g, n - 1, u, v, w)
  }

  /** The interpolated value: all eight corner terms. */
  function Interp(g: seq<Vec3>, u: real, v: real, w: real): real
    requires |g| == 8
  {
    InterpPrefix(g, |g|, u, v, w)
  }

  /**
   * `perlin_interp`: the weighted sum of the corner gradients' dot products
   * with the offsets.  The `[[[Vec3; 2]; 2]; 2]` value `c` is flattened:
   * `c[i][j][k]` is `c[4 * i + 2 * j + k]`.
   */
  method PerlinInterp(c: seq<Vec3>, u: real, v: real, w: real) returns (accum: real)
    requires |c| == 8
    ensures accum == Interp(c, u, v, w)
  {
    var uu := Smooth(u);
    var vv := Smooth(v);
    var ww := Smooth(w);
    accum := 0.0;
    for i := 0 to 2
      invariant accum == InterpPrefix(c, 4 * i, u, v, w)
    {
      for j := 0 to 2
        invariant accum == InterpPrefix(c, 4 * i + 2 * j, u, v, w)
      {
        for k := 0 to 2
          invariant accum == InterpPrefix(c, 4 * i + 2 * j + k, u, v, w)
        {
          var (ii, jj, kk) := (i as real, j as real, k as real);
          var weightV := Vec3(u - ii, v - jj, w - kk);
          ghost var n := 4 * i + 2 * j + k;
          assert CornerI(n) == i && CornerJ(n) == j && CornerK(n) == k;
          accum := accum + Summand(CornerWeight(i, uu), CornerWeight(j, vv), CornerWeight(k, ww), c[4 * i + 2 * j + k], weightV);
        }
      }
    }
  }

  lemma SmoothInUnitInterval(u: real)
    requires 0.0 <= u <= 1.0
    ensures 0.0 <= Smooth(u) <= 1.0
  {
    assert 1.0 - Smooth(u) == (1.0 - u) * (1.0 - u) * (1.0 + 2.0 * u);
    NonNegativeTriple(u * u, 3.0 - 2.0 * u, 1.0);
    NonNegativeTriple((1.0 - u) * (1.0 - u), 1.0 + 2.0 * u, 1.0);
  }

  lemma NonNegativeTriple(a: real, b: real, c: real)
    requires a >= 0.0 && b >= 0.0 && c >= 0.0
    ensures a * b * c >= 0.0
  {
  }

  /** The eight corner weights of a trilinear interpolation sum to one. */
  lemma WeightsPartitionUnity(u: real, v: real, w: real)
    ensures Weight(0, u, v, w) + Weight(1, u, v, w) + Weight(2, u, v, w) + Weight(3, u, v, w)
          + Weight(4, u, v, w) + Weight(5, u, v, w) + Weight(6, u, v, w) + Weight(7, u, v, w) == 1.0
  {
    var a0, a1 := CornerWeight(0, Smooth(u)), CornerWeight(1, Smooth(u));
    var b0, b1 := CornerWeight(0, Smooth(v)), CornerWeight(1, Smooth(v));
    var c0, c1 := CornerWeight(0, Smooth(w)), CornerWeight(1, Smooth(w));
    assert a0 + a1 == 1.0 && b0 + b1 == 1.0 && c0 + c1 == 1.0;
    ExpandProduct(a0, a1, b0, b1, c0, c1);
  }

  /** Each corner's term is that corner's weight times its gradient's dot product with the offset. */
  lemma TermIsWeighted(g: seq<Vec3>, n: nat, u: real, v: real, w: real)
    requires n < |g|
    ensures Term(g, n, u, v, w) == Weight(n, u, v, w) * Dot(g[n], CornerOffset(n, u, v, w))
  {
    var a, b, c := CornerWeight(CornerI(n), Smooth(u)), CornerWeight(CornerJ(n), Smooth(v)), CornerWeight(CornerK(n), Smooth(w));
    assert Weight(n, u, v, w) == a * b * c;
    assert Term(g, n, u, v, w) == Summand(a, b, c, g[n], CornerOffset(n, u, v, w));
  }

  /** The interpolated value is the sum, over the eight corners, of weight times dot product. */
  lemma InterpIsWeightedSum(g: seq<Vec3>, u: real, v: real, w: real)
    requires |g| == 8
    ensures Interp(g, u, v, w) ==
      Weight(0, u, v, w) * Dot(g[0], CornerOffset(0, u, v, w)) + Weight(1, u, v, w) * Dot(g[1], CornerOffset(1, u, v, w))
      + Weight(2, u, v, w) * Dot(g[2], CornerOffset(2, u, v, w)) + Weight(3, u, v, w) * Dot(g[3], CornerOffset(3, u, v, w))
      + Weight(4, u, v, w) * Dot(g[4], CornerOffset(4, u, v, w)) + Weight(5, u, v, w) * Dot(g[5], CornerOffset(5, u, v, w))
      + Weight(6, u, v, w) * Dot(g[6], CornerOffset(6, u, v, w)) + Weight(7, u, v, w) * Dot(g[7], CornerOffset(7, u, v, w))
  {
    forall n | 0 <= n < 8
      ensures Term(g, n, u, v, w) == Weight(n, u, v, w) * Dot(g[n], CornerOffset(n, u, v, w))
    {
      TermIsWeighted(g, n, u, v, w);
    }
    assert InterpPrefix(g, 1, u, v, w) == Term(g, 0, u, v, w);
    assert InterpPrefix(g, 2, u, v, w) == InterpPrefix(g, 1, u, v, w) + Term(g, 1, u, v, w);
    assert InterpPrefix(g, 3, u, v, w) == InterpPrefix(g, 2, u, v, w) + Term(g, 2, u, v, w);
    assert InterpPrefix(g, 4, u, v, w) == InterpPrefix(g, 3, u, v, w) + Term(g, 3, u, v, w);
    assert InterpPrefix(g, 5, u, v, w) == InterpPrefix(g, 4, u, v, w) + Term(g, 4, u, v, w);
    assert InterpPrefix(g, 6, u, v, w) == InterpPrefix(g, 5, u, v, w) + Term(g, 5, u, v, w);
    assert InterpPrefix(g, 7, u, v, w) == InterpPrefix(g, 6, u, v, w) + Term(g, 6, u, v, w);
    assert InterpPrefix(g, 8, u, v, w) == InterpPrefix(g, 7, u, v, w) + Term(g, 7, u, v, w);
  }

  /**
   * Because the weights sum to one, the interpolation is an average: when
   * every corner's gradient has the same dot product `c` with its offset,
   * the interpolated value is `c`.
   */
  lemma InterpOfEqualDots(g: seq<Vec3>, u: real, v: real, w: real, c: real)
    requires |g| == 8
    requires forall n :: 0 <= n < 8 ==> Dot(g[n], CornerOffset(n, u, v, w)) == c
    ensures Interp(g, u, v, w) == c
  {
    InterpIsWeightedSum(g, u, v, w);
    WeightsPartitionUnity(u, v, w);
    assert Dot(g[0], CornerOffset(0, u, v, w)) == c && Dot(g[1], CornerOffset(1, u, v, w)) == c;
    assert Dot(g[2], CornerOffset(2, u, v, w)) == c && Dot(g[3], CornerOffset(3, u, v, w)) == c;
    assert Dot(g[4], CornerOffset(4, u, v, w)) == c && Dot(g[5], CornerOffset(5, u, v, w)) == c;
    assert Dot(g[6], CornerOffset(6, u, v, w)) == c && Dot(g[7], CornerOffset(7, u, v, w)) == c;
  }

  lemma ExpandProduct(a0: real, a1: real, b0: real, b1: real, c0: real, c1: real)
    ensures (a0 + a1) * (b0 + b1) * (c0 + c1)
         == a0 * b0 * c0 + a0 * b0 * c1 + a0 * b1 * c0 + a0 * b1 * c1
          + a1 * b0 * c0 + a1 * b0 * c1 + a1 * b1 * c0 + a1 * b1 * c1
  {
  }

  // ---------------------------------------------------------------------
  // Noise and turbulence

  /** The eight gradients around the lattice cell of `(i, j, k)`, in the loop's order. */
  function CellCorners(t: Tables, i: int, j: int, k: int): (g: seq<Vec3>)
    requires Valid(t)
    ensures |g| == 8
  {
    seq(8, n requires 0 <= n < 8 => Corner(t, i, j, k, CornerI(n), CornerJ(n), CornerK(n)))
  }

  /** The value `noise(p)`. */
  function NoiseValue(p: Vec3, t: Tables): real
    requires Valid(t)
  {
    Interp(CellCorners(t, p.x.Floor, p.y.Floor, p.z.Floor), Fraction(p.x), Fraction(p.y), Fraction(p.z))
  }

  /** `noise`: gathers the gradients of the lattice cell holding `p`, then interpolates at the offsets of `p` within it. */
  method Noise(p: Vec3, t: Tables) returns (r: real)
    requires Valid(t)
    ensures r == NoiseValue(p, t)
  {
    var u := Fraction(p.x);
    var v := Fraction(p.y);
    var w := Fraction(p.z);
    var i, j, k := p.x.Floor, p.y.Floor, p.z.Floor;
    ghost var g := CellCorners(t, i, j, k);
    var c := seq(8, _ => Zero);
    for di := 0 to 2
      invariant |c| == 8
      invariant forall n :: 0 <= n < 4 * di ==> c[n] == g[n]
    {
      for dj := 0 to 2
        invariant |c| == 8
        invariant forall n :: 0 <= n < 4 * di + 2 * dj ==> c[n] == g[n]
      {
        for dk := 0 to 2
          invariant |c| == 8
          invariant forall n :: 0 <= n < 4 * di + 2 * dj + dk ==> c[n] == g[n]
        {
          ghost var n := 4 * di + 2 * dj + dk;
          assert CornerI(n) == di && CornerJ(n) == dj && CornerK(n) == dk;
          c := c[4 * di + 2 * dj + dk := Corner(t, i, j, k, di, dj, dk)];
        }
      }
    }
    assert c == g;
    r := PerlinInterp(c, u, v, w);
  }

  function Pow(b: real, n: nat): real {
    if n == 0 then 1.0 else Pow(b, n - 1) * b
  }

  /** The point of octave `k`: `p` doubled `k` times. */
  function Doubled(p: Vec3, k: nat): Vec3 {
    if k == 0 then p else Scale(Doubled(p, k - 1), 2.0)
  }

  /** The weight of octave `k`: one halved `k` times. */
  function Halved(k: nat): real {
    if k == 0 then 1.0 else Halved(k - 1) * 0.5
  }

  /** Octave `k` samples the noise at `2^k p` with weight `0.5^k`. */
  lemma {:induction false} OctaveScaling(p: Vec3, k: nat)
    ensures Doubled(p, k) == Scale(p, Pow(2.0, k))
    ensures Halved(k) == Pow(0.5, k)
  {
    if k > 0 {
      OctaveScaling(p, k - 1);
      ScaleTwice(p, Pow(2.0, k - 1), 2.0);
    }
  }

  lemma ScaleTwice(p: Vec3, a: real, b: real)
    ensures Scale(Scale(p, a), b) == Scale(p, a * b)
  {
    assert p.x * a * b == p.x * (a * b);
    assert p.y * a * b == p.y * (a * b);
    assert p.z * a * b == p.z * (a * b);
  }

  /** The sum `turbulence` accumulates over `n` octaves, before taking its absolute value. */
  function TurbulenceSum(p: Vec3, t: Tables, n: nat): real
    requires Valid(t)
  {
    if n == 0 then 0.0
    else TurbulenceSum(p, t, n - 1) + Reals.Product(NoiseValue(Doubled(p, n - 1), t), Halved(n - 1))
  }

  /** After `k` octaves: the weight is `0.5^k`, the point `2^k p`, and the sum holds the first `k` octaves. */
  ghost predicate OctaveState(p: Vec3, t: Tables, k: nat, weight: real, q: Vec3, accum: real)
    requires Valid(t)
  {
    weight == Halved(k) && q == Doubled(p, k) && accum == TurbulenceSum(p, t, k)
  }

  function Abs(x: real): (r: real)
    ensures r >= 0.0 && (r == x || r == -x)
  {
    if x < 0.0 then -x else x
  }

  /**
   * `turbulence`: octave `k` samples the noise at `2^k p` with weight
   * `0.5^k`; the result is the absolute value of the sum, so it is never
   * negative, and it is zero when there are no octaves.
   */
  method Turbulence(p: Vec3, depth: nat, t: Tables) returns (r: real)
    requires Valid(t)
    ensures r == Abs(TurbulenceSum(p, t, depth))
    ensures r >= 0.0
    ensures depth == 0 ==> r == 0.0
  {
    var accum := 0.0;
    var weight := 1.0;
    var q := p;
    for k := 0 to depth
      invariant OctaveState(p, t, k, weight, q, accum)
    {
      var n := Noise(q, t);
      accum := accum + Reals.Product(n, weight);
      weight := weight * 0.5;
      q := Scale(q, 2.0);
    }
    r := Abs(accum);
  }
}
