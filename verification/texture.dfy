/**
 * `Texture`: the colour a surface shows at texture coordinates `(u, v)` and
 * point `p`.  A checker picks one of two textures by the sign of a product of
 * sines, an image is sampled at its nearest texel, a noise texture is a grey
 * marble pattern driven by Perlin turbulence, and a solid texture is one
 * colour everywhere.
 *
 * The `checker`, `noise` and `solid` constructors of the source are the
 * datatype constructors `Checker`, `Noise` and `Solid`.
 */
module Textures {
  import opened Intrinsics
  import opened Vectors
  import Perlin
  import Reals

  /** An image byte. */
  newtype u8 = x: int | 0 <= x < 256

  datatype Texture =
    | Checker(odd: Texture, even: Texture)
    | Image(data: seq<u8>, w: nat, h: nat)
    | Noise(scale: real)
    | Solid(color: Vec3)

  /**
   * What `value` needs of a texture to read its image data in bounds: every
   * image has at least one column and one row, and at least three bytes per
   * pixel.  A zero width or height clamps an index to -1, which the source
   * then converts to a huge `usize` and panics on.
   */
  predicate WellFormed(tex: Texture) {
    match tex
    case Checker(odd, even) => WellFormed(odd) && WellFormed(even)
    case Image(data, w, h) => w >= 1 && h >= 1 && |data| >= 3 * w * h
    case Noise(_) => true
    case Solid(_) => true
  }

  /** The octaves of turbulence the noise texture sums. */
  const NoiseDepth: nat := 7

  /** `x as i32` for an in-range `x`: the integer part, rounding toward zero. */
  function Truncate(x: real): (r: int)
    ensures x >= 0.0 ==> r as real <= x < r as real + 1.0
    ensures x < 0.0 ==> r as real - 1.0 < x <= r as real
  {
    if x >= 0.0 then x.Floor else -((-x).Floor)
  }

  /** `n.max(0).min(size - 1)`. */
  function Clamp(n: int, size: nat): (r: int)
    requires size >= 1
    ensures 0 <= r < size
    ensures 0 <= n < size ==> r == n
    ensures n < 0 ==> r == 0
    ensures n >= size ==> r == size - 1
  {
    var lower := if n > 0 then n else 0;
    if lower < size - 1 then lower else size - 1
  }

  /** The image column `i` for texture coordinate `u`. */
  function Column(u: real, w: nat): (i: int)
    requires w >= 1
    ensures 0 <= i < w
  {
    Clamp(Truncate(u * w as real), w)
  }

  /** The image row `j` for texture coordinate `v`: rows count down from `v = 1`. */
  function Row(v: real, h: nat): (j: int)
    requires h >= 1
    ensures 0 <= j < h
  {
    Clamp(Truncate((1.0 - v) * h as real - 0.001), h)
  }

  /** Pixel `(i, j)` starts at byte `3i + 3wj`, and its three bytes lie inside an image of `3wh` bytes. */
  lemma TexelInBounds(w: nat, h: nat, i: nat, j: nat)
    requires i < w && j < h
    ensures 3 * i + 3 * w * j + 2 < 3 * w * h
  {
    assert w * j + w <= w * h by {
      assert w * (h - j) >= w * 1 by { MultiplyMonotone(w, 1, h - j); }
      assert w * (h - j) == w * h - w * j;
    }
  }

  lemma MultiplyMonotone(w: nat, a: nat, b: nat)
    requires a <= b
    ensures w * a <= w * b
  {
  }

  /** A byte divided by 255 lies in [0, 1]. */
  function Channel(b: u8): (c: real)
    ensures 0.0 <= c <= 1.0
    ensures c * 255.0 == b as real
  {
    b as real / 255.0
  }

  /** The colour of pixel `(i, j)`. */
  function Texel(data: seq<u8>, w: nat, h: nat, i: nat, j: nat): (c: Vec3)
    requires i < w && j < h && |data| >= 3 * w * h
    ensures InUnitCube(c)
  {
    TexelInBounds(w, h, i, j);
    var k := 3 * i + 3 * w * j;
    Vec3(Channel(data[k]), Channel(data[k + 1]), Channel(data[k + 2]))
  }

  /** Every component of `c` lies in [0, 1]. */
  predicate InUnitCube(c: Vec3) {
    0.0 <= c.x <= 1.0 && 0.0 <= c.y <= 1.0 && 0.0 <= c.z <= 1.0
  }

  /** The product of sines whose sign picks a checker's square. */
  function CheckerSines(p: Vec3, m: Math): real {
    m.sin(10.0 * p.x) * m.sin(10.0 * p.y) * m.sin(10.0 * p.z)
  }

  /** The marble colour `(1, 1, 1) * (1 + sin(scale * z + 10 * turbulence(p, 7))) * 0.5`. */
  function Marble(scale: real, p: Vec3, m: Math, t: Perlin.Tables): Vec3
    requires Perlin.Valid(t)
  {
    var phase := scale * p.z + 10.0 * Perlin.Abs(Perlin.TurbulenceSum(p, t, NoiseDepth));
    Scale(Scale(Ones, 1.0 + m.sin(phase)), 0.5)
  }

  /** `Texture::value`. */
  function Value(tex: Texture, u: real, v: real, p: Vec3, m: Math, t: Perlin.Tables): Vec3
    requires WellFormed(tex) && Perlin.Valid(t)
  {
    match tex
    case Checker(odd, even) =>
      if CheckerSines(p, m) < 0.0 then Value(odd, u, v, p, m, t) else Value(even, u, v, p, m, t)
    case Image(data, w, h) => Texel(data, w, h, Column(u, w), Row(v, h))
    case Noise(scale) => Marble(scale, p, m, t)
    case Solid(color) => color
  }

  // ---------------------------------------------------------------------
  // Properties of `value`

  /** A checker shows its odd texture where the sines' product is negative and its even one elsewhere, at the same `(u, v, p)`. */
  lemma CheckerPicksBySign(odd: Texture, even: Texture, u: real, v: real, p: Vec3, m: Math, t: Perlin.Tables)
    requires WellFormed(odd) && WellFormed(even) && Perlin.Valid(t)
    ensures CheckerSines(p, m) < 0.0 ==> Value(Checker(odd, even), u, v, p, m, t) == Value(odd, u, v, p, m, t)
    ensures CheckerSines(p, m) >= 0.0 ==> Value(Checker(odd, even), u, v, p, m, t) == Value(even, u, v, p, m, t)
    ensures Value(Checker(odd, odd), u, v, p, m, t) == Value(odd, u, v, p, m, t)
  {
  }

  /** A solid texture shows its colour whatever the coordinates and point. */
  lemma SolidIsConstant(color: Vec3, u: real, v: real, p: Vec3, u': real, v': real, p': Vec3, m: Math, t: Perlin.Tables)
    requires Perlin.Valid(t)
    ensures Value(Solid(color), u, v, p, m, t) == Value(Solid(color), u', v', p', m, t) == color
  {
  }

  /**
   * The column follows `u` across the image: a `u` left of the first column
   * clamps to column 0, a `u` of 1 or more to the last column, and inside the
   * image the column is the one `u * w` falls in.
   */
  lemma ColumnClamps(u: real, w: nat)
    requires w >= 1
    ensures u * w as real < 1.0 ==> Column(u, w) == 0
    ensures u >= 1.0 ==> Column(u, w) == w - 1
    ensures 0.0 <= u * w as real < w as real ==> Column(u, w) as real <= u * w as real < Column(u, w) as real + 1.0
  {
    if u >= 1.0 {
      Reals.ProductMonotone(u, w as real);
    }
  }

  /** Rows run top to bottom: a `v` of 1 or more reads row 0, a `v` of 0 or less the last row. */
  lemma RowClamps(v: real, h: nat)
    requires h >= 1
    ensures v >= 1.0 ==> Row(v, h) == 0
    ensures v <= 0.0 ==> Row(v, h) == h - 1
  {
    if v >= 1.0 {
      Reals.NonNegativeProduct(v - 1.0, h as real);
    }
    if v <= 0.0 {
      Reals.ProductMonotone(1.0 - v, h as real);
    }
  }

  /** An image texture shows a colour in [0, 1] whatever `u` and `v` are. */
  lemma ImageValueInUnitCube(data: seq<u8>, w: nat, h: nat, u: real, v: real, p: Vec3, m: Math, t: Perlin.Tables)
    requires WellFormed(Image(data, w, h)) && Perlin.Valid(t)
    ensures InUnitCube(Value(Image(data, w, h), u, v, p, m, t))
  {
  }

  /** Given a bounded `sin`, the marble colour is a grey in [0, 1]. */
  lemma MarbleIsGrey(scale: real, p: Vec3, m: Math, t: Perlin.Tables)
    requires BoundedSin(m) && Perlin.Valid(t)
    ensures var c := Marble(scale, p, m, t); c.x == c.y == c.z && InUnitCube(c)
  {
    var phase := scale * p.z + 10.0 * Perlin.Abs(Perlin.TurbulenceSum(p, t, NoiseDepth));
    assert -1.0 <= m.sin(phase) <= 1.0;
  }

  /** Every solid colour inside a texture lies in [0, 1]. */
  predicate SolidsInUnitCube(tex: Texture) {
    match tex
    case Checker(odd, even) => SolidsInUnitCube(odd) && SolidsInUnitCube(even)
    case Image(_, _, _) => true
    case Noise(_) => true
    case Solid(color) => InUnitCube(color)
  }

  /** A texture whose solid colours lie in [0, 1] shows only colours in [0, 1], given a bounded `sin`. */
  lemma {:induction false} ValueInUnitCube(tex: Texture, u: real, v: real, p: Vec3, m: Math, t: Perlin.Tables)
    requires WellFormed(tex) && Perlin.Valid(t) && SolidsInUnitCube(tex) && BoundedSin(m)
    ensures InUnitCube(Value(tex, u, v, p, m, t))
  {
    match tex
    case Checker(odd, even) =>
      ValueInUnitCube(odd, u, v, p, m, t);
      ValueInUnitCube(even, u, v, p, m, t);
    case Image(_, _, _) =>
    case Noise(scale) =>
      MarbleIsGrey(scale, p, m, t);
    case Solid(_) =>
  }
}
