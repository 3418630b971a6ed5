/**
 * `Vec3`, the three-component vector used for points, directions and colours,
 * with its operators.  The pure operators are functions; the compound
 * assignments and `make_unit_vector`, which update the three-element buffer
 * of a vector in place, are methods on that buffer.
 */
module Vectors {
  import opened Intrinsics
  import opened Reals

  datatype Vec3 = Vec3(x: real, y: real, z: real) {
    /** The colour accessors name the same components as `x`, `y`, `z`. */
    function R(): real { x }
    function G(): real { y }
    function B(): real { z }

    /** `v[i]`; an index of 3 or more panics in the source. */
    function Index(i: nat): real
      requires i < 3
    {
      if i == 0 then x else if i == 1 then y else z
    }

    /** The vector with component `i` replaced by `value`. */
    function With(i: nat, value: real): (r: Vec3)
      requires i < 3
      ensures r.Index(i) == value
      ensures forall j :: 0 <= j < 3 && j != i ==> r.Index(j) == Index(j)
    {
      if i == 0 then this.(x := value) else if i == 1 then this.(y := value) else this.(z := value)
    }
  }

  const Zero := Vec3(0.0, 0.0, 0.0)
  const Ones := Vec3(1.0, 1.0, 1.0)

  function Add(a: Vec3, b: Vec3): Vec3 { Vec3(a.x + b.x, a.y + b.y, a.z + b.z) }
  function Sub(a: Vec3, b: Vec3): Vec3 { Vec3(a.x - b.x, a.y - b.y, a.z - b.z) }
  /** Component-wise product (`Mul for Vec3`). */
  function Mul(a: Vec3, b: Vec3): Vec3 { Vec3(a.x * b.x, a.y * b.y, a.z * b.z) }
  /** `v * s` (`Mul<f32> for Vec3`). */
  function Scale(v: Vec3, s: real): Vec3 { Vec3(v.x * s, v.y * s, v.z * s) }
  /** `s * v` (`Mul<Vec3> for f32`). */
  function ScaleLeft(s: real, v: Vec3): Vec3 { Vec3(s * v.x, s * v.y, s * v.z) }

  predicate NoZeroComponent(v: Vec3) { v.x != 0.0 && v.y != 0.0 && v.z != 0.0 }

  /** Component-wise quotient (`Div for Vec3`). */
  function Div(a: Vec3, b: Vec3): Vec3
    requires NoZeroComponent(b)
  {
    Vec3(a.x / b.x, a.y / b.y, a.z / b.z)
  }

  /** `v / s` (`Div<f32> for Vec3`). */
  function DivScalar(v: Vec3, s: real): Vec3
    requires s != 0.0
  {
    Vec3(v.x / s, v.y / s, v.z / s)
  }

  function Neg(v: Vec3): Vec3 { Vec3(-v.x, -v.y, -v.z) }

  function Dot(a: Vec3, b: Vec3): real { a.x * b.x + a.y * b.y + a.z * b.z }

  function Cross(a: Vec3, b: Vec3): Vec3 {
    Vec3(a.y * b.z - a.z * b.y, a.z * b.x - a.x * b.z, a.x * b.y - a.y * b.x)
  }

  function SquaredLength(v: Vec3): real { v.x * v.x + v.y * v.y + v.z * v.z }

  function Length(v: Vec3, m: Math): real { m.sqrt(SquaredLength(v)) }

  /** `unit_vector` divides by the length; a zero length is a division by zero. */
  function UnitVector(v: Vec3, m: Math): Vec3
    requires Length(v, m) != 0.0
  {
    DivScalar(v, Length(v, m))
  }

  // ---------------------------------------------------------------------
  // Properties of the operators

  lemma SquaredLengthIsDotSelf(v: Vec3)
    ensures SquaredLength(v) == Dot(v, v)
  {
  }

  /** The squared length is never negative, and is zero exactly for the zero vector. */
  lemma SquaredLengthNonNegative(v: Vec3)
    ensures SquaredLength(v) >= 0.0
    ensures SquaredLength(v) == 0.0 <==> v == Zero
  {
    SqNonNegative(v.x);
    SqNonNegative(v.y);
    SqNonNegative(v.z);
    if v.x != 0.0 { SqPositive(v.x); }
    if v.y != 0.0 { SqPositive(v.y); }
    if v.z != 0.0 { SqPositive(v.z); }
  }

  /** The cross product is orthogonal to both of its arguments. */
  lemma CrossOrthogonal(a: Vec3, b: Vec3)
    ensures Dot(a, Cross(a, b)) == 0.0
    ensures Dot(b, Cross(a, b)) == 0.0
  {
  }

  /** Lagrange's identity: |a|^2 |b|^2 - (a.b)^2 = |a x b|^2. */
  lemma Lagrange(a: Vec3, b: Vec3)
    ensures Dot(a, a) * Dot(b, b) - Dot(a, b) * Dot(a, b) == SquaredLength(Cross(a, b))
  {
  }

  /** Cauchy-Schwarz, from Lagrange's identity. */
  lemma CauchySchwarz(a: Vec3, b: Vec3)
    ensures Dot(a, b) * Dot(a, b) <= Dot(a, a) * Dot(b, b)
  {
    Lagrange(a, b);
    SquaredLengthNonNegative(Cross(a, b));
  }

  lemma ScaleCommutes(v: Vec3, s: real)
    ensures Scale(v, s) == ScaleLeft(s, v)
  {
  }

  lemma NegIsScaleByMinusOne(v: Vec3)
    ensures Neg(v) == Scale(v, -1.0)
  {
  }

  lemma AddSubCancel(a: Vec3, b: Vec3)
    ensures Sub(Add(a, b), b) == a
  {
  }

  lemma IndexMatchesAccessors(v: Vec3)
    ensures v.Index(0) == v.x == v.R()
    ensures v.Index(1) == v.y == v.G()
    ensures v.Index(2) == v.z == v.B()
  {
  }

  /** Dividing by `l` divides the squared length by `l^2`. */
  lemma DivScalarSquaredLength(v: Vec3, l: real)
    requires l != 0.0
    ensures SquaredLength(DivScalar(v, l)) * Sq(l) == SquaredLength(v)
  {
    var u := DivScalar(v, l);
    QuotientSquare(v.x, l);
    QuotientSquare(v.y, l);
    QuotientSquare(v.z, l);
    Distribute(Sq(u.x), Sq(u.y), Sq(u.z), Sq(l));
  }

  /** With an exact square root, a non-zero vector has a positive length whose square is its squared length. */
  lemma LengthPositive(v: Vec3, m: Math)
    requires ExactSqrt(m) && v != Zero
    ensures Length(v, m) > 0.0
    ensures Sq(Length(v, m)) == SquaredLength(v)
  {
    SquaredLengthNonNegative(v);
    var l := Length(v, m);
    assert l * l == SquaredLength(v);
    if l == 0.0 {
      assert false;
    }
  }

  /** With an exact square root, `unit_vector` of a non-zero vector has length one. */
  lemma UnitVectorIsUnit(v: Vec3, m: Math)
    requires ExactSqrt(m) && v != Zero
    ensures Length(v, m) > 0.0
    ensures SquaredLength(UnitVector(v, m)) == 1.0
  {
    LengthPositive(v, m);
    SquaredLengthNonNegative(v);
    DivScalarSquaredLength(v, Length(v, m));
    CancelFactor(SquaredLength(UnitVector(v, m)), Sq(Length(v, m)), SquaredLength(v));
  }

  // ---------------------------------------------------------------------
  // In-place updates of a vector's three-element buffer (`self.0`)

  function Of(e: seq<real>): Vec3
    requires |e| == 3
  {
    Vec3(e[0], e[1], e[2])
  }

  /** `a += b` */
  method AddAssign(e: array<real>, other: Vec3)
    requires e.Length == 3
    modifies e
    ensures Of(e[..]) == Add(Of(old(e[..])), other)
  {
    e[0] := e[0] + other.x;
    e[1] := e[1] + other.y;
    e[2] := e[2] + other.z;
  }

  /** `a -= b` */
  method SubAssign(e: array<real>, other: Vec3)
    requires e.Length == 3
    modifies e
    ensures Of(e[..]) == Sub(Of(old(e[..])), other)
  {
    e[0] := e[0] - other.x;
    e[1] := e[1] - other.y;
    e[2] := e[2] - other.z;
  }

  /** `a *= b`, component-wise. */
  method MulAssign(e: array<real>, other: Vec3)
    requires e.Length == 3
    modifies e
    ensures Of(e[..]) == Mul(Of(old(e[..])), other)
  {
    e[0] := e[0] * other.x;
    e[1] := e[1] * other.y;
    e[2] := e[2] * other.z;
  }

  /** `a *= s` */
  method MulAssignScalar(e: array<real>, s: real)
    requires e.Length == 3
    modifies e
    ensures Of(e[..]) == Scale(Of(old(e[..])), s)
  {
    e[0] := e[0] * s;
    e[1] := e[1] * s;
    e[2] := e[2] * s;
  }

  /** `a /= b`, component-wise. */
  method DivAssign(e: array<real>, other: Vec3)
    requires e.Length == 3 && NoZeroComponent(other)
    modifies e
    ensures Of(e[..]) == Div(Of(old(e[..])), other)
  {
    e[0] := e[0] / other.x;
    e[1] := e[1] / other.y;
    e[2] := e[2] / other.z;
  }

  /** `a /= s` */
  method DivAssignScalar(e: array<real>, s: real)
    requires e.Length == 3 && s != 0.0
    modifies e
    ensures Of(e[..]) == DivScalar(Of(old(e[..])), s)
  {
    e[0] := e[0] / s;
    e[1] := e[1] / s;
    e[2] := e[2] / s;
  }

  /** `make_unit_vector`: multiplies each component by `1 / length`, which
      leaves the buffer holding `unit_vector` of its old value. */
  method MakeUnitVector(e: array<real>, m: Math)
    requires e.Length == 3 && Length(Of(e[..]), m) != 0.0
    modifies e
    ensures Of(e[..]) == UnitVector(Of(old(e[..])), m)
  {
    var k := 1.0 / Length(Of(e[..]), m);
    e[0] := e[0] * k;
    e[1] := e[1] * k;
    e[2] := e[2] * k;
  }
}
