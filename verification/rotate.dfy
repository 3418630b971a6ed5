/**
 * `RotateY`: a child surface rotated about the y axis by the angle whose
 * sine and cosine are `s` and `c`.  A ray is turned into the child's frame
 * by the inverse rotation, and a hit found there is turned back.  The box is
 * computed once, at construction, by rotating the eight corners of the
 * child's box and keeping the running minimum and maximum of each
 * coordinate.  The child itself and the dispatch to it are in `Hittables`.
 */
module Rotations {
  import opened Intrinsics
  import opened Vectors
  import opened Rays
  import opened Aabbs
  import opened HitRecords

  // ---------------------------------------------------------------------
  // The two rotations

  /** Into the child's frame: component 0 becomes `c x - s z`, component 2 becomes `s x + c z`. */
  function RotateIn(v: Vec3, s: real, c: real): (w: Vec3)
    ensures w.y == v.y
  {
    Vec3(c * v.x - s * v.z, v.y, s * v.x + c * v.z)
  }

  /** Back to world space: component 0 becomes `c x + s z`, component 2 becomes `c z - s x`. */
  function RotateOut(v: Vec3, s: real, c: real): (w: Vec3)
    ensures w.y == v.y
  {
    Vec3(c * v.x + s * v.z, v.y, c * v.z - s * v.x)
  }

  /** With `s^2 + c^2 = 1` each rotation undoes the other, and both keep lengths. */
  lemma RotationsInverse(v: Vec3, s: real, c: real)
    requires s * s + c * c == 1.0
    ensures RotateOut(RotateIn(v, s, c), s, c) == v
    ensures RotateIn(RotateOut(v, s, c), s, c) == v
    ensures SquaredLength(RotateIn(v, s, c)) == SquaredLength(v)
    ensures SquaredLength(RotateOut(v, s, c)) == SquaredLength(v)
  {
    InThenOut(v, s, c);
    OutThenIn(v, s, c);
  }

  lemma InThenOut(v: Vec3, s: real, c: real)
    requires s * s + c * c == 1.0
    ensures RotateOut(RotateIn(v, s, c), s, c) == v
    ensures SquaredLength(RotateIn(v, s, c)) == SquaredLength(v)
  {
    TurnBack(s, c, v.x, v.z);
  }

  lemma OutThenIn(v: Vec3, s: real, c: real)
    requires s * s + c * c == 1.0
    ensures RotateIn(RotateOut(v, s, c), s, c) == v
    ensures SquaredLength(RotateOut(v, s, c)) == SquaredLength(v)
  {
    TurnForth(s, c, v.x, v.z);
  }

  /** Turning `(x, z)` into the child's frame and back gives `(x, z)`, and keeps `x^2 + z^2`. */
  lemma TurnBack(s: real, c: real, x: real, z: real)
    requires s * s + c * c == 1.0
    ensures c * (c * x - s * z) + s * (s * x + c * z) == x
    ensures c * (s * x + c * z) - s * (c * x - s * z) == z
    ensures (c * x - s * z) * (c * x - s * z) + (s * x + c * z) * (s * x + c * z) == x * x + z * z
  {
    assert c * (c * x - s * z) + s * (s * x + c * z) == (s * s + c * c) * x;
    assert c * (s * x + c * z) - s * (c * x - s * z) == (s * s + c * c) * z;
    assert (c * x - s * z) * (c * x - s * z) + (s * x + c * z) * (s * x + c * z) == (s * s + c * c) * (x * x + z * z);
  }

  /** Turning `(x, z)` out to world space and back in gives `(x, z)`, and keeps `x^2 + z^2`. */
  lemma TurnForth(s: real, c: real, x: real, z: real)
    requires s * s + c * c == 1.0
    ensures c * (c * x + s * z) - s * (c * z - s * x) == x
    ensures s * (c * x + s * z) + c * (c * z - s * x) == z
    ensures (c * x + s * z) * (c * x + s * z) + (c * z - s * x) * (c * z - s * x) == x * x + z * z
  {
    assert c * (c * x + s * z) - s * (c * z - s * x) == (s * s + c * c) * x;
    assert s * (c * x + s * z) + c * (c * z - s * x) == (s * s + c * c) * z;
    assert (c * x + s * z) * (c * x + s * z) + (c * z - s * x) * (c * z - s * x) == (s * s + c * c) * (x * x + z * z);
  }

  /** The ray the child receives: origin and direction turned into its frame; y components and time unchanged. */
  function RotateRay(r: Ray, s: real, c: real): (rotated: Ray)
    ensures rotated.origin.y == r.origin.y && rotated.direction.y == r.direction.y
    ensures rotated.time == r.time
  {
    Ray(RotateIn(r.origin, s, c), RotateIn(r.direction, s, c), r.time)
  }

  /** The child's record in world space: point and normal turned back; `t`, `u`, `v` and the material unchanged. */
  function RotateRecord(rec: HitRecord, s: real, c: real): (rotated: HitRecord)
    ensures rotated.t == rec.t && rotated.u == rec.u && rotated.v == rec.v && rotated.mat == rec.mat
    ensures rotated.p.y == rec.p.y && rotated.normal.y == rec.normal.y
  {
    rec.(p := RotateOut(rec.p, s, c), normal := RotateOut(rec.normal, s, c))
  }

  /** Turning in is linear: the point of the turned ray is the turned point of the ray. */
  lemma RotateInPoint(r: Ray, t: real, s: real, c: real)
    ensures PointAtParameter(RotateRay(r, s, c), t) == RotateIn(PointAtParameter(r, t), s, c)
  {
    var o, d := r.origin, r.direction;
    TurnedX(o, d, t, s, c);
    TurnedZ(o, d, t, s, c);
  }

  lemma TurnedX(o: Vec3, d: Vec3, t: real, s: real, c: real)
    ensures Add(RotateIn(o, s, c), Scale(RotateIn(d, s, c), t)).x == RotateIn(Add(o, Scale(d, t)), s, c).x
  {
    TurnedDifference(c, s, o.x, o.z, d.x, d.z, t);
  }

  lemma TurnedZ(o: Vec3, d: Vec3, t: real, s: real, c: real)
    ensures Add(RotateIn(o, s, c), Scale(RotateIn(d, s, c), t)).z == RotateIn(Add(o, Scale(d, t)), s, c).z
  {
    TurnedSum(s, c, o.x, o.z, d.x, d.z, t);
  }

  lemma TurnedSum(a: real, b: real, ox: real, oz: real, dx: real, dz: real, t: real)
    ensures (a * ox + b * oz) + (a * dx + b * dz) * t == a * (ox + dx * t) + b * (oz + dz * t)
  {
  }

  lemma TurnedDifference(a: real, b: real, ox: real, oz: real, dx: real, dz: real, t: real)
    ensures (a * ox - b * oz) + (a * dx - b * dz) * t == a * (ox + dx * t) - b * (oz + dz * t)
  {
  }

  /** With `s^2 + c^2 = 1`, a point the child finds at `t` on the turned ray, turned back, is the world ray's point at `t`. */
  lemma RotatedHitOnRay(r: Ray, t: real, s: real, c: real)
    requires s * s + c * c == 1.0
    ensures RotateOut(PointAtParameter(RotateRay(r, s, c), t), s, c) == PointAtParameter(r, t)
  {
    RotateInPoint(r, t, s, c);
    RotationsInverse(PointAtParameter(r, t), s, c);
  }

  // ---------------------------------------------------------------------
  // The box computed by `RotateY::new`

  /** `f * hi + (1 - f) * lo`: `lo` for `f = 0` and `hi` for `f = 1`. */
  function Pick(f: real, lo: real, hi: real): (r: real)
    ensures f == 0.0 ==> r == lo
    ensures f == 1.0 ==> r == hi
  {
    f * hi + (1.0 - f) * lo
  }

  /** The rotated corner `(i, j, k)` of `box`, each of `i`, `j`, `k` being 0 or 1. */
  function Tester(box: Aabb, s: real, c: real, i: real, j: real, k: real): (t: Vec3)
    ensures t == RotateOut(Vec3(Pick(i, box.min.x, box.max.x), Pick(j, box.min.y, box.max.y), Pick(k, box.min.z, box.max.z)), s, c)
  {
    var x := Pick(i, box.min.x, box.max.x);
    var y := Pick(j, box.min.y, box.max.y);
    var z := Pick(k, box.min.z, box.max.z);
    Vec3(c * x + s * z, y, c * z - s * x)
  }

  /** The eight rotated corners in the order the loops visit them: corner `4 i + 2 j + k`. */
  function Testers(box: Aabb, s: real, c: real): (ts: seq<Vec3>)
    ensures |ts| == 8
  {
    seq(8, n requires 0 <= n < 8 => Tester(box, s, c, (n / 4) as real, (n / 2 % 2) as real, (n % 2) as real))
  }

  function MinVec(a: Vec3, b: Vec3): Vec3 {
    Vec3(Min(a.x, b.x), Min(a.y, b.y), Min(a.z, b.z))
  }

  function MaxVec(a: Vec3, b: Vec3): Vec3 {
    Vec3(Max(a.x, b.x), Max(a.y, b.y), Max(a.z, b.z))
  }

  /** The running minimum over `vs`, starting from `f32::MAX` on every axis. */
  function Lowest(vs: seq<Vec3>): Vec3 {
    if |vs| == 0 then Vec3(F32_MAX, F32_MAX, F32_MAX) else MinVec(Lowest(vs[..|vs| - 1]), vs[|vs| - 1])
  }

  /** The running maximum over `vs`, starting from `f32::MIN` on every axis. */
  function Highest(vs: seq<Vec3>): Vec3 {
    if |vs| == 0 then Vec3(F32_MIN, F32_MIN, F32_MIN) else MaxVec(Highest(vs[..|vs| - 1]), vs[|vs| - 1])
  }

  /** Two vectors that agree on every index are equal. */
  lemma EqualByIndex(a: Vec3, b: Vec3)
    requires forall q :: 0 <= q < 3 ==> a.Index(q) == b.Index(q)
    ensures a == b
  {
    assert a.Index(0) == b.Index(0) && a.Index(1) == b.Index(1) && a.Index(2) == b.Index(2);
  }

  /** Loop position `(i, j, k)` is corner `4 i + 2 j + k`. */
  lemma TesterAt(box: Aabb, s: real, c: real, i: int, j: int, k: int)
    requires 0 <= i < 2 && 0 <= j < 2 && 0 <= k < 2
    ensures Testers(box, s, c)[4 * i + 2 * j + k] == Tester(box, s, c, i as real, j as real, k as real)
  {
    var n := 4 * i + 2 * j + k;
    assert n / 4 == i && n / 2 % 2 == j && n % 2 == k;
  }

  /**
   * The loop of `RotateY::new`: for each of the eight corners of the
   * child's box, rotate it and fold each coordinate into the running
   * minimum and maximum.
   */
  method RotatedBox(box: Aabb, s: real, c: real) returns (b: Aabb)
    ensures b == Aabb(Lowest(Testers(box, s, c)), Highest(Testers(box, s, c)))
  {
    ghost var ts := Testers(box, s, c);
    var lo := Vec3(F32_MAX, F32_MAX, F32_MAX);
    var hi := Vec3(F32_MIN, F32_MIN, F32_MIN);
    for i := 0 to 2
      invariant lo == Lowest(ts[..4 * i]) && hi == Highest(ts[..4 * i])
    {
      for j := 0 to 2
        invariant lo == Lowest(ts[..4 * i + 2 * j]) && hi == Highest(ts[..4 * i + 2 * j])
      {
        for k := 0 to 2
          invariant lo == Lowest(ts[..4 * i + 2 * j + k]) && hi == Highest(ts[..4 * i + 2 * j + k])
        {
          var tester := Tester(box, s, c, i as real, j as real, k as real);
          TesterAt(box, s, c, i, j, k);
          FoldStep(ts, 4 * i + 2 * j + k);
          lo, hi := FoldCorner(lo, hi, tester);
        }
      }
    }
    assert ts[..8] == ts;
    b := Aabb(lo, hi);
  }

  /** The loop over the three axes: fold one rotated corner into the running minimum and maximum. */
  method FoldCorner(lo: Vec3, hi: Vec3, tester: Vec3) returns (lo': Vec3, hi': Vec3)
    ensures lo' == MinVec(lo, tester) && hi' == MaxVec(hi, tester)
  {
    lo', hi' := lo, hi;
    for a := 0 to 3
      invariant forall q :: 0 <= q < 3 ==> hi'.Index(q) == if q < a then Max(hi.Index(q), tester.Index(q)) else hi.Index(q)
      invariant forall q :: 0 <= q < 3 ==> lo'.Index(q) == if q < a then Min(lo.Index(q), tester.Index(q)) else lo.Index(q)
    {
      hi' := hi'.With(a, Max(hi'.Index(a), tester.Index(a)));
      lo' := lo'.With(a, Min(lo'.Index(a), tester.Index(a)));
    }
    EqualByIndex(hi', MaxVec(hi, tester));
    EqualByIndex(lo', MinVec(lo, tester));
  }

  /** Folding one more vector into the running minimum and maximum. */
  lemma FoldStep(vs: seq<Vec3>, n: nat)
    requires n < |vs|
    ensures Lowest(vs[..n + 1]) == MinVec(Lowest(vs[..n]), vs[n])
    ensures Highest(vs[..n + 1]) == MaxVec(Highest(vs[..n]), vs[n])
  {
    assert vs[..n + 1][..n] == vs[..n];
  }

  // ---------------------------------------------------------------------
  // Properties of the box

  /** The running minimum is at most, and the running maximum at least, every vector folded in. */
  lemma {:induction false} FoldBounds(vs: seq<Vec3>, n: nat)
    requires n < |vs|
    ensures Lowest(vs).x <= vs[n].x && Lowest(vs).y <= vs[n].y && Lowest(vs).z <= vs[n].z
    ensures vs[n].x <= Highest(vs).x && vs[n].y <= Highest(vs).y && vs[n].z <= Highest(vs).z
  {
    if n < |vs| - 1 {
      FoldBounds(vs[..|vs| - 1], n);
    }
  }

  /** Every rotated corner of the child's box lies in the computed box, so that box has `min <= max` on every axis. */
  lemma RotatedBoxContainsCorners(box: Aabb, s: real, c: real, n: nat)
    requires n < 8
    ensures var ts := Testers(box, s, c);
      Contains(Aabb(Lowest(ts), Highest(ts)), ts[n])
    ensures var ts := Testers(box, s, c);
      Lowest(ts).x <= Highest(ts).x && Lowest(ts).y <= Highest(ts).y && Lowest(ts).z <= Highest(ts).z
  {
    FoldBounds(Testers(box, s, c), n);
  }

  lemma {:induction false} LowestAtLeast(vs: seq<Vec3>, lo: real)
    requires lo <= F32_MAX
    requires forall n :: 0 <= n < |vs| ==> lo <= vs[n].y
    ensures lo <= Lowest(vs).y
  {
    if |vs| > 0 {
      LowestAtLeast(vs[..|vs| - 1], lo);
    }
  }

  lemma {:induction false} HighestAtMost(vs: seq<Vec3>, hi: real)
    requires F32_MIN <= hi
    requires forall n :: 0 <= n < |vs| ==> vs[n].y <= hi
    ensures Highest(vs).y <= hi
  {
    if |vs| > 0 {
      HighestAtMost(vs[..|vs| - 1], hi);
    }
  }

  /** When the folded `y` values are all at least `lo`, one of them is `lo`, and `lo` is no more than `f32::MAX`, the running minimum's `y` is `lo`. */
  lemma {:induction false} LowestY(vs: seq<Vec3>, lo: real, m: nat)
    requires lo <= F32_MAX && m < |vs| && vs[m].y == lo
    requires forall n :: 0 <= n < |vs| ==> lo <= vs[n].y
    ensures Lowest(vs).y == lo
  {
    var last := |vs| - 1;
    if m < last {
      LowestY(vs[..last], lo, m);
    } else {
      LowestAtLeast(vs[..last], lo);
    }
  }

  /** When the folded `y` values are all at most `hi`, one of them is `hi`, and `hi` is at least `f32::MIN`, the running maximum's `y` is `hi`. */
  lemma {:induction false} HighestY(vs: seq<Vec3>, hi: real, m: nat)
    requires F32_MIN <= hi && m < |vs| && vs[m].y == hi
    requires forall n :: 0 <= n < |vs| ==> vs[n].y <= hi
    ensures Highest(vs).y == hi
  {
    var last := |vs| - 1;
    if m < last {
      HighestY(vs[..last], hi, m);
    } else {
      HighestAtMost(vs[..last], hi);
    }
  }

  /** Each rotated corner keeps the `y` of a face of the box: corner 0 the lower face, corner 2 the upper one. */
  lemma TestersY(box: Aabb, s: real, c: real)
    requires box.min.y <= box.max.y
    ensures forall n :: 0 <= n < 8 ==> box.min.y <= Testers(box, s, c)[n].y <= box.max.y
    ensures Testers(box, s, c)[0].y == box.min.y && Testers(box, s, c)[2].y == box.max.y
  {
    forall n | 0 <= n < 8
      ensures box.min.y <= Testers(box, s, c)[n].y <= box.max.y
    {
      var j := n / 2 % 2;
      assert j == 0 || j == 1;
    }
  }

  /** The rotation leaves `y` alone, so the computed box has the child's `y` extent when that extent lies within the `f32` range. */
  lemma RotatedBoxYExtent(box: Aabb, s: real, c: real)
    requires F32_MIN <= box.min.y <= box.max.y <= F32_MAX
    ensures Lowest(Testers(box, s, c)).y == box.min.y
    ensures Highest(Testers(box, s, c)).y == box.max.y
  {
    var ts := Testers(box, s, c);
    TestersY(box, s, c);
    LowestY(ts, box.min.y, 0);
    HighestY(ts, box.max.y, 2);
  }
}
