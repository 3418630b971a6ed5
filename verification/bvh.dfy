/**
 * `BVH`: the bounding-volume hierarchy.  `new` consumes a vector of
 * surfaces: it sorts them along a randomly drawn axis, then holds one or two
 * of them directly or splits the vector in half and builds a node for each
 * half.  Every node's box surrounds its children's boxes, and `hit` tries
 * the children only when the ray meets that box.
 */
module Bvhs {
  import opened Intrinsics
  import opened Vectors
  import opened Rays
  import opened Wrappers
  import Aabbs
  import opened HitRecords
  import opened Hittables
  import Materials
  import Rectangles
  import Spheres

  /** The vector `new` consumes: it is sorted, popped and split in place. */
  class HittableVec {
    var items: seq<Hittable>

    constructor (items: seq<Hittable>)
      ensures this.items == items
    {
      this.items := items;
    }

    function Len(): (n: nat)
      reads this
      ensures n == |items|
    {
      |items|
    }

    /** `sort_unstable_by` with the reversed comparison of the boxes' minima on `axis`. */
    method SortDescending(axis: nat)
      requires axis < 3
      modifies this
      ensures items == Sorted(old(items), KeyOn(axis))
    {
      items := Sorted(items, KeyOn(axis));
    }

    /** `pop`: remove and return the last element. */
    method Pop() returns (last: Hittable)
      requires |items| > 0
      modifies this
      ensures last == old(items)[|old(items)| - 1]
      ensures items == old(items)[..|old(items)| - 1]
    {
      last := items[|items| - 1];
      items := items[..|items| - 1];
    }

    /** `split_off(at)`: keep the first `at` elements and return the rest as a new vector. */
    method SplitOff(at: nat) returns (rest: HittableVec)
      requires at <= |items|
      modifies this
      ensures fresh(rest)
      ensures rest.items == old(items)[at..] && items == old(items)[..at]
    {
      rest := new HittableVec(items[at..]);
      items := items[..at];
    }
  }

  /** The thread's random generator: `gen_range(0, 3)` returns the next of the given draws. */
  class Rng {
    const draws: nat -> nat
    var taken: nat

    constructor (draws: nat -> nat)
      ensures this.draws == draws && taken == 0
    {
      this.draws := draws;
      taken := 0;
    }

    ghost predicate Valid() {
      forall k :: draws(k) < 3
    }

    method GenAxis() returns (axis: nat)
      requires Valid()
      modifies this
      ensures axis == draws(old(taken)) && axis < 3
      ensures taken == old(taken) + 1
    {
      axis := draws(taken);
      taken := taken + 1;
    }
  }

  // ---------------------------------------------------------------------
  // Sorting

  /** Every surface is well formed and has a box at time 0, as the sort's `expect` demands. */
  predicate Boxed(items: seq<Hittable>) {
    forall i :: 0 <= i < |items| ==> WellFormed(items[i]) && BoundingBox(items[i], 0.0, 0.0).Some?
  }

  /**
   * The sort key: the minimum of the surface's box at time 0 along `axis`.
   * A surface without one makes the source's `expect` panic; `new` demands
   * `Boxed`, so the value given here for it is never compared.
   */
  function Key(h: Hittable, axis: nat): real
    requires axis < 3
  {
    if WellFormed(h) && BoundingBox(h, 0.0, 0.0).Some? then BoundingBox(h, 0.0, 0.0).value.min.Index(axis) else 0.0
  }

  /** Keys never increase from one element to the next. */
  predicate Descending(items: seq<Hittable>, key: Hittable -> real) {
    forall i, j :: 0 <= i < j < |items| ==> key(items[j]) <= key(items[i])
  }

  /** `x` placed into a descending sequence before the first element whose key is not larger. */
  function Insert(x: Hittable, s: seq<Hittable>, key: Hittable -> real): (res: seq<Hittable>)
    requires Descending(s, key)
    ensures multiset(res) == multiset(s) + multiset{x}
    ensures Descending(res, key)
  {
    if |s| == 0 || key(s[0]) <= key(x) then
      [x] + s
    else
      var tail := Insert(x, s[1..], key);
      assert s == [s[0]] + s[1..];
      KeysBounded(tail, x, s[1..], key, key(s[0]));
      [s[0]] + tail
  }

  /** A reordering of `rest` plus `x` keeps every key within a bound that `x` and all of `rest` keep. */
  lemma KeysBounded(res: seq<Hittable>, x: Hittable, rest: seq<Hittable>, key: Hittable -> real, bound: real)
    requires multiset(res) == multiset(rest) + multiset{x}
    requires key(x) <= bound && forall i :: 0 <= i < |rest| ==> key(rest[i]) <= bound
    ensures forall i :: 0 <= i < |res| ==> key(res[i]) <= bound
  {
    forall i | 0 <= i < |res|
      ensures key(res[i]) <= bound
    {
      assert res[i] in multiset(res);
      if res[i] != x {
        assert res[i] in multiset(rest);
      }
    }
  }

  /** An ordering of `items` by descending key; ties may fall in any order, as in `sort_unstable_by`. */
  function Sorted(items: seq<Hittable>, key: Hittable -> real): (res: seq<Hittable>)
    ensures multiset(res) == multiset(items)
    ensures Descending(res, key)
  {
    if |items| == 0 then []
    else
      assert items == [items[0]] + items[1..];
      Insert(items[0], Sorted(items[1..], key), key)
  }

  /** The comparison `sort_unstable_by` is given, as a key: the box minimum along `axis`. */
  function KeyOn(axis: nat): Hittable -> real
    requires axis < 3
  {
    h => Key(h, axis)
  }

  // ---------------------------------------------------------------------
  // Construction

  /** Where `new` splits a vector of `n` surfaces: `split_off(n / 2)`; for three or more, both parts are non-empty. */
  function Half(n: nat): (k: nat)
    ensures n >= 3 ==> 1 <= k < n && 1 <= n - k < n
  {
    n / 2
  }

  /** The size of the upper part `split_off(n / 2)` returns. */
  function Rest(n: nat): (k: nat)
    ensures k + Half(n) == n
    ensures n >= 3 ==> 1 <= k < n
  {
    n - n / 2
  }

  /**
   * The surfaces a node built from `n` surfaces holds, read off the shape
   * `new` gives it: one leaf for one surface, two for two, and for more the
   * leaves of a node built from the upper `Rest(n)` and of one built
   * from the lower `Half(n)`.
   */
  ghost function Leaves(node: Hittable, n: nat): multiset<Hittable>
    decreases n
  {
    if n == 1 && node.BvhSingle? then multiset{node.left}
    else if n == 2 && node.BvhDouble? then multiset{node.left, node.right}
    else if n >= 3 && node.BvhDouble? then Leaves(node.left, Rest(n)) + Leaves(node.right, Half(n))
    else multiset{}
  }

  /** Every surface of `items` has a box under `boxOf`, and that box lies within `box`. */
  ghost predicate EnclosesEach(box: Aabbs.Aabb, items: seq<Hittable>, boxOf: Hittable -> Option<Aabbs.Aabb>) {
    forall x :: x in items ==> boxOf(x).Some? && Aabbs.Encloses(box, boxOf(x).value)
  }

  /** `bounding_box(t0, t1)` of a well-formed surface, as a function of the surface. */
  function BoxesAt(t0: real, t1: real): Hittable -> Option<Aabbs.Aabb> {
    h => if WellFormed(h) then BoundingBox(h, t0, t1) else None
  }

  /**
   * A node's box is its child's box (`Single`) or surrounds its two
   * children's boxes (`Double`).
   */
  predicate NodeBoxes(node: Hittable, t0: real, t1: real)
    requires (node.BvhSingle? || node.BvhDouble?) && WellFormed(node)
  {
    if node.BvhSingle? then BoundingBox(node.left, t0, t1) == Some(node.box)
    else
      && BoundingBox(node.left, t0, t1).Some? && BoundingBox(node.right, t0, t1).Some?
      && node.box == Aabbs.SurroundingBox(BoundingBox(node.left, t0, t1).value, BoundingBox(node.right, t0, t1).value)
  }

  /**
   * `BVH::new`.  The vector must be non-empty and every surface must have a
   * box.  It is left empty; the node's leaves are exactly its former
   * elements, and the node's box surrounds the box of each of them.  A
   * `Single` node's box is its child's box and a `Double` node's box
   * surrounds its two children's boxes.
   */
  method NewBvh(l: HittableVec, time0: real, time1: real, rng: Rng) returns (node: Hittable)
    requires |l.items| > 0 && Boxed(l.items) && rng.Valid()
    modifies l, rng
    decreases |l.items|, 1
    ensures l.items == []
    ensures (node.BvhSingle? || node.BvhDouble?) && WellFormed(node) && NodeBoxes(node, time0, time1)
    ensures Leaves(node, |old(l.items)|) == multiset(old(l.items))
    ensures EnclosesEach(node.box, old(l.items), BoxesAt(time0, time1))
  {
    ghost var input := l.items;
    var axis := rng.GenAxis();
    l.SortDescending(axis);
    ghost var sorted := l.items;
    SortedBoxed(input, sorted);
    var len := l.Len();
    if len <= 2 {
      node := NewLeafNode(l, time0, time1);
    } else {
      node := NewSplitNode(l, time0, time1, rng);
    }
    Transfer(node, input, sorted, BoxesAt(time0, time1));
  }

  /** The arms of `new` for one and for two surfaces, which hold them directly. */
  method NewLeafNode(l: HittableVec, time0: real, time1: real) returns (node: Hittable)
    requires 1 <= |l.items| <= 2 && Boxed(l.items)
    modifies l
    ensures l.items == []
    ensures (node.BvhSingle? || node.BvhDouble?) && WellFormed(node) && NodeBoxes(node, time0, time1)
    ensures Leaves(node, |old(l.items)|) == multiset(old(l.items))
    ensures EnclosesEach(node.box, old(l.items), BoxesAt(time0, time1))
  {
    ghost var sorted := l.items;
    if l.Len() == 1 {
      var left := l.Pop();
      assert sorted == [left];
      BoxExistsAnyTime(left, 0.0, 0.0, time0, time1);
      node := BvhSingle(left, BoundingBox(left, time0, time1).value);
      SingleLaws(left, time0, time1);
    } else {
      var left := l.Pop();
      var right := l.Pop();
      assert sorted == [right, left];
      BoxExistsAnyTime(left, 0.0, 0.0, time0, time1);
      BoxExistsAnyTime(right, 0.0, 0.0, time0, time1);
      node := BvhDouble(left, right,
        Aabbs.SurroundingBox(BoundingBox(left, time0, time1).value, BoundingBox(right, time0, time1).value));
      DoubleLaws(left, right, time0, time1);
    }
  }

  /** The arm of `new` for three or more surfaces: build a node from each half and join them. */
  method NewSplitNode(l: HittableVec, time0: real, time1: real, rng: Rng) returns (node: Hittable)
    requires |l.items| >= 3 && Boxed(l.items) && rng.Valid()
    modifies l, rng
    decreases |l.items|, 0
    ensures l.items == []
    ensures (node.BvhSingle? || node.BvhDouble?) && WellFormed(node) && NodeBoxes(node, time0, time1)
    ensures Leaves(node, |old(l.items)|) == multiset(old(l.items))
    ensures EnclosesEach(node.box, old(l.items), BoxesAt(time0, time1))
  {
    ghost var sorted := l.items;
    var len := l.Len();
    var k := Half(len);
    BoxedHalves(sorted, k);
    var rest := l.SplitOff(k);
    assert |rest.items| == Rest(len) && |l.items| == k;
    var left := NewBvh(rest, time0, time1, rng);
    var right := NewBvh(l, time0, time1, rng);
    node := BvhDouble(left, right, Aabbs.SurroundingBox(left.box, right.box));
    SplitLaws(sorted, k, left, right, BoxesAt(time0, time1));
  }

  /** The sorted vector has the input's length and members, so it is boxed too. */
  lemma SortedBoxed(input: seq<Hittable>, sorted: seq<Hittable>)
    requires Boxed(input) && multiset(sorted) == multiset(input)
    ensures Boxed(sorted) && |sorted| == |input|
  {
    SameMembers(input, sorted);
    forall i | 0 <= i < |sorted|
      ensures WellFormed(sorted[i]) && BoundingBox(sorted[i], 0.0, 0.0).Some?
    {
      assert sorted[i] in input;
    }
  }

  /** What holds of a node for the sorted vector holds for the input it was sorted from. */
  lemma Transfer(node: Hittable, input: seq<Hittable>, sorted: seq<Hittable>, boxOf: Hittable -> Option<Aabbs.Aabb>)
    requires node.BvhSingle? || node.BvhDouble?
    requires multiset(sorted) == multiset(input)
    requires Leaves(node, |sorted|) == multiset(sorted) && EnclosesEach(node.box, sorted, boxOf)
    ensures Leaves(node, |input|) == multiset(input) && EnclosesEach(node.box, input, boxOf)
  {
    SameMembers(input, sorted);
  }

  /** A `Single` node holds its one surface, inside its box. */
  lemma SingleLaws(left: Hittable, t0: real, t1: real)
    requires WellFormed(left) && BoundingBox(left, t0, t1).Some?
    ensures var node := BvhSingle(left, BoundingBox(left, t0, t1).value);
      Leaves(node, 1) == multiset([left]) && EnclosesEach(node.box, [left], BoxesAt(t0, t1))
  {
  }

  /** A `Double` node built from two surfaces holds both, inside its box. */
  lemma DoubleLaws(left: Hittable, right: Hittable, t0: real, t1: real)
    requires WellFormed(left) && BoundingBox(left, t0, t1).Some?
    requires WellFormed(right) && BoundingBox(right, t0, t1).Some?
    ensures var node := BvhDouble(left, right, Aabbs.SurroundingBox(BoundingBox(left, t0, t1).value, BoundingBox(right, t0, t1).value));
      Leaves(node, 2) == multiset([right, left]) && EnclosesEach(node.box, [right, left], BoxesAt(t0, t1))
  {
    var node := BvhDouble(left, right, Aabbs.SurroundingBox(BoundingBox(left, t0, t1).value, BoundingBox(right, t0, t1).value));
  }

  /** A `Double` node over the nodes built from the two halves holds the surfaces of both, inside its box. */
  lemma SplitLaws(sorted: seq<Hittable>, k: nat, left: Hittable, right: Hittable, boxOf: Hittable -> Option<Aabbs.Aabb>)
    requires 3 <= |sorted| && k == Half(|sorted|)
    requires left.BvhSingle? || left.BvhDouble?
    requires right.BvhSingle? || right.BvhDouble?
    requires Leaves(left, Rest(|sorted|)) == multiset(sorted[k..]) && EnclosesEach(left.box, sorted[k..], boxOf)
    requires Leaves(right, k) == multiset(sorted[..k]) && EnclosesEach(right.box, sorted[..k], boxOf)
    ensures var node := BvhDouble(left, right, Aabbs.SurroundingBox(left.box, right.box));
      Leaves(node, |sorted|) == multiset(sorted) && EnclosesEach(node.box, sorted, boxOf)
  {
    var node := BvhDouble(left, right, Aabbs.SurroundingBox(left.box, right.box));
    SplitLeaves(sorted, k, node);
    SplitEncloses(sorted, k, left.box, right.box, boxOf);
  }

  lemma SplitLeaves(sorted: seq<Hittable>, k: nat, node: Hittable)
    requires 3 <= |sorted| && k == Half(|sorted|) && node.BvhDouble?
    requires Leaves(node.left, Rest(|sorted|)) == multiset(sorted[k..])
    requires Leaves(node.right, k) == multiset(sorted[..k])
    ensures Leaves(node, |sorted|) == multiset(sorted)
  {
    MultisetOfJoin(sorted[k..], sorted[..k]);
    RotatedMultiset(sorted, k);
  }

  /** Moving a prefix to the back keeps the multiset. */
  lemma RotatedMultiset(s: seq<Hittable>, k: nat)
    requires k <= |s|
    ensures multiset(s[k..] + s[..k]) == multiset(s)
  {
    assert s == s[..k] + s[k..];
  }

  lemma SplitEncloses(sorted: seq<Hittable>, k: nat, lbox: Aabbs.Aabb, rbox: Aabbs.Aabb, boxOf: Hittable -> Option<Aabbs.Aabb>)
    requires k <= |sorted|
    requires EnclosesEach(lbox, sorted[k..], boxOf) && EnclosesEach(rbox, sorted[..k], boxOf)
    ensures EnclosesEach(Aabbs.SurroundingBox(lbox, rbox), sorted, boxOf)
  {
    var box := Aabbs.SurroundingBox(lbox, rbox);
    EnclosesEachJoin(box, lbox, rbox, sorted[k..], sorted[..k], boxOf);
    assert sorted == sorted[..k] + sorted[k..];
    MultisetOfJoin(sorted[..k], sorted[k..]);
    MultisetOfJoin(sorted[k..], sorted[..k]);
    SameMembers(sorted, sorted[k..] + sorted[..k]);
    EnclosesEachSame(box, sorted, sorted[k..] + sorted[..k], boxOf);
  }

  lemma MultisetOfJoin(a: seq<Hittable>, b: seq<Hittable>)
    ensures multiset(a + b) == multiset(a) + multiset(b)
  {
  }

  /** Two orderings of the same surfaces have the same length and the same members. */
  lemma SameMembers(a: seq<Hittable>, b: seq<Hittable>)
    requires multiset(a) == multiset(b)
    ensures |a| == |b| && forall x :: x in a <==> x in b
  {
    assert |multiset(a)| == |a| && |multiset(b)| == |b|;
    forall x
      ensures x in a <==> x in b
    {
      assert x in a <==> x in multiset(a);
      assert x in b <==> x in multiset(b);
    }
  }

  /** Both halves of a sequence of boxed surfaces are boxed, and they make up the whole. */
  lemma BoxedHalves(s: seq<Hittable>, k: nat)
    requires Boxed(s) && k <= |s|
    ensures Boxed(s[..k]) && Boxed(s[k..])
    ensures s == s[..k] + s[k..] && multiset(s) == multiset(s[k..] + s[..k])
  {
    assert s == s[..k] + s[k..];
  }

  lemma EnclosesEachSame(box: Aabbs.Aabb, a: seq<Hittable>, b: seq<Hittable>, boxOf: Hittable -> Option<Aabbs.Aabb>)
    requires forall x :: x in a <==> x in b
    requires EnclosesEach(box, b, boxOf)
    ensures EnclosesEach(box, a, boxOf)
  {
  }

  /** A box enclosing two boxes encloses everything each of them encloses. */
  lemma EnclosesEachJoin(box: Aabbs.Aabb, lbox: Aabbs.Aabb, rbox: Aabbs.Aabb, a: seq<Hittable>, b: seq<Hittable>,
                          boxOf: Hittable -> Option<Aabbs.Aabb>)
    requires Aabbs.Encloses(box, lbox) && Aabbs.Encloses(box, rbox)
    requires EnclosesEach(lbox, a, boxOf) && EnclosesEach(rbox, b, boxOf)
    ensures EnclosesEach(box, a + b, boxOf)
  {
  }

  // ---------------------------------------------------------------------
  // hit

  /** A BVH node whose box the ray misses reports no hit. */
  lemma BvhMissesOutsideBox(node: Hittable, r: Ray, tMin: real, tMax: real, m: Math)
    requires (node.BvhSingle? || node.BvhDouble?) && WellFormed(node)
    requires !Aabbs.HitFrom(node.box, r, 0, tMin, tMax)
    ensures Hit(node, r, tMin, tMax, m).None?
  {
  }

  /**
   * A `Double` node whose box the ray meets returns `None` exactly when
   * neither child is hit, and otherwise the child hit with the smaller `t`,
   * the right child's on equal `t`.
   */
  lemma BvhDoubleHit(left: Hittable, right: Hittable, box: Aabbs.Aabb, r: Ray, tMin: real, tMax: real, m: Math)
    requires WellFormed(left) && WellFormed(right) && Aabbs.HitFrom(box, r, 0, tMin, tMax)
    ensures var res := Hit(BvhDouble(left, right, box), r, tMin, tMax, m);
      var lh, rh := Hit(left, r, tMin, tMax, m), Hit(right, r, tMin, tMax, m);
      && (res.None? <==> lh.None? && rh.None?)
      && (res == lh || res == rh)
      && (lh.Some? && rh.Some? ==> res.value.t <= lh.value.t && res.value.t <= rh.value.t)
      && (lh.Some? && rh.Some? && lh.value.t == rh.value.t ==> res == rh)
  {
  }

  /** A node built from `n` surfaces holds at most `n` of them. */
  lemma {:induction false} LeavesAtMost(node: Hittable, n: nat)
    ensures |Leaves(node, n)| <= n
    decreases n
  {
    if n >= 3 && node.BvhDouble? {
      LeavesAtMost(node.left, Rest(n));
      LeavesAtMost(node.right, Half(n));
    }
  }

  /**
   * Whatever a node that holds all `n` of its surfaces reports is exactly
   * what one of those surfaces reports on its own: the traversal never
   * invents a hit.
   */
  lemma {:induction false} BvhHitIsLeafHit(node: Hittable, n: nat, r: Ray, tMin: real, tMax: real, m: Math)
    requires WellFormed(node) && n >= 1 && |Leaves(node, n)| == n
    ensures var res := Hit(node, r, tMin, tMax, m);
      res.Some? ==> exists x :: x in Leaves(node, n) && WellFormed(x) && Hit(x, r, tMin, tMax, m) == res
    decreases n
  {
    var res := Hit(node, r, tMin, tMax, m);
    if res.Some? {
      if n == 1 {
        assert node.BvhSingle?;
        assert node.left in Leaves(node, n);
      } else if n == 2 {
        assert node.BvhDouble?;
        if res == Hit(node.left, r, tMin, tMax, m) {
          assert node.left in Leaves(node, n);
        } else {
          assert node.right in Leaves(node, n);
        }
      } else {
        assert node.BvhDouble?;
        LeavesAtMost(node.left, Rest(n));
        LeavesAtMost(node.right, Half(n));
        if res == Hit(node.left, r, tMin, tMax, m) {
          BvhHitIsLeafHit(node.left, Rest(n), r, tMin, tMax, m);
          var x :| x in Leaves(node.left, Rest(n)) && WellFormed(x) && Hit(x, r, tMin, tMax, m) == res;
          assert x in Leaves(node, n);
        } else {
          BvhHitIsLeafHit(node.right, Half(n), r, tMin, tMax, m);
          var x :| x in Leaves(node.right, Half(n)) && WellFormed(x) && Hit(x, r, tMin, tMax, m) == res;
          assert x in Leaves(node, n);
        }
      }
    }
  }

  /**
   * For a tree `new` builds from `items` (its leaves are the items), every
   * hit the tree reports is the hit of one of the items.
   */
  lemma BuiltBvhHitIsItemHit(node: Hittable, items: seq<Hittable>, r: Ray, tMin: real, tMax: real, m: Math)
    requires WellFormed(node) && AllWellFormed(items) && |items| >= 1
    requires Leaves(node, |items|) == multiset(items)
    ensures var res := Hit(node, r, tMin, tMax, m);
      res.Some? ==> exists i :: 0 <= i < |items| && Hit(items[i], r, tMin, tMax, m) == res
  {
    var res := Hit(node, r, tMin, tMax, m);
    if res.Some? {
      BvhHitIsLeafHit(node, |items|, r, tMin, tMax, m);
      var x :| x in Leaves(node, |items|) && WellFormed(x) && Hit(x, r, tMin, tMax, m) == res;
      assert x in multiset(items);
      var i :| 0 <= i < |items| && items[i] == x;
    }
  }

  // ---------------------------------------------------------------------
  // A tree is not a list scan

  /** The unit square in the plane `z = 0`. */
  function UnitSquare(mat: Materials.Material): Hittable {
    Rect(Rectangles.XY, 0.0, 1.0, 0.0, 1.0, 0.0, mat)
  }

  /** A ray, cast at any time, that reaches the corner `(0, 0, 0)` of the unit square at `t = 1`. */
  predicate Grazing(r: Ray) {
    r.origin == Vec3(-1.0, 1.0, 1.0) && r.direction == Vec3(1.0, -1.0, -1.0)
  }

  /** The box `new` gives the unit square: `[0, 1]` on `x` and `y`, padded around `z = 0`. */
  lemma UnitSquareBox()
    ensures var b := Rectangles.RectBox(Rectangles.XY, 0.0, 1.0, 0.0, 1.0, 0.0);
      b.min.x == 0.0 && b.max.x == 1.0 && b.min.y == 0.0 && b.max.y == 1.0
  {
  }

  /** The `x` slab narrows `(0, 10)` to `(1, 2)`, and the `y` slab then to `(1, 1)`. */
  lemma GrazingSlabs()
    ensures Aabbs.SlabStep(0.0, 1.0, -1.0, 1.0, 0.0, 10.0) == Some((1.0, 2.0))
    ensures Aabbs.SlabStep(0.0, 1.0, 1.0, -1.0, 1.0, 2.0) == Some((1.0, 1.0))
  {
  }

  lemma GrazingSlabSteps(b: Aabbs.Aabb, r: Ray)
    requires Grazing(r) && b.min.x == 0.0 && b.max.x == 1.0 && b.min.y == 0.0 && b.max.y == 1.0
    ensures Aabbs.Slab(b, r, 0, 0.0, 10.0) == Some((1.0, 2.0))
    ensures Aabbs.Slab(b, r, 1, 1.0, 2.0) == Some((1.0, 1.0))
  {
    GrazingSlabs();
  }

  /** The slab test rejects the square's box: the `y` slab is entered and left at the same `t`. */
  lemma GrazingMissesBox(r: Ray)
    requires Grazing(r)
    ensures !Aabbs.HitFrom(Rectangles.RectBox(Rectangles.XY, 0.0, 1.0, 0.0, 1.0, 0.0), r, 0, 0.0, 10.0)
  {
    var b := Rectangles.RectBox(Rectangles.XY, 0.0, 1.0, 0.0, 1.0, 0.0);
    UnitSquareBox();
    GrazingSlabSteps(b, r);
    assert !Aabbs.HitFrom(b, r, 1, 1.0, 2.0);
  }

  /** The grazing ray crosses the plane `z = 0` at `t = 1`, at the corner `(0, 0)` of the square. */
  lemma GrazingCrossing(r: Ray)
    requires Grazing(r)
    ensures Rectangles.Crossing(Rectangles.XY, 0.0, r) == Some(1.0)
  {
  }

  lemma GrazingCorner(r: Ray)
    requires Grazing(r)
    ensures Rectangles.InPlane(r, 1.0, 0) == 0.0 && Rectangles.InPlane(r, 1.0, 1) == 0.0
  {
  }

  /** The closed rectangle test accepts a ray that crosses the plane at a corner, inside the interval. */
  lemma CornerHitsSquare(mat: Materials.Material, r: Ray, m: Math)
    requires Rectangles.Crossing(Rectangles.XY, 0.0, r) == Some(1.0)
    requires Rectangles.InPlane(r, 1.0, 0) == 0.0 && Rectangles.InPlane(r, 1.0, 1) == 0.0
    ensures Hit(UnitSquare(mat), r, 0.0, 10.0, m).Some?
  {
    Rectangles.RectHitExact(Rectangles.XY, 0.0, 1.0, 0.0, 1.0, 0.0, mat, r, 0.0, 10.0);
  }

  lemma GrazingHitsSquare(mat: Materials.Material, r: Ray, m: Math)
    requires Grazing(r)
    ensures Hit(UnitSquare(mat), r, 0.0, 10.0, m).Some?
  {
    GrazingCrossing(r);
    GrazingCorner(r);
    CornerHitsSquare(mat, r, m);
  }

  /**
   * A one-surface tree disagrees with the one-surface list whenever the
   * surface is hit by a ray that misses the node's box.
   */
  lemma SingleLeafDisagrees(x: Hittable, box: Aabbs.Aabb, r: Ray, tMin: real, tMax: real, m: Math)
    requires WellFormed(x) && Hit(x, r, tMin, tMax, m).Some? && !Aabbs.HitFrom(box, r, 0, tMin, tMax)
    ensures WellFormed(BvhSingle(x, box)) && Leaves(BvhSingle(x, box), 1) == multiset{x}
    ensures Hit(List([x]), r, tMin, tMax, m).Some? && Hit(BvhSingle(x, box), r, tMin, tMax, m).None?
  {
    assert ListHit([x], 1, r, tMin, tMax, m) == Earlier(None, Hit(x, r, tMin, tMax, m));
  }

  /**
   * The tree `new` builds for the single surface `UnitSquare` misses a
   * grazing ray that the list holding the same surface hits: a strict slab
   * test on a box whose faces pass through the rectangle's edges rejects
   * rays that the closed rectangle test accepts.
   */
  lemma BvhMissesGrazingHit(mat: Materials.Material, sq: Hittable, box: Aabbs.Aabb, r: Ray, m: Math)
    requires sq == UnitSquare(mat) && box == Rectangles.RectBox(Rectangles.XY, 0.0, 1.0, 0.0, 1.0, 0.0)
    requires Grazing(r)
    ensures WellFormed(BvhSingle(sq, box)) && Leaves(BvhSingle(sq, box), 1) == multiset{sq}
    ensures Hit(List([sq]), r, 0.0, 10.0, m).Some?
    ensures Hit(BvhSingle(sq, box), r, 0.0, 10.0, m).None?
  {
    GrazingHitsSquare(mat, r, m);
    GrazingMissesBox(r);
    SingleLeafDisagrees(sq, box, r, 0.0, 10.0, m);
  }

  /**
   * A node over a sphere of negative radius, boxed as `bounding_box` boxes
   * it, reports no hit at all: the inside-out box is never entered.
   */
  lemma BvhDropsNegativeSphere(center: Vec3, radius: real, mat: Materials.Material, t0: real, t1: real,
                               r: Ray, tMin: real, tMax: real, m: Math)
    requires radius < 0.0
    ensures BoundingBox(Sphere(center, radius, mat), t0, t1) == Some(Spheres.RadiusBox(center, radius))
    ensures Hit(BvhSingle(Sphere(center, radius, mat), Spheres.RadiusBox(center, radius)), r, tMin, tMax, m).None?
  {
    Spheres.NegativeRadiusBoxNeverHit(center, radius, r, tMin, tMax);
  }
}
