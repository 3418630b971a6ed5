/**
 * `CornellBox`: the six walls of the axis-aligned box spanned by `p0` and
 * `p1`.  On each of the three planes the wall at `p1`'s coordinate is a
 * plain rectangle and the wall at `p0`'s coordinate is wrapped by
 * `flip_normals`; all six share one material.
 */
module CornellBoxes {
  import opened Intrinsics
  import opened Vectors
  import opened Rays
  import opened Wrappers
  import Aabbs
  import opened Materials
  import opened HitRecords
  import opened Rectangles
  import opened Hittables

  /** `CornellBox::new`. */
  function NewCornellBox(p0: Vec3, p1: Vec3, mat: Material): (box: Hittable)
    ensures box.CornellBox? && box.pmin == p0 && box.pmax == p1 && |box.sides| == 6
    ensures forall q :: 0 <= q < 3 ==>
      && box.sides[2 * q] == Wall(PlaneAt(q), p1, p0, p1, mat)
      && box.sides[2 * q + 1] == FlipNormals(Wall(PlaneAt(q), p0, p0, p1, mat))
    ensures WellFormed(box) <==> p0.x != p1.x && p0.y != p1.y && p0.z != p1.z
  {
    var sides := [
      Rect(XY, p0.x, p1.x, p0.y, p1.y, p1.z, mat),
      FlipNormals(Rect(XY, p0.x, p1.x, p0.y, p1.y, p0.z, mat)),
      Rect(XZ, p0.x, p1.x, p0.z, p1.z, p1.y, mat),
      FlipNormals(Rect(XZ, p0.x, p1.x, p0.z, p1.z, p0.y, mat)),
      Rect(YZ, p0.y, p1.y, p0.z, p1.z, p1.x, mat),
      FlipNormals(Rect(YZ, p0.y, p1.y, p0.z, p1.z, p0.x, mat))];
    assert AllWellFormed(sides) <==> p0.x != p1.x && p0.y != p1.y && p0.z != p1.z by {
      assert WellFormed(sides[0]) == WellFormed(sides[1]) == (p0.x != p1.x && p0.y != p1.y);
      assert WellFormed(sides[2]) == WellFormed(sides[3]) == (p0.x != p1.x && p0.z != p1.z);
      assert WellFormed(sides[4]) == WellFormed(sides[5]) == (p0.y != p1.y && p0.z != p1.z);
    }
    CornellBox(p0, p1, sides)
  }

  /** The planes in the order the walls are listed. */
  function PlaneAt(q: nat): Plane
    requires q < 3
  {
    if q == 0 then XY else if q == 1 then XZ else YZ
  }

  /**
   * The wall on `plane` through `at`'s coordinate on the plane's fixed axis,
   * spanning `p0` to `p1` on the two in-plane axes.
   */
  function Wall(plane: Plane, at: Vec3, p0: Vec3, p1: Vec3, mat: Material): Hittable {
    Rect(plane, p0.Index(AxisA(plane)), p1.Index(AxisA(plane)), p0.Index(AxisB(plane)), p1.Index(AxisB(plane)),
         at.Index(FixedAxis(plane)), mat)
  }

  /** The rectangle a wall is built on, with or without `flip_normals`. */
  function Panel(side: Hittable): Hittable {
    if side.FlipNormals? then side.child else side
  }

  /** Every wall is a rectangle of the box's material, and the box's own `bounding_box` is `(p0, p1)` at any time. */
  lemma CornellBoxLaws(p0: Vec3, p1: Vec3, mat: Material, t0: real, t1: real)
    requires p0.x != p1.x && p0.y != p1.y && p0.z != p1.z
    ensures var box := NewCornellBox(p0, p1, mat);
      forall i :: 0 <= i < 6 ==> Panel(box.sides[i]).Rect? && Panel(box.sides[i]).mat == mat
    ensures BoundingBox(NewCornellBox(p0, p1, mat), t0, t1) == Some(Aabbs.Aabb(p0, p1))
  {
    var box := NewCornellBox(p0, p1, mat);
    forall i | 0 <= i < 6
      ensures Panel(box.sides[i]).Rect? && Panel(box.sides[i]).mat == mat
    {
      assert box.sides[2 * (i / 2) + i % 2] == box.sides[i];
    }
  }

  /**
   * With `p0 < p1` on every axis, a hit on the box is the nearest hit among
   * its six walls, and its point lies in the box's `bounding_box`.
   */
  lemma CornellBoxHitInside(p0: Vec3, p1: Vec3, mat: Material, r: Ray, t0: real, t1: real, m: Math)
    requires p0.x < p1.x && p0.y < p1.y && p0.z < p1.z
    ensures var box := NewCornellBox(p0, p1, mat);
      var res := Hit(box, r, t0, t1, m);
      res.Some? ==> Aabbs.Contains(Aabbs.Aabb(p0, p1), res.value.p)
  {
    var box := NewCornellBox(p0, p1, mat);
    var res := Hit(box, r, t0, t1, m);
    ListHitFirstMinimum(box.sides, 6, r, t0, t1, m);
    if res.Some? {
      var i :| 0 <= i < 6 && Hit(box.sides[i], r, t0, t1, m) == res;
      SideHitInside(p0, p1, mat, i, r, t0, t1, m);
    }
  }

  /** Each of the six sides, flipped or not, is hit only inside the box. */
  lemma SideHitInside(p0: Vec3, p1: Vec3, mat: Material, i: nat, r: Ray, t0: real, t1: real, m: Math)
    requires p0.x < p1.x && p0.y < p1.y && p0.z < p1.z && i < 6
    ensures var side := NewCornellBox(p0, p1, mat).sides[i];
      WellFormed(side) &&
      (Hit(side, r, t0, t1, m).Some? ==> Aabbs.Contains(Aabbs.Aabb(p0, p1), Hit(side, r, t0, t1, m).value.p))
  {
    var box := NewCornellBox(p0, p1, mat);
    var q := i / 2;
    assert box.sides[2 * q + i % 2] == box.sides[i];
    var at := if i % 2 == 0 then p1 else p0;
    WallHitInside(PlaneAt(q), at, p0, p1, mat, r, t0, t1);
    assert Hit(box.sides[i], r, t0, t1, m).Some? ==>
      Hit(Panel(box.sides[i]), r, t0, t1, m).value.p == Hit(box.sides[i], r, t0, t1, m).value.p;
  }

  /** A wall through `p0`'s or `p1`'s coordinate is hit only inside the box spanned by the two. */
  lemma WallHitInside(plane: Plane, at: Vec3, p0: Vec3, p1: Vec3, mat: Material, r: Ray, t0: real, t1: real)
    requires p0.x < p1.x && p0.y < p1.y && p0.z < p1.z
    requires at == p0 || at == p1
    ensures var w := Wall(plane, at, p0, p1, mat);
      var res := RectHit(w.plane, w.a0, w.a1, w.b0, w.b1, w.k, mat, r, t0, t1);
      res.Some? ==> Aabbs.Contains(Aabbs.Aabb(p0, p1), res.value.p)
  {
    IndexMatchesAccessors(p0);
    IndexMatchesAccessors(p1);
    var w := Wall(plane, at, p0, p1, mat);
    RectHitOnRectangle(w.plane, w.a0, w.a1, w.b0, w.b1, w.k, mat, r, t0, t1);
    var res := RectHit(w.plane, w.a0, w.a1, w.b0, w.b1, w.k, mat, r, t0, t1);
    if res.Some? {
      ContainsByAxes(plane, Aabbs.Aabb(p0, p1), res.value.p);
    }
  }
}
