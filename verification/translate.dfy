/**
 * `Translate`: a child surface moved by `offset`.  A ray is moved into the
 * child's frame by subtracting the offset from its origin; a hit found there
 * is moved back by adding the offset to its point.  The child itself and the
 * dispatch to it are in `Hittables`; this module holds the frame changes.
 */
module Translations {
  import opened Vectors
  import opened Rays
  import opened Wrappers
  import opened Aabbs
  import opened HitRecords

  /** The ray the child receives: origin `r.origin() - offset`, same direction and time. */
  function MoveRay(r: Ray, offset: Vec3): (moved: Ray)
    ensures Add(moved.origin, offset) == r.origin
    ensures moved.direction == r.direction && moved.time == r.time
  {
    Ray(Sub(r.origin, offset), r.direction, r.time)
  }

  /** The child's record in world space: `p + offset`, every other field unchanged. */
  function MoveRecord(rec: HitRecord, offset: Vec3): (moved: HitRecord)
    ensures Sub(moved.p, offset) == rec.p
    ensures moved.t == rec.t && moved.normal == rec.normal && moved.u == rec.u && moved.v == rec.v
    ensures moved.mat == rec.mat
  {
    rec.(p := Add(rec.p, offset))
  }

  /** Moving a hit found on the moved ray gives the point of the original ray at the same parameter. */
  lemma MovedPointOnRay(r: Ray, offset: Vec3, t: real)
    ensures Add(PointAtParameter(MoveRay(r, offset), t), offset) == PointAtParameter(r, t)
  {
  }

  /** `bounding_box` of a translation: the child's box with both corners moved, `None` staying `None`. */
  function MoveBox(box: Option<Aabb>, offset: Vec3): (moved: Option<Aabb>)
    ensures moved.None? <==> box.None?
    ensures moved.Some? ==> Sub(moved.value.min, offset) == box.value.min && Sub(moved.value.max, offset) == box.value.max
  {
    match box
    case None => None
    case Some(b) => Some(Aabb(Add(b.min, offset), Add(b.max, offset)))
  }

  /** Moving a box keeps its extent, and a point lies in the moved box exactly when the point moved back lies in the box. */
  lemma MoveBoxLaws(b: Aabb, offset: Vec3, p: Vec3)
    ensures var moved := MoveBox(Some(b), offset).value;
      Sub(moved.max, moved.min) == Sub(b.max, b.min)
    ensures Contains(MoveBox(Some(b), offset).value, p) <==> Contains(b, Sub(p, offset))
  {
  }
}
