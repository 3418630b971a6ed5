/** `Ray`: an origin `a`, a direction `b` and the shutter time at which it was cast. */
module Rays {
  import opened Vectors

  datatype Ray = Ray(origin: Vec3, direction: Vec3, time: real)

  /** `point_at_parameter(t)`: `a + b * t`. */
  function PointAtParameter(r: Ray, t: real): (p: Vec3)
    ensures Sub(p, r.origin) == Scale(r.direction, t)
  {
    Add(r.origin, Scale(r.direction, t))
  }

  /** The ray starts at its origin, and moving the parameter by `dt` moves the point by `dt` directions. */
  lemma PointAtParameterAffine(r: Ray, t: real, dt: real)
    ensures PointAtParameter(r, 0.0) == r.origin
    ensures Sub(PointAtParameter(r, t + dt), PointAtParameter(r, t)) == Scale(r.direction, dt)
  {
  }
}
