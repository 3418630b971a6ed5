/**
 * The pinhole camera: it sits at the origin looking down the negative z
 * axis at an image plane one unit away, whose height is fixed by the
 * vertical field of view and whose width by the aspect ratio.
 */
module Cameras {
  import opened Intrinsics
  import opened Vectors
  import opened Rays

  datatype Camera = Camera(origin: Vec3, lowerLeftCorner: Vec3, horizontal: Vec3, vertical: Vec3)

  /** Half the height of the image plane for a vertical field of view of `vfov` degrees. */
  function HalfHeight(vfov: real, m: Math): real {
    m.tan(vfov * PI / 180.0 / 2.0)
  }

  /** `Camera::new(vfov, aspect)`. */
  function NewCamera(vfov: real, aspect: real, m: Math): (c: Camera)
    ensures var hh := HalfHeight(vfov, m); var hw := aspect * hh;
      && c.origin == Zero
      && c.horizontal == Vec3(2.0 * hw, 0.0, 0.0) && c.vertical == Vec3(0.0, 2.0 * hh, 0.0)
      && Add(c.lowerLeftCorner, Add(ScaleLeft(0.5, c.horizontal), ScaleLeft(0.5, c.vertical))) == Vec3(0.0, 0.0, -1.0)
  {
    var halfHeight := HalfHeight(vfov, m);
    var halfWidth := aspect * halfHeight;
    Camera(Zero, Vec3(-halfWidth, -halfHeight, -1.0), Vec3(2.0 * halfWidth, 0.0, 0.0), Vec3(0.0, 2.0 * halfHeight, 0.0))
  }

  /** `get_ray(u, v)`: the ray from the camera through point `(u, v)` of the image plane, cast at time 0. */
  function GetRay(c: Camera, u: real, v: real): (r: Ray)
    ensures r.origin == c.origin && r.time == 0.0
    ensures Add(r.direction, c.origin) == Add(Add(c.lowerLeftCorner, ScaleLeft(u, c.horizontal)), ScaleLeft(v, c.vertical))
  {
    Ray(c.origin, Sub(Add(Add(c.lowerLeftCorner, ScaleLeft(u, c.horizontal)), ScaleLeft(v, c.vertical)), c.origin), 0.0)
  }

  /**
   * For a camera built by `Camera::new`, the ray through `(u, v)` points at
   * `((2u - 1) w, (2v - 1) h, -1)` for half-width `w` and half-height `h`:
   * the corners `(0, 0)` and `(1, 1)` are the plane's lower-left and
   * upper-right corners, and the centre looks straight down the z axis.
   */
  lemma RayThroughImagePlane(vfov: real, aspect: real, u: real, v: real, m: Math)
    ensures var hh := HalfHeight(vfov, m); var hw := aspect * hh;
      GetRay(NewCamera(vfov, aspect, m), u, v).direction == Vec3((2.0 * u - 1.0) * hw, (2.0 * v - 1.0) * hh, -1.0)
    ensures var hh := HalfHeight(vfov, m); var hw := aspect * hh;
      && GetRay(NewCamera(vfov, aspect, m), 0.0, 0.0).direction == Vec3(-hw, -hh, -1.0)
      && GetRay(NewCamera(vfov, aspect, m), 1.0, 1.0).direction == Vec3(hw, hh, -1.0)
      && GetRay(NewCamera(vfov, aspect, m), 0.5, 0.5).direction == Vec3(0.0, 0.0, -1.0)
  {
  }
}
