/**
 * `HitRecord`: where a ray met a surface.  The record carries the ray
 * parameter `t`, the point `p`, the surface normal, the texture coordinates
 * `u` and `v`, and the surface's material.
 */
module HitRecords {
  import opened Vectors
  import opened Materials

  datatype HitRecord = HitRecord(t: real, p: Vec3, normal: Vec3, u: real, v: real, mat: Material)
}
