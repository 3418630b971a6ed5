/**
 * `Material::scatter`: what a material does with a ray that hit it.  Glass
 * reflects or refracts with no attenuation, a diffuse surface scatters
 * towards a random point around the normal, a light absorbs, and metal
 * reflects with a fuzz and absorbs rays scattered below the surface.
 *
 * The random numbers are parameters: `sample` is the point
 * `random_in_unit_sphere` returned and `draw` the uniform number glass
 * compares with its reflectance.
 */
module Scattering {
  import opened Intrinsics
  import opened Vectors
  import opened Wrappers
  import opened Rays
  import Perlin
  import opened Textures
  import opened Materials
  import opened HitRecords

  /** What `scatter` needs to avoid dividing by zero: a non-zero incoming direction for glass and metal, a glass index other than 0 and -1, and a well-formed diffuse texture. */
  predicate CanScatter(mat: Material, rIn: Ray, m: Math) {
    match mat
    case Glass(refIdx) => Length(rIn.direction, m) != 0.0 && refIdx != 0.0 && 1.0 + refIdx != 0.0
    case Diffuse(albedo) => WellFormed(albedo)
    case Light(_) => true
    case Metal(_, _) => Length(rIn.direction, m) != 0.0
  }

  /**
   * The surface as glass sees it: a ray leaving the glass (its direction on
   * the side of the normal) meets the flipped normal with index ratio
   * `ref_idx`; a ray entering meets the normal with ratio `1 / ref_idx`.  The
   * third component is the cosine Schlick's approximation is given.
   */
  function GlassInterface(refIdx: real, d: Vec3, normal: Vec3, m: Math): (g: (Vec3, real, real))
    requires Length(d, m) != 0.0 && refIdx != 0.0
    ensures Dot(d, normal) > 0.0 ==> g.0 == Neg(normal) && g.1 == refIdx
    ensures Dot(d, normal) <= 0.0 ==> g.0 == normal && g.1 * refIdx == 1.0
  {
    if Dot(d, normal) > 0.0 then (Neg(normal), refIdx, refIdx * Dot(d, normal) / Length(d, m))
    else (normal, 1.0 / refIdx, -Dot(d, normal) / Length(d, m))
  }

  /** The scattered direction of glass: the reflected direction unless refraction succeeds and the draw falls at or above the reflectance. */
  function GlassDirection(refIdx: real, rIn: Ray, rec: HitRecord, draw: real, m: Math): Vec3
    requires Length(rIn.direction, m) != 0.0 && refIdx != 0.0 && 1.0 + refIdx != 0.0
  {
    var d := rIn.direction;
    var reflected := Reflect(d, rec.normal);
    var (outwardNormal, niOverNt, cosine) := GlassInterface(refIdx, d, rec.normal, m);
    match Refract(d, outwardNormal, niOverNt, m)
    case Some(refracted) => if draw < Schlick(cosine, refIdx, m) then reflected else refracted
    case None => reflected
  }

  /** The fuzz metal applies, capped at 1. */
  function CappedFuzz(fuzz: real): (f: real)
    ensures f <= 1.0 && f <= fuzz && (f == fuzz || f == 1.0)
  {
    if fuzz < 1.0 then fuzz else 1.0
  }

  /** The scattered direction of metal: the mirror image of the unit incoming direction, pushed by the capped fuzz towards `sample`. */
  function MetalDirection(fuzz: real, rIn: Ray, rec: HitRecord, sample: Vec3, m: Math): Vec3
    requires Length(rIn.direction, m) != 0.0
  {
    Add(Reflect(UnitVector(rIn.direction, m), rec.normal), ScaleLeft(CappedFuzz(fuzz), sample))
  }

  /** `Material::scatter`: the attenuation and the scattered ray, or `None` when the ray is absorbed. */
  function Scatter(mat: Material, rIn: Ray, rec: HitRecord, sample: Vec3, draw: real, m: Math, t: Perlin.Tables): (r: Option<(Vec3, Ray)>)
    requires CanScatter(mat, rIn, m) && Perlin.Valid(t)
    ensures r.Some? ==> r.value.1.origin == rec.p && r.value.1.time == rIn.time
    ensures r.None? <==> mat.Light? || (mat.Metal? && Dot(MetalDirection(mat.fuzz, rIn, rec, sample, m), rec.normal) <= 0.0)
  {
    match mat
    case Glass(refIdx) =>
      Some((Ones, Ray(rec.p, GlassDirection(refIdx, rIn, rec, draw, m), rIn.time)))
    case Diffuse(albedo) =>
      var target := Add(Add(rec.p, rec.normal), sample);
      Some((Value(albedo, rec.u, rec.v, rec.p, m, t), Ray(rec.p, Sub(target, rec.p), rIn.time)))
    case Light(_) => None
    case Metal(tint, fuzz) =>
      var scattered := Ray(rec.p, MetalDirection(fuzz, rIn, rec, sample, m), rIn.time);
      if Dot(scattered.direction, rec.normal) > 0.0 then Some((tint, scattered)) else None
  }

  // ---------------------------------------------------------------------
  // Properties of `scatter`

  /**
   * Glass always scatters, without attenuation.  It follows the refracted
   * direction when refraction succeeds and the draw is at least the
   * reflectance, and the reflected direction otherwise, in particular
   * whenever refraction fails.
   */
  lemma GlassAlwaysScatters(refIdx: real, rIn: Ray, rec: HitRecord, sample: Vec3, draw: real, m: Math, t: Perlin.Tables)
    requires CanScatter(Glass(refIdx), rIn, m) && Perlin.Valid(t)
    ensures var r := Scatter(Glass(refIdx), rIn, rec, sample, draw, m, t);
      var g := GlassInterface(refIdx, rIn.direction, rec.normal, m);
      var refracted := Refract(rIn.direction, g.0, g.1, m);
      && r.Some? && r.value.0 == Ones
      && (refracted.Some? && draw >= Schlick(g.2, refIdx, m) ==> r.value.1.direction == refracted.value)
      && (refracted.None? || draw < Schlick(g.2, refIdx, m) ==> r.value.1.direction == Reflect(rIn.direction, rec.normal))
  {
  }

  /** A diffuse surface always scatters, tinted by its texture at the hit, towards `normal + sample`. */
  lemma DiffuseScattersAroundNormal(albedo: Texture, rIn: Ray, rec: HitRecord, sample: Vec3, draw: real, m: Math, t: Perlin.Tables)
    requires WellFormed(albedo) && Perlin.Valid(t)
    ensures Scatter(Diffuse(albedo), rIn, rec, sample, draw, m, t)
      == Some((Value(albedo, rec.u, rec.v, rec.p, m, t), Ray(rec.p, Add(rec.normal, sample), rIn.time)))
  {
  }

  /** A metal scatters, tinted by its colour, exactly when the scattered direction leaves the surface; with no fuzz and a unit normal that direction is the mirror image of the unit incoming direction. */
  lemma MetalScattersAboveSurface(tint: Vec3, fuzz: real, rIn: Ray, rec: HitRecord, sample: Vec3, draw: real, m: Math, t: Perlin.Tables)
    requires Length(rIn.direction, m) != 0.0 && Perlin.Valid(t)
    ensures var r := Scatter(Metal(tint, fuzz), rIn, rec, sample, draw, m, t);
      && (r.Some? <==> Dot(MetalDirection(fuzz, rIn, rec, sample, m), rec.normal) > 0.0)
      && (r.Some? ==> r.value.0 == tint && r.value.1.direction == MetalDirection(fuzz, rIn, rec, sample, m))
    ensures fuzz == 0.0 && SquaredLength(rec.normal) == 1.0 ==>
      Dot(MetalDirection(fuzz, rIn, rec, sample, m), rec.normal) == -Dot(UnitVector(rIn.direction, m), rec.normal)
  {
    if fuzz == 0.0 && SquaredLength(rec.normal) == 1.0 {
      ReflectMirrors(UnitVector(rIn.direction, m), rec.normal);
      assert MetalDirection(fuzz, rIn, rec, sample, m) == Reflect(UnitVector(rIn.direction, m), rec.normal);
    }
  }
}
