# A verified model of a small Rust ray tracer

The renderer this models follows the "Ray Tracing in One Weekend / The Next
Week" design. Rays leave a pinhole camera and are intersected with a scene
of *hittables*:
- spheres, including spheres that move during the shutter interval;
- axis-aligned rectangles;
- Cornell boxes;
- translated and Y-rotated instances;
- lists;
- a bounding volume hierarchy (BVH) of axis-aligned bounding boxes (AABBs).

A hit yields a *hit record*: the ray parameter `t`, the point, the normal,
the texture coordinates and the material. Materials scatter the ray:
- glass reflects or refracts using Schlick's approximation;
- a diffuse surface scatters around its normal;
- a metal reflects with some fuzz;
- a light emits.

Textures (checker, image, Perlin-noise marble, solid) give surface colours.

The model keeps the source's own form:
- Vectors, rays, boxes, hit records, materials, textures and hittables are
  Dafny datatypes, and the operations on them are functions.
- The scene graph is one closed `Hittable` datatype. `Hit` and
  `BoundingBox` dispatch over its variants.
- Code that updates state step by step is imperative Dafny:
  - the compound vector assignments;
  - the slab loop of `AABB::hit`;
  - the Perlin table builders, `noise` and `turbulence`;
  - the corner loop of `RotateY::new`;
  - the BVH constructor, which drains the vector it is given.
- The BVH constructor's input vector is a `HittableVec` class. Its random
  axis comes from an `Rng` class that hands out a given sequence of draws.

Floating-point numbers are mathematical reals. `sqrt`, `sin`, `cos`, `tan`,
`powf`, `get_sphere_uv` and the normal map of `flip_normals` are
uninterpreted functions bundled in `Intrinsics.Math`. A property that needs
one of them to behave, such as an exact square root or a sine within
[-1, 1], states that as a precondition.

Modules, one per file:
- `Intrinsics`, `Reals` (arithmetic helpers), `Vectors`, `Rays`, `Wrappers` (`Option`);
- `Aabbs`, `Perlin`, `Textures`, `Materials`, `HitRecords`, `Scattering`, `Cameras`;
- `Spheres`, `MovingSpheres`, `Rectangles`, `Translations`, `Rotations`;
- `Hittables`, `CornellBoxes`, `Bvhs`.

## Model

| member | source | states |
|---|---|---|
| Vectors.Dot | src/vec3.rs:38-40 | no contract of its own: `Vectors.SquaredLengthIsDotSelf` and `Vectors.CauchySchwarz` state its laws |
| Vectors.Cross | src/vec3.rs:42-48 | no contract of its own: `Vectors.CrossOrthogonal` and `Vectors.Lagrange` state its laws |
| Vectors.Length | src/vec3.rs:19-21 | no contract of its own: `Vectors.LengthPositive` states it under an exact square root |
| Vectors.UnitVector | src/vec3.rs:34-36 | no contract of its own: `Vectors.UnitVectorIsUnit` states it has length 1 under an exact square root |
| Vectors.SquaredLengthNonNegative | src/vec3.rs:23-25 | `squared_length` is never negative, and it is zero exactly for the zero vector |
| Vectors.SquaredLengthIsDotSelf | src/vec3.rs:23-25 | `squared_length` equals `v.dot(v)` |
| Vectors.CrossOrthogonal | src/vec3.rs:42-48 | `cross` is orthogonal to both of its arguments |
| Vectors.Lagrange | src/vec3.rs:38-48 | Lagrange's identity links `dot` and `cross`: the product of the squared lengths minus the squared dot equals the squared length of the cross product |
| Vectors.CauchySchwarz | src/vec3.rs:38-40 | the squared dot product is at most the product of the squared lengths |
| Vectors.ScaleCommutes | src/vec3.rs:111-133 | `v * s` and `s * v` are the same vector |
| Vectors.NegIsScaleByMinusOne | src/vec3.rs:171-177 | `-v` is `v * -1` |
| Vectors.AddSubCancel | src/vec3.rs:51-81 | subtracting what was added gives the vector back |
| Vectors.IndexMatchesAccessors | src/vec3.rs:12-17 | `v[0]`, `v[1]` and `v[2]` are `x`/`r`, `y`/`g` and `z`/`b` |
| Vectors.DivScalarSquaredLength | src/vec3.rs:155-161 | dividing by `l` divides the squared length by `l²` |
| Vectors.LengthPositive | src/vec3.rs:19-21 | with an exact square root, a non-zero vector has a positive length whose square is its squared length |
| Vectors.UnitVectorIsUnit | src/vec3.rs:34-36 | with an exact square root, `unit_vector` of a non-zero vector has squared length 1 |
| Vectors.AddAssign | src/vec3.rs:63-69 | after `+=`, the buffer holds the sum of its old value and the operand |
| Vectors.SubAssign | src/vec3.rs:83-89 | after `-=`, the buffer holds the difference |
| Vectors.MulAssign | src/vec3.rs:103-109 | after `*=` by a vector, the buffer holds the component-wise product |
| Vectors.MulAssignScalar | src/vec3.rs:119-125 | after `*=` by a scalar, the buffer holds the scaled vector |
| Vectors.DivAssign | src/vec3.rs:147-153 | after `/=` by a vector with no zero component, the buffer holds the component-wise quotient |
| Vectors.DivAssignScalar | src/vec3.rs:163-169 | after `/=` by a non-zero scalar, the buffer holds the quotient |
| Vectors.MakeUnitVector | src/vec3.rs:27-32 | scaling each component by `1 / length` in place leaves `unit_vector` of the old value |
| Rays.PointAtParameter | src/ray.rs:19-21 | the point minus the origin is `direction * t` |
| Rays.PointAtParameterAffine | src/ray.rs:19-21 | parameter 0 is the origin, and moving the parameter by `dt` moves the point by `dt` directions |
| Aabbs.SurroundingBox | src/aabb.rs:36-48 | the result encloses both boxes and is enclosed by every box that encloses both (the least enclosing box) |
| Aabbs.SurroundingBoxLaws | src/aabb.rs:36-48 | `surrounding_box` is commutative, associative and idempotent |
| Aabbs.EnclosesContains | src/aabb.rs:36-48 | a point in an enclosed box is in the enclosing box |
| Aabbs.SlabStepExact | src/aabb.rs:17-30 | one slab step keeps exactly the parameters inside the current interval whose point lies between the slab's planes, zero directions included, and it fails exactly when none are left |
| Aabbs.HitFromExact | src/aabb.rs:15-33 | the slab loop from axis `i` succeeds iff some `t` strictly between `tmin` and `tmax` puts the ray's point inside the box on every remaining axis |
| Aabbs.Hit | src/aabb.rs:15-33 | the loop over the three axes, with its early `return false`, computes the slab test |
| Aabbs.HitMeaning | src/aabb.rs:15-33 | `hit` is true iff the ray is inside the box at some parameter in the open interval `(tmin, tmax)` |
| Aabbs.SlabEntryBeforeExit | src/aabb.rs:17-27 | with `min <= max`, the entry parameter of a slab is at most its exit parameter, whatever the direction's sign |
| Aabbs.EmptyIntervalMisses | src/aabb.rs:28-30 | an interval with `tmax <= tmin` never hits |
| Aabbs.InsideOriginHits | src/aabb.rs:15-33 | a ray starting strictly inside the box hits it over any interval around 0 |
| Perlin.Range | src/perlin.rs:14 | `0..n` collected: length `n`, entry `i` is `i` |
| Perlin.RangeCounts | src/perlin.rs:14 | `0..n` holds each of `0..n` once and nothing else |
| Perlin.PermutationMembers | src/perlin.rs:13-17 | a permutation of `0..n` has `n` entries, each in range, each value once |
| Perlin.BuiltTablesAreValid | src/perlin.rs:6-11 | 256 gradients and three permutations of `0..256` make tables whose every lookup is in bounds |
| Perlin.Shuffle | src/perlin.rs:15 | the shuffle permutes the array: its multiset of entries is unchanged |
| Perlin.PerlinPermutation | src/perlin.rs:13-17 | `perlin_permutation(n)` is a permutation of `0..n` |
| Perlin.PerlinGenerate | src/perlin.rs:19-31 | entry `k` is `unit_vector` of `(2x-1, 2y-1, 2z-1)` for the `k`-th triple of draws |
| Perlin.GeneratedGradientsAreUnit | src/perlin.rs:19-31 | with an exact square root, every generated gradient has unit length |
| Perlin.Mask255 | src/perlin.rs:78-80 | `x & 255` is in `0..256` and congruent to `x` modulo 256, negative `x` included |
| Perlin.Xor3 | src/perlin.rs:78-81 | the XOR of three table entries indexes `RANVEC` in bounds |
| Perlin.Fraction | src/perlin.rs:66-68 | `x - floor(x)` lies in `[0, 1)` |
| Perlin.PerlinInterp | src/perlin.rs:34-52 | the triple loop accumulates the weighted sum of the eight corner gradients' dot products |
| Perlin.SmoothInUnitInterval | src/perlin.rs:35-37 | the Hermite smoothing `u²(3-2u)` maps `[0, 1]` into `[0, 1]` |
| Perlin.WeightsPartitionUnity | src/perlin.rs:44-46 | the eight trilinear weights sum to 1 |
| Perlin.TermIsWeighted | src/perlin.rs:34-52 | each corner's term in the loop is that corner's weight (the product `WeightsPartitionUnity` sums) times the gradient's dot product with the offset |
| Perlin.InterpIsWeightedSum | src/perlin.rs:34-52 | the interpolated value is the sum over the eight corners of weight times dot product |
| Perlin.InterpOfEqualDots | src/perlin.rs:34-52 | since the weights sum to one, equal dot products `c` at all eight corners interpolate to `c` |
| Perlin.NoiseValue | src/perlin.rs:65-86 | no contract of its own: `noise` is the interpolation of the cell's corner gradients at `p`'s offsets, as `Perlin.Noise` states; the interpolation lemmas above apply to it |
| Perlin.Noise | src/perlin.rs:65-86 | the lattice loop gathers the eight corner gradients of the cell holding `p` and interpolates at `p`'s offsets in it |
| Perlin.OctaveScaling | src/perlin.rs:57-61 | after `k` octaves the point is `p * 2^k` and the weight is `0.5^k` |
| Perlin.Abs | src/perlin.rs:62 | `abs` is non-negative and is `x` or `-x` |
| Perlin.Turbulence | src/perlin.rs:54-63 | the octave loop returns the absolute value of the sum of `noise(p * 2^k) * 0.5^k` over `depth` octaves; 0 for depth 0 |
| Textures.Truncate | src/texture.rs:53-54 | `as i32` rounds toward zero |
| Textures.Clamp | src/texture.rs:53-54 | `max(0).min(size-1)` lands in `0..size`, keeps in-range indices and sends the out-of-range ones to the nearer end |
| Textures.Column | src/texture.rs:53 | the column index is always in `0..w` |
| Textures.Row | src/texture.rs:54 | the row index is always in `0..h` |
| Textures.ColumnClamps | src/texture.rs:53 | `u*w` below 1 gives column 0, `u >= 1` the last column, and in range the column is the integer part of `u*w` |
| Textures.RowClamps | src/texture.rs:54 | `v >= 1` gives row 0 (the top of the image) and `v <= 0` the last row |
| Textures.TexelInBounds | src/texture.rs:55-59 | the three bytes of pixel `(i, j)` lie inside an image of `3wh` bytes |
| Textures.Channel | src/texture.rs:56-58 | a byte divided by 255 lies in `[0, 1]` |
| Textures.Texel | src/texture.rs:55-60 | an image colour lies in the unit cube |
| Textures.CheckerPicksBySign | src/texture.rs:43-50 | a checker shows its odd texture where the product of sines is negative and its even texture elsewhere; with two equal textures it is that texture |
| Textures.SolidIsConstant | src/texture.rs:67 | a solid texture is its colour at every `(u, v, p)` |
| Textures.ImageValueInUnitCube | src/texture.rs:51-61 | an image texture's value lies in the unit cube for every `(u, v)` |
| Textures.MarbleIsGrey | src/texture.rs:62-66 | with a bounded sine, the noise texture is a grey in the unit cube |
| Textures.ValueInUnitCube | src/texture.rs:41-69 | every texture whose solid colours lie in the unit cube yields colours in the unit cube |
| Textures.Value | src/texture.rs:41-69 | no contract of its own: `Textures.ValueInUnitCube`, `CheckerPicksBySign`, `ImageValueInUnitCube`, `MarbleIsGrey` and `SolidIsConstant` state what each variant yields |
| Materials.FirstInside | src/material.rs:16-24 | the rejection loop's result lies strictly inside the unit ball and is one of the drawn candidates |
| Materials.FirstInsideIsFirst | src/material.rs:16-24 | it succeeds iff some candidate lies in the ball, and then it returns the first such candidate |
| Materials.RandomInUnitSphere | src/material.rs:16-24 | the `while` loop returns exactly that first candidate inside the ball |
| Materials.Reflect | src/material.rs:26-28 | no contract of its own: `Materials.ReflectMirrors` states its meaning |
| Materials.ReflectMirrors | src/material.rs:26-28 | about a unit normal, `reflect` negates the normal component, preserves length, and is its own inverse |
| Materials.Refract | src/material.rs:30-39 | `refract` succeeds exactly when the discriminant `1 - η²(1 - dt²)` is positive |
| Materials.DenserMediumRefracts | src/material.rs:30-39 | with `abs(η) < 1` and a unit normal, refraction always succeeds (no total internal reflection) |
| Materials.SchlickIsProbability | src/material.rs:41-44 | for cosine in `[0, 1]` and a non-negative index, `r0 <= schlick <= 1` |
| Materials.Schlick | src/material.rs:41-44 | no contract of its own: `Materials.SchlickIsProbability` bounds it |
| Materials.Emitted | src/material.rs:106-111 | anything but a light emits black |
| Materials.EmittedInUnitCube | src/material.rs:106-111 | a light whose texture's solid colours lie in the unit cube emits a colour in the unit cube |
| Scattering.GlassInterface | src/material.rs:51-59 | entering from outside uses the normal and `1/ref_idx`; leaving uses the negated normal and `ref_idx` |
| Scattering.CappedFuzz | src/material.rs:90 | `fuzz.min(1.)` is at most 1 and at most the fuzz, and is one of them |
| Scattering.Scatter | src/material.rs:47-104 | a scattered ray starts at the hit point at the incoming ray's time; scattering fails exactly for a light or a metal whose scattered direction is not above the surface |
| Scattering.GlassAlwaysScatters | src/material.rs:49-80 | glass always scatters untinted: it refracts when refraction succeeds and the draw is at least Schlick's probability, and reflects otherwise |
| Scattering.GlassDirection | src/material.rs:50-79 | no contract of its own: `Scattering.GlassAlwaysScatters` states when it refracts and when it reflects |
| Scattering.DiffuseScattersAroundNormal | src/material.rs:81-87 | diffuse scatters towards `normal + sample`, tinted by its texture at the hit |
| Scattering.MetalScattersAboveSurface | src/material.rs:89-102 | metal scatters, tinted by its albedo, iff the fuzzed reflection is above the surface; with no fuzz that direction mirrors the unit incoming direction |
| Scattering.MetalDirection | src/material.rs:90-96 | no contract of its own: `Scattering.MetalScattersAboveSurface` states when its direction scatters |
| Cameras.HalfHeight | src/camera.rs:13-14 | no contract of its own: `Cameras.NewCamera` states the image plane it spans |
| Cameras.NewCamera | src/camera.rs:12-23 | the camera sits at the origin, the image plane spans `2w × 2h`, and its centre is `(0, 0, -1)` |
| Cameras.GetRay | src/camera.rs:25-30 | the ray leaves the camera's origin towards `lower_left + u·horizontal + v·vertical` |
| Cameras.RayThroughImagePlane | src/camera.rs:12-30 | the ray through `(u, v)` points at `((2u-1)w, (2v-1)h, -1)`; `(0,0)` and `(1,1)` are the corners and `(0.5,0.5)` looks straight down `-z` |
| Spheres.Discriminant | src/sphere.rs:26-31 | no contract of its own: `Spheres.DiscriminantPositiveDivisors` and `Spheres.RootOnSphere` state what its sign and roots mean |
| Spheres.DiscriminantPositiveDivisors | src/sphere.rs:31-33 | a positive discriminant implies a non-zero direction and a non-zero radius, so both divisions are defined |
| Spheres.NearestRoot | src/sphere.rs:31-54 | a chosen root lies strictly inside `(t_min, t_max)` and comes from a positive discriminant |
| Spheres.RootPreference | src/sphere.rs:31-56 | the nearer root is taken when it is in range, otherwise the farther one; the sphere is missed iff the discriminant is not positive or neither root is in range |
| Spheres.RootOnSphere | src/sphere.rs:26-44 | with an exact square root, both roots put the ray's point on the sphere |
| Spheres.RootsOrdered | src/sphere.rs:33-44 | the `-` root is never after the `+` root |
| Spheres.SphereHit | src/sphere.rs:25-57 | a hit is at the nearest in-range root, its point is on the ray at `t`, its normal times the radius is `p - center`, and it carries the sphere's material; there is no hit iff no root is in range |
| Spheres.SphereHitOnSurface | src/sphere.rs:25-57 | with an exact square root, a hit point is on the sphere and its normal has unit length |
| Spheres.RadiusBox | src/sphere.rs:59-64 | the box is `center ± (radius, radius, radius)`: `radius` from the centre to each face, `2·radius` wide on every axis |
| Spheres.RadiusBoxContainsSurface | src/sphere.rs:59-64 | for `radius >= 0`, every point of the sphere lies in its bounding box |
| Spheres.SphereBoxContainsHits | src/sphere.rs:25-64 | for `radius >= 0` and an exact square root, every hit point lies in the sphere's bounding box |
| Spheres.NegativeRadiusBoxNeverHit | src/sphere.rs:59-64 | for `radius < 0` the box is inside out and the slab test rejects every ray over every interval |
| MovingSpheres.Fraction | src/moving_sphere.rs:37-40 | the fraction times the shutter length is the elapsed time |
| MovingSpheres.Center | src/moving_sphere.rs:37-40 | the centre is `center0` at `time0` and `center1` at `time1` |
| MovingSpheres.CenterSteps | src/moving_sphere.rs:37-40 | the centre moves linearly: a step `dt` moves it by `dt/(time1-time0)` of the path |
| MovingSpheres.MovingSphereHit | src/moving_sphere.rs:44-82 | a hit is the static sphere's hit at the centre for the ray's time, with `(u, v)` from `get_sphere_uv` of the normal |
| MovingSpheres.MovingSphereHitOnSurface | src/moving_sphere.rs:44-82 | a hit is in range, on the sphere at the ray's time, with a unit normal |
| MovingSpheres.MovingBox | src/moving_sphere.rs:84-94 | the box encloses the sphere's boxes at `t0` and at `t1` |
| MovingSpheres.MovingBoxEnclosesPath | src/moving_sphere.rs:84-94 | it also encloses the sphere's box at every time between `t0` and `t1` |
| MovingSpheres.MovingBoxContainsHits | src/moving_sphere.rs:44-94 | a hit by a ray whose time is between `t0` and `t1` lies in the box |
| Rectangles.Crossing | src/rectangle.rs:38 | the plane parameter exists iff the direction's fixed-axis component is non-zero, and its point has the plane's coordinate `k` |
| Rectangles.RectHit | src/rectangle.rs:37-57 | a hit is at the crossing parameter, within `[t0, t1]`, on the ray, with the plane's `+axis` normal and the rectangle's material |
| Rectangles.RectHitExact | src/rectangle.rs:37-57 | there is a hit iff the crossing exists, is in `[t0, t1]`, and its in-plane coordinates lie within both extents |
| Rectangles.RectHitOnRectangle | src/rectangle.rs:37-57 | a hit point lies on the plane within both extents, and its `(u, v)` lies in the unit square |
| Rectangles.RectBox | src/rectangle.rs:30-35 | the box spans the extents and is padded by 0.0001 on either side of the plane |
| Rectangles.RectBoxContainsHits | src/rectangle.rs:30-57 | every hit point lies in the rectangle's box |
| Translations.MoveRay | src/translate.rs:22 | the child's ray is the ray with its origin moved back by the offset; same direction and time |
| Translations.MoveRecord | src/translate.rs:25-28 | the returned record is the child's, with the point moved forward by the offset |
| Translations.MovedPointOnRay | src/translate.rs:21-29 | a hit at `t` on the moved ray, moved forward, is the original ray's point at `t` |
| Translations.MoveBox | src/translate.rs:31-35 | the box is the child's, moved by the offset; no box stays no box |
| Translations.MoveBoxLaws | src/translate.rs:31-35 | moving keeps the extent, and `p` is in the moved box iff `p - offset` is in the child's box |
| Rotations.RotateIn | src/rotate.rs:53-56 | the rotation into the child's frame keeps the `y` component; `Rotations.RotationsInverse` shows `RotateOut` undoes it |
| Rotations.RotateOut | src/rotate.rs:62-65 | the rotation back to world space keeps the `y` component; `Rotations.RotationsInverse` shows it undoes `RotateIn` |
| Rotations.RotationsInverse | src/rotate.rs:53-56 | with `sin² + cos² = 1`, the rotation into the child's frame and the one back are inverse, and both keep lengths |
| Rotations.RotateRay | src/rotate.rs:53-58 | the rotated ray keeps the `y` components and the time |
| Rotations.RotateRecord | src/rotate.rs:59-67 | the rotated record keeps `t`, `u`, `v`, the material and the `y` components |
| Rotations.RotateInPoint | src/rotate.rs:53-58 | the rotated ray's point at `t` is the original ray's point at `t`, rotated |
| Rotations.RotatedHitOnRay | src/rotate.rs:50-68 | a hit on the rotated ray, turned back, is the original ray's point at the same `t` |
| Rotations.Tester | src/rotate.rs:25-30 | corner `(i, j, k)` of the box, turned by the angle |
| Rotations.RotatedBox | src/rotate.rs:18-39 | the corner loop returns the component-wise minimum and maximum of the eight turned corners, starting from `f32::MAX` and `f32::MIN` |
| Rotations.FoldCorner | src/rotate.rs:31-34 | one step of the `for c in 0..3` loop takes the component-wise min and max |
| Rotations.FoldBounds | src/rotate.rs:18-39 | every folded vector lies between the fold's lowest and highest |
| Rotations.RotatedBoxContainsCorners | src/rotate.rs:18-39 | the rotated box contains every turned corner and is not inverted |
| Rotations.RotatedBoxYExtent | src/rotate.rs:18-39 | a rotation about `y` leaves the box's `y` extent unchanged |
| Hittables.Hit | src/hittable.rs:19-23 | `hit` of every surface, dispatched on its variant (the list's here, the BVH's in src/bvh.rs:77-108, the Cornell box's as a list); a reported hit has `t` in `[tMin, tMax]` |
| Hittables.ListHit | src/hittable.rs:19-23 | the list's fold over its children; a reported hit has `t` in `[tMin, tMax]`, and `ListHitNone`/`ListHitFirstMinimum` state which hit it is |
| Hittables.BoundingBox | src/hittable.rs:25-34 | no contract of its own: `Hittables.ListBox`, `Hittables.BoxExistsAnyTime` and the box lemmas of each surface state what it returns |
| Hittables.Earlier | src/hittable.rs:19-23 | one step of `min_by`: keeps the earlier record unless the new one is strictly nearer, so ties keep the first |
| Hittables.Nearer | src/bvh.rs:91-102 | the `Double` node's choice: the left hit only when strictly nearer, so ties go right; no hit iff neither child hits |
| Hittables.ListHitNone | src/hittable.rs:19-23 | a list misses iff every item misses |
| Hittables.ListHitFirstMinimum | src/hittable.rs:19-23 | a list's hit is the hit of some item `i`, no other item hits nearer, and every earlier item that hits is strictly farther (the first minimum) |
| Hittables.ListBox | src/hittable.rs:25-34 | an empty list has no box; otherwise there is one iff every item has one, and it encloses each of them |
| Hittables.BoxFold | src/hittable.rs:27-30 | the `try_fold` fails iff some item has no box, and its result encloses the seed and every item's box |
| Hittables.FlipNormalsHit | src/cornellbox.rs:21-27 | a flipped wall misses iff its rectangle misses, and its hit differs from the rectangle's only in the normal |
| Hittables.TranslateHit | src/translate.rs:21-29 | a translated surface misses iff its child misses the moved ray; the hit point moved back is the child's and all other fields are the child's |
| Hittables.NewRotateY | src/rotate.rs:14-46 | `RotateY::new` takes sin and cos of the angle in radians; it caches the child's `[0, 1]` box rotated corner by corner, or none when the child has none, and `bounding_box` returns that cache at any time |
| Hittables.RotateYHit | src/rotate.rs:50-68 | a rotated surface misses iff the child misses the rotated ray; the point and normal turned back are the child's, and `t`, `u`, `v` and the material are unchanged |
| Hittables.BoxExistsAnyTime | src/hittable.rs:25-34 | whether a surface has a box does not depend on the times asked for |
| CornellBoxes.NewCornellBox | src/cornellbox.rs:15-29 | six walls, two per plane: a plain rectangle at `p1`'s coordinate and a flipped one at `p0`'s; the box is well formed iff `p0` and `p1` differ on every axis |
| CornellBoxes.CornellBoxLaws | src/cornellbox.rs:15-39 | every wall is a rectangle of the box's material, and the box's `bounding_box` is `(p0, p1)` |
| CornellBoxes.CornellBoxHitInside | src/cornellbox.rs:33-39 | with `p0 < p1` on each axis, every hit on the box lies inside its bounding box |
| CornellBoxes.WallHitInside | src/cornellbox.rs:20-27 | a wall is hit only inside the box spanned by `p0` and `p1` |
| CornellBoxes.SideHitInside | src/cornellbox.rs:15-29 | each of the six sides, flipped or not, is well formed and hit only inside the box |
| Bvhs.HittableVec.constructor | src/bvh.rs:20 | the vector holds the given surfaces |
| Bvhs.HittableVec.Len | src/bvh.rs:38 | `len` is the number of surfaces held |
| Bvhs.HittableVec.SortDescending | src/bvh.rs:26-34 | the vector is reordered by decreasing box minimum on the axis (see `Bvhs.Sorted`) |
| Bvhs.HittableVec.Pop | src/bvh.rs:41 | `pop` returns the last surface and removes it |
| Bvhs.HittableVec.SplitOff | src/bvh.rs:60 | `split_off(at)` returns a fresh vector with the tail from `at` and leaves the head |
| Bvhs.Rng.constructor | src/bvh.rs:25 | the generator starts at the first draw |
| Bvhs.Rng.GenAxis | src/bvh.rs:25 | `gen_range(0, 3)` returns the next draw, an axis below 3, and consumes it |
| Bvhs.Insert | src/bvh.rs:26-34 | inserting into a descending sequence adds exactly that surface and keeps it descending |
| Bvhs.Sorted | src/bvh.rs:26-34 | the sort is a permutation whose keys do not increase |
| Bvhs.Half | src/bvh.rs:60 | for 3 or more surfaces, `len / 2` leaves both halves non-empty and smaller |
| Bvhs.Rest | src/bvh.rs:60 | the tail and the head together are the whole |
| Bvhs.SortedBoxed | src/bvh.rs:26-34 | sorting keeps every surface well formed with a box |
| Bvhs.NewBvh | src/bvh.rs:20-73 | `BVH::new` empties the vector and returns a `Single` or `Double` node whose leaves are exactly the input surfaces (as a multiset) and whose box encloses each input's box over `[time0, time1]` |
| Bvhs.NewLeafNode | src/bvh.rs:40-58 | one surface gives a `Single` node with its box; two give a `Double` node over their surrounding box |
| Bvhs.NewSplitNode | src/bvh.rs:59-71 | the tail half builds the left subtree and the head half the right one, under the surrounding box of the two |
| Bvhs.SingleLaws | src/bvh.rs:40-46 | a `Single` node holds its one surface inside its box |
| Bvhs.DoubleLaws | src/bvh.rs:47-58 | a `Double` node over the two popped surfaces holds both inside its box |
| Bvhs.SplitLaws | src/bvh.rs:59-71 | a `Double` node over the two halves' subtrees holds all the surfaces inside its box |
| Bvhs.SplitLeaves | src/bvh.rs:59-71 | the leaves of the two halves' subtrees together are all the surfaces |
| Bvhs.SplitEncloses | src/bvh.rs:63-67 | the surrounding box of the halves' boxes encloses every surface |
| Bvhs.BvhMissesOutsideBox | src/bvh.rs:77-108 | a ray that misses a node's box misses the node |
| Bvhs.BvhDoubleHit | src/bvh.rs:86-106 | inside the box, a `Double` node misses iff both children miss, returns one child's hit, never one farther than the other's, and the right one on a tie |
| Bvhs.LeavesAtMost | src/bvh.rs:40-71 | a node built from `n` surfaces holds at most `n` of them |
| Bvhs.BvhHitIsLeafHit | src/bvh.rs:77-108 | a hit the traversal reports, through any depth of nodes, is exactly the hit of one of the node's leaves |
| Bvhs.BuiltBvhHitIsItemHit | src/bvh.rs:77-108 | for a tree `new` builds from `items`, every reported hit is the hit of one of the items |
| Bvhs.SingleLeafDisagrees | src/bvh.rs:79-85 | a one-surface node whose box the ray misses reports nothing where the one-surface list reports the surface's hit |
| Bvhs.GrazingMissesBox | src/aabb.rs:15-33 | the slab test rejects the unit square's box for a ray that meets the square exactly at its corner |
| Bvhs.GrazingHitsSquare | src/rectangle.rs:37-57 | the closed rectangle test accepts that same ray at `t = 1` |
| Bvhs.BvhMissesGrazingHit | src/bvh.rs:79-85 | so the tree over the unit square misses a ray the list over it hits: a tree is not equivalent to a list scan |
| Bvhs.BvhDropsNegativeSphere | src/bvh.rs:79-85 | a node over a sphere of negative radius, boxed by its `bounding_box`, reports no hit at all |

## Left out

- The image output, the main loop and the pixel gradient demo of `src/main.rs` are I/O and are not modelled.
- `f32` arithmetic is modelled as exact real arithmetic: rounding, infinities and NaN are not modelled.
- `std::f32::consts::PI` is a decimal real constant.
- `sqrt`, `sin`, `cos`, `tan`, `powf` are uninterpreted. Lemmas that need their behaviour require it (exact square root, sine within [-1, 1], `powf(x, 2) = x²` and `powf` of `[0, 1]` to the 5th in `[0, 1]`).
- `get_sphere_uv` is not part of this model: it is an uninterpreted map from the normal to `(u, v)`.
- `flip_normals` is not part of this model. It is a wrapper whose normal is an uninterpreted map of the child's normal; every other field, and the box, is the child's.
- Random numbers (`thread_rng`) are parameters:
  - the shuffle receives its swap indices;
  - the gradient table receives its samples;
  - `random_in_unit_sphere` receives a finite sequence of draws;
  - glass receives the draw compared with Schlick's probability;
  - the BVH's `Rng` receives its axis draws.
- Materials.RandomInUnitSphere: the source loops until a draw lands inside the ball. The model consumes a finite sequence of draws and returns `None` when none lands inside, so termination of the unbounded loop is not modelled.
- The lazily built global tables of `src/perlin.rs` are an explicit `Tables` argument. The link between `noise` and tables built by `perlin_permutation`/`perlin_generate` is `Perlin.BuiltTablesAreValid`.
- `floor() as i32` in `noise` and `as i32` in the image lookup are modelled as exact integer parts. The saturation of `as` at the `i32` bounds is not modelled.
- Vectors.UnitVector and the divisions of `Vec3` require a non-zero divisor. The source would produce infinities or NaN there.
- Spheres.SphereHit: the `HitRecord` built by `src/sphere.rs` has no `u`/`v`. The model sets both to 0, and `Spheres.SphereHit` states nothing about them.
- Rectangles.RectHit: a ray parallel to the plane (zero fixed-axis direction) is a miss. In `f32` it divides by zero, and it could hit through NaN comparisons when the origin is on the plane. Degenerate extents (`x0 == x1`) are excluded by `Hittables.WellFormed`, because they divide by zero in `u`/`v`.
- MovingSpheres.Center requires `time1 != time0`, the divisor of `center`; `Hittables.WellFormed` carries this for the scene.
- Spheres.SphereBoxContainsHits requires `radius >= 0`. The source accepts a negative radius, for which the box is inside out: the slab test never accepts it, so such a sphere is never hit under a BVH (`Spheres.NegativeRadiusBoxNeverHit`, `Bvhs.BvhDropsNegativeSphere`).
- Textures.WellFormed excludes an image of zero width or height, and pixel data shorter than `3 · width · height` bytes. On those the lookup of src/texture.rs:53-58 indexes out of range and panics; the model has no such error path.
- Bvhs.HittableVec.SortDescending: `sort_unstable_by` is specified only as some permutation in descending key order. The model computes one such order (an insertion sort), so the particular order among equal keys is not modelled.
- The `expect`/`unwrap` panics of `BVH::new` (a surface with no box, an empty vector) are excluded by its precondition `Boxed` and a non-empty vector.
- Rotations.RotatedBoxContainsCorners: the rotated box is proved to contain the eight turned corners and to keep the `y` extent. That it contains every turned point of the child's box (convexity) is not proved.
- The `Index` writes `origin[0] = …` in `src/rotate.rs` need an `IndexMut` that `src/vec3.rs` does not define. They are modelled as building the new vector from its components.
- `Camera::get_ray` passes two arguments to `Ray::new`, which takes three. The model gives the ray time 0.
- Bvhs.BvhDoubleHit: a BVH is not equivalent to a list scan of its surfaces, and no lemma claims it is. On equally near hits a `Double` node returns the right child's (strict `<`) where the list keeps the first. A strict slab test also rejects rays that graze a box face on which a closed rectangle test accepts the hit (`Bvhs.BvhMissesGrazingHit`). What is proved is that a tree's hit is always the hit of one of its surfaces (`Bvhs.BuiltBvhHitIsItemHit`).
- `Clone` of materials and the lifetimes of borrowed materials in hit records are not modelled: records carry the material by value.
