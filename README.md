# A verified model of a small Rust path tracer

This project models the core of a path tracer written in Rust. The tracer follows the
"Ray Tracing in One Weekend" design: spheres of diffuse, metal and glass materials are seen
through a thin-lens camera; each ray bounces until it is absorbed, escapes to a blue-white sky,
or runs out of bounces. The Dafny model covers:

- the vector algebra (`Vec3`, `Point3`, `Color`, the in-place operators, reflection and Snell
  refraction, the quantisation of a colour to 8-bit channels);
- rays;
- hit records and the front-face/normal choice;
- ray-sphere intersection;
- the list of objects that keeps the nearest hit;
- the three materials' scattering rules with Schlick's reflectance;
- the camera's orthonormal frame, viewport and defocus-lens ray;
- the recursive `ray_color`.

Modules, one per source file:

| module | file | what it holds |
|---|---|---|
| `Wrappers` | wrappers.dfy | `Option` |
| `Libm` | libm.dfy | what the model assumes of `f64::sqrt` (a non-negative square root on non-negative inputs), as the predicate `IsSqrt` |
| `Utility` | utility.dfy | `PI`, degree conversion, `clamp` |
| `Vectors` | vec3.dfy | `Vec3`, its operators, `Vec3Var` for the assignment operators and `IndexMut`, `Color`, channel output |
| `Rays` | ray.dfy | `Ray` and `at` |
| `Materials` | material.dfy | the material kinds, `Metal::new`, Schlick's approximation |
| `Hit` | hit.dfy | `HitRecord::new` and the upper bound of a search interval |
| `Spheres` | sphere.dfy | `Sphere::hit` |
| `Scene` | scene.dfy | `HittableList` |
| `Scattering` | scatter.dfy | the `scatter` of each material |
| `Cameras` | camera.dfy | `Camera::new`, `get_ray` |
| `Render` | render.dfy | `ray_color` |

Arithmetic on `f64` is modelled on exact reals. The square root and the tangent are function
parameters (`sqrt`, `tan`); where a proof needs it, `sqrt` is required to be a square root
(`Libm.IsSqrt`). Every random number is a parameter:

- `Scattering.Draw` carries one bounce's draws: the unit vector, the point in the unit sphere
  and the uniform number in [0, 1).
- The camera takes the point of the unit disk as `disk`.
- `ray_color` takes a function from the number of bounces left to that bounce's `Draw`.

Floating-point infinity, as the upper end of a search interval, is the datatype
`Hit.UpperBound`.

## Model

| member | source | states |
|---|---|---|
| Utility.DegreesToRadians | src/utility.rs:4-6 | the result times 180 equals the degrees times PI: the conversion is proportional |
| Utility.DegreesToRadiansLandmarks | src/utility.rs:2-6 | 0 degrees is 0 radians and 180 degrees is exactly the book's PI |
| Utility.Clamped | src/utility.rs:9-20 | the result lies in [min, max]; a value inside is unchanged, one below gives min, one above gives max; `min <= max` is required as the source's assert demands |
| Utility.Clamp | src/utility.rs:9-20 | the two conditional reassignments of `x` return exactly `Clamped` |
| Utility.ClampIdempotent | src/utility.rs:9-20 | clamping a clamped value changes nothing |
| Vectors.Index | src/vec3.rs:132-143 | defined exactly for indices below 3, giving x, y and z; every other index is the out-of-bounds case (`None`) |
| Vectors.Vec3Var.constructor | src/vec3.rs:164-224 | a `let mut` place that the assignment operators update starts out holding the given vector |
| Vectors.Vec3Var.SetComponent | src/vec3.rs:145-154 | succeeds exactly for indices below 3; component `i` becomes the value and every other index reads as before |
| Vectors.Vec3Var.AddAssign | src/vec3.rs:164-170 | the new value is the old value plus the operand |
| Vectors.Vec3Var.MulAssign | src/vec3.rs:204-210 | the new value is the old value scaled by the operand |
| Vectors.Vec3Var.DivAssign | src/vec3.rs:220-224 | the new value is the old value divided by the operand, done as a multiplication by its reciprocal |
| Vectors.Neg | src/vec3.rs:124-130 | negates every component; Vectors.NegInvolution states that negating twice gives the vector back |
| Vectors.Add | src/vec3.rs:156-162 | adds component by component; Vectors.SubUndoesAdd states that subtraction undoes it, and Vectors.DotAddLeft that the dot product distributes over it |
| Vectors.Sub | src/vec3.rs:172-178 | subtracts component by component; Vectors.SubUndoesAdd states that it and addition undo each other in both orders |
| Vectors.Mul | src/vec3.rs:180-186 | multiplies component by component; as the colour filter of `ray_color`, Render.FilterBlack and Render.FilterInUnitRange state its effect |
| Vectors.Scale | src/vec3.rs:188-202 | multiplies every component by a number; Vectors.ScaleLengthSquared and Vectors.DotScaleLeft state how lengths and dot products scale |
| Vectors.Div | src/vec3.rs:212-218 | multiplies by the reciprocal of a non-zero divisor; Vectors.DivUndoesScale states that scaling by the divisor gives the vector back |
| Vectors.Dot | src/vec3.rs:37-39 | the sum of the componentwise products; Vectors.DotSymmetric, Vectors.DotAddLeft and Vectors.DotScaleLeft state that it is symmetric and linear |
| Vectors.LengthSquared | src/vec3.rs:33-35 | the sum of the squared components; Vectors.LengthSquaredSign, Vectors.ZeroLengthIsZero and Vectors.LengthSquaredIsDot state that it is non-negative, zero only for the zero vector, and the dot product with itself |
| Vectors.Length | src/vec3.rs:29-31 | the square root of `length_squared`; Vectors.LengthIsRoot states that it is its non-negative root |
| Vectors.Cross | src/vec3.rs:41-47 | the cross product; Vectors.CrossOrthogonal and Vectors.Lagrange state that it is orthogonal to both operands and how long it is |
| Vectors.UnitVector | src/vec3.rs:49-51 | the vector divided by its length; Vectors.UnitVectorIsUnit, Vectors.UnitVectorOfUnit, Vectors.UnitVectorKeepsSide and Vectors.UnitVectorComponents state its length, its fixed points, its side of a plane and its component bounds |
| Vectors.Reflect | src/vec3.rs:98-100 | `v - 2 (v.n) n`; Vectors.ReflectReversesNormal and Vectors.ReflectPreservesLength state that it mirrors about a unit normal |
| Vectors.Refract | src/vec3.rs:102-107 | Snell's law, split into the parts along and across the surface; Vectors.RefractScalesTangential, Vectors.RefractTangential, Vectors.ParallelOfUnit and Vectors.RefractUnbent state what each part is |
| Vectors.SubUndoesAdd | src/vec3.rs:156-178 | subtraction and addition undo each other in both orders |
| Vectors.NegInvolution | src/vec3.rs:124-130 | negating twice gives the vector back |
| Vectors.DivUndoesScale | src/vec3.rs:212-218 | dividing by a non-zero `t` and scaling by `t` gives the vector back |
| Vectors.SubUnitTest | src/vec3.rs:313-319 | (4, 3, 2) - (2, 1, 0.5) == (2, 2, 1.5), the crate's unit test |
| Vectors.LengthSquaredSign | src/vec3.rs:33-35 | the squared length is never negative |
| Vectors.ZeroLengthIsZero | src/vec3.rs:33-35 | only the zero vector has squared length zero |
| Vectors.LengthPositive | src/vec3.rs:29-35 | every vector other than the zero vector has a positive length |
| Vectors.LengthSquaredIsDot | src/vec3.rs:33-39 | the squared length is the dot product of the vector with itself |
| Vectors.DotSymmetric | src/vec3.rs:37-39 | the dot product is symmetric |
| Vectors.DotAddLeft | src/vec3.rs:37-39 | the dot product distributes over addition |
| Vectors.DotScaleLeft | src/vec3.rs:37-39 | the dot product is homogeneous in its first argument |
| Vectors.ScaleLengthSquared | src/vec3.rs:188-194 | scaling by `k` multiplies the squared length by `k * k` |
| Vectors.LengthSquaredAddScaled | src/vec3.rs:156-194 | the squared length of `a + k n` expands to `a.a + 2k (a.n) + k^2 (n.n)` |
| Vectors.CrossOrthogonal | src/vec3.rs:41-47 | the cross product is orthogonal to both operands |
| Vectors.Lagrange | src/vec3.rs:33-47 | Lagrange's identity: the squared length of `u x v` is `abs(u)^2 abs(v)^2 - (u.v)^2` |
| Vectors.CauchySchwarz | src/vec3.rs:33-39 | `(u.v)^2` is at most `abs(u)^2 abs(v)^2` |
| Vectors.UnitVectorIsUnit | src/vec3.rs:29-51 | a vector of non-zero length normalises to squared length 1 |
| Vectors.UnitVectorOfUnit | src/vec3.rs:29-51 | normalising a unit vector changes nothing |
| Vectors.UnitVectorKeepsSide | src/vec3.rs:49-51 | normalising keeps the sign of the dot product with any normal: a negative product stays negative, a zero one stays zero and a positive one stays positive |
| Vectors.LengthIsRoot | src/vec3.rs:29-31 | `length` is the non-negative number whose square is `length_squared` |
| Vectors.UnitVectorComponents | src/vec3.rs:49-51 | every component of a normalised vector lies in [-1, 1] |
| Vectors.ReflectReversesNormal | src/vec3.rs:98-100 | about a unit normal, reflection negates the normal component |
| Vectors.ReflectPreservesLength | src/vec3.rs:98-100 | about a unit normal, reflection keeps the squared length |
| Vectors.RefractScalesTangential | src/vec3.rs:102-107 | the part of the refracted ray along the surface is the incident part scaled by the index ratio |
| Vectors.RefractTangential | src/vec3.rs:102-107 | the normal term added by `refract` does not change the part along the surface |
| Vectors.RefractUnbent | src/vec3.rs:102-107 | with ratio 1, a unit direction that meets a unit normal from the front passes through unchanged |
| Vectors.ParallelOfUnit | src/vec3.rs:103-104 | for unit vectors, `r_out_parallel` at ratio 1 has squared length `1 - cos^2` |
| Vectors.AsI32 | src/vec3.rs:301-303 | `as i32`: the result lies in the i32 range, truncates toward zero (the floor for non-negative inputs in range) and saturates |
| Vectors.Channel | src/vec3.rs:301-303 | an output channel is always in 0..255: 0 at or below 0, 255 at or above 0.999, else the floor of 256 times the value |
| Vectors.ColorChannels | src/vec3.rs:287-305 | each channel is the clamped, quantised gamma-2 average of its sum, and lies in 0..255 |
| Rays.At | src/ray.rs:23-25 | `origin + t * direction`; Rays.AtOffset, Rays.AtEndpoints and Rays.AtAdditive state where it lies |
| Rays.AtOffset | src/ray.rs:23-25 | the point at `t` is `t` directions away from the origin |
| Rays.AtEndpoints | src/ray.rs:23-25 | `at(0)` is the origin and `at(1)` is the origin plus the direction |
| Rays.AtAdditive | src/ray.rs:23-25 | advancing by `s` and then by `t` from the new origin is advancing by `s + t` |
| Materials.MetalNew | src/material.rs:48-54 | the fuzz is capped at 1: a fuzz below 1 is kept, any other becomes 1; the albedo is kept |
| Materials.MetalNewIdempotent | src/material.rs:48-54 | re-capping an already capped fuzz changes nothing |
| Materials.Pow | src/material.rs:83 | `powi`: the exact natural power; Materials.PowInUnitRange states that it keeps [0, 1] |
| Materials.R0 | src/material.rs:81-82 | `((1 - ref_idx) / (1 + ref_idx))^2`; Materials.R0InUnitRange states that it lies in [0, 1) for a positive index |
| Materials.Schlick | src/material.rs:80-84 | `r0 + (1 - r0) (1 - cosine)^5`; Materials.SchlickEndpoints and Materials.SchlickIsProbability state its values at the ends and that it is a probability |
| Materials.SchlickEndpoints | src/material.rs:80-84 | at normal incidence the reflectance is `r0`; at grazing incidence it is 1 |
| Materials.PowInUnitRange | src/material.rs:83 | a power of a number in [0, 1] stays in [0, 1] |
| Materials.R0InUnitRange | src/material.rs:81-82 | for a positive index, `r0` lies in [0, 1) |
| Materials.SchlickIsProbability | src/material.rs:80-84 | for a positive index and a cosine in [0, 1], the reflectance lies between `r0` and 1, so it is a probability |
| Hit.NewHitRecord | src/hit.rs:26-40 | the record is front-facing iff the ray runs against the outward normal; the stored normal is the outward one or its negation accordingly, and always faces against the ray; point, parameter and material are stored |
| Spheres.DiscriminantPositive | src/sphere.rs:30-42 | a positive discriminant implies `a > 0` and a non-zero radius, so neither division in `hit` is by zero |
| Spheres.NearRoot | src/sphere.rs:37-38 | `(-half_b - sqrt(discriminant)) / a`; Spheres.QuadraticRoots states that it is a root of the ray-sphere quadratic and not after FarRoot |
| Spheres.FarRoot | src/sphere.rs:50-52 | `(-half_b + sqrt(discriminant)) / a`; Spheres.QuadraticRoots states that it is the other root |
| Spheres.SphereRecord | src/sphere.rs:40-49 | the record is `HitRecord::new` at `at(t)` with the outward normal `(p - center) / radius` and the sphere's material |
| Spheres.SphereHit | src/sphere.rs:29-68 | a non-positive discriminant misses; a hit lies strictly inside (t_min, t_max), is the near or the far root, and carries the sphere's record |
| Spheres.SphereQuadratic | src/sphere.rs:30-34 | the point at `t` lies on the sphere iff `t` solves `a t^2 + 2 half_b t + c = 0` |
| Spheres.DistanceAlongRay | src/sphere.rs:30-34 | the squared distance from the centre at `t`, less `r^2`, is that quadratic |
| Spheres.QuadraticRoots | src/sphere.rs:34-52 | with a positive discriminant the quadratic vanishes exactly at the two roots `hit` computes, and the near root is not after the far one |
| Spheres.QuadraticNoRoots | src/sphere.rs:34-36 | with a negative discriminant the quadratic never vanishes |
| Spheres.SphereHitIsNearest | src/sphere.rs:29-68 | a hit is on the sphere and no point of the ray strictly between t_min and it is; a miss means the ray meets the sphere in the interval at most tangentially |
| Spheres.SphereHitShrink | src/sphere.rs:36-67 | searching below a smaller bound gives the same hit when it is below that bound, and a miss otherwise |
| Spheres.SphereHitHeadOn | src/sphere.rs:29-68 | a unit ray aimed at a centre `k` ahead hits at `k - radius`, front-facing, with the normal pointing back along the ray |
| Spheres.SphereHitAhead | src/sphere.rs:29-68 | a sphere of radius 0.5 centred one unit ahead of a ray along -z (the origin looking at (0, 0, -1)) is hit at t = 0.5 on its front face with normal (0, 0, 1), whatever the ray's origin |
| Spheres.SphereMissed | src/sphere.rs:29-68 | the same ray misses a sphere of radius 0.5 at (5, 5, 5) |
| Scene.ClosestHit | src/hit.rs:78-90 | the list's hit lies inside the interval, and it is a miss iff every object on its own misses |
| Scene.ClosestHitIsNearest | src/hit.rs:78-90 | no object on its own reports a hit nearer than the list's hit |
| Scene.ClosestHitIsFirstNearest | src/hit.rs:82-87 | the list's hit is the one some object reports on its own, and every earlier object misses or hits strictly farther away |
| Scene.BoundNeverIncreases | src/hit.rs:82-87 | searching one more object never raises `closest_so_far`, which never exceeds `t_max` |
| Scene.HittableList.constructor | src/hit.rs:62-65 | the default list is empty |
| Scene.HittableList.Clear | src/hit.rs:68-70 | the list becomes empty |
| Scene.HittableList.Add | src/hit.rs:72-74 | the object is appended after the objects already present |
| Scene.HittableList.Hit | src/hit.rs:78-90 | the loop with the shrinking `closest_so_far` returns exactly `ClosestHit` of the objects |
| Scattering.LambertianScatter | src/material.rs:34-39 | the scattered ray starts at the hit point, is attenuated by the albedo and points along the normal plus the random unit vector |
| Scattering.LambertianLeavesSurface | src/material.rs:34-39 | with a unit normal and a unit draw the scattered direction never points into the surface |
| Scattering.MetalDirection | src/material.rs:59-60 | the mirror direction of the normalised incoming ray plus `fuzz` times the draw; Scattering.MetalMirror states that without fuzz it is the mirror direction |
| Scattering.MetalScatter | src/material.rs:58-67 | the ray is kept, attenuated by the albedo from the hit point, exactly when the fuzzed reflection leaves on the normal's side; otherwise it is absorbed |
| Scattering.MetalMirror | src/material.rs:58-67 | without fuzz, a metal reflects exactly the rays that arrive against the normal, in the mirror direction |
| Scattering.Eta | src/material.rs:90-94 | the index ratio is never 0 or -1, and it is positive iff the refractive index is |
| Scattering.CosTheta | src/material.rs:97 | `cos_theta` is at most 1 and at most the cosine of the incident angle, and equals one of them |
| Scattering.SinTheta | src/material.rs:98 | `sqrt(1 - cos_theta^2)`; Scattering.SineInUnitRange states that it lies in [0, 1] for a cosine in [0, 1] |
| Scattering.TotalInternalReflection | src/material.rs:100 | `etai_over_etat * sin_theta > 1`; Scattering.EnteringGlassRefracts states that it never holds for a ray entering glass of index at least 1, and Scattering.DielectricIgnoresDrawUnderTotalReflection that under it the draw does not matter |
| Scattering.DielectricScatter | src/material.rs:88-116 | glass never absorbs or tints; it reflects under total internal reflection, otherwise reflects when the draw is below Schlick's reflectance and refracts when it is not |
| Scattering.DielectricIgnoresDrawUnderTotalReflection | src/material.rs:100-104 | under total internal reflection the random draw does not matter |
| Scattering.CosThetaInUnitRange | src/material.rs:96-97 | for a ray meeting the stored normal, `cos_theta` lies in [0, 1] |
| Scattering.DielectricReflectanceIsProbability | src/material.rs:96-107 | for a positive index, the reflectance compared with the uniform draw lies in [0, 1] |
| Scattering.EnteringGlassRefracts | src/material.rs:90-104 | a ray entering glass of index at least 1 never undergoes total internal reflection |
| Scattering.SineInUnitRange | src/material.rs:98 | for a cosine in [0, 1], `sin_theta` lies in [0, 1] |
| Scattering.DielectricIndexOneUnbent | src/material.rs:88-116 | glass of index 1 either reflects with Schlick's probability or lets a unit ray through unbent |
| Scattering.Scatter | src/material.rs:8-14 | only a metal can absorb; a scattered ray starts at the hit point and is attenuated by white for glass and by the albedo otherwise |
| Cameras.NewCamera | src/camera.rs:18-53 | `Camera::new`: the viewport, the frame `u, v, w`, the focus-plane rectangle and the lens radius; Cameras.NewCameraFrame, Cameras.NewCameraScreenCenter, Cameras.NewCameraViewport and Cameras.NewCameraPinhole state what it builds |
| Cameras.GetRay | src/camera.rs:55-63 | a ray from the lens sample to the screen point; Cameras.GetRayFocus, Cameras.GetRayPinhole and Cameras.LensRay state where it starts and what it reaches |
| Cameras.GetRayFocus | src/camera.rs:55-63 | whatever the lens sample, the ray reaches the same screen point at parameter 1, so the focus plane is sharp |
| Cameras.GetRayPinhole | src/camera.rs:55-63 | with a zero lens radius the ray starts at the camera origin and points at the screen point |
| Cameras.NewCameraPinhole | src/camera.rs:18-63 | a camera built with aperture 0 shoots every ray from `lookfrom` |
| Cameras.NewCameraFrame | src/camera.rs:27-53 | the origin is `lookfrom`, the lens radius is half the aperture, and `u, v, w` is orthonormal with `u` orthogonal to `vup` |
| Cameras.OrthonormalFrame | src/camera.rs:32-34 | `w = unit(d)`, `u = unit(vup x w)`, `v = w x u` is orthonormal, with `u` orthogonal to `vup` |
| Cameras.NewCameraScreenCenter | src/camera.rs:36-39 | the middle of the screen lies `focus_dist` in front of `lookfrom` along `-w`, and is `lookat` when `focus_dist` is the distance to it |
| Cameras.NewCameraViewport | src/camera.rs:27-38 | the horizontal and vertical edges have lengths `focus_dist` times the viewport width and height |
| Cameras.LensRay | src/camera.rs:55-60 | a ray's origin lies off the camera origin by `lens_radius` times the disk sample's length, hence within the lens |
| Render.RayColor | src/main.rs:30-47 | `ray_color`: black with no bounces left, the sky on a miss, black when the material absorbs, else the attenuation times the colour of the scattered ray; Render.RayColorExhausted, Render.RayColorMissesSky, Render.RayColorAbsorbed, Render.RayColorLastBounce, Render.RayColorUsesDepthDraws and Render.RayColorInUnitRange state its cases and bounds |
| Render.Background | src/main.rs:44-46 | the sky along the normalised direction; Render.BackgroundInUnitRange and Render.BackgroundVertical state its range and its values straight up and down |
| Render.SkyBlend | src/main.rs:46 | `(1 - t) white + t blue`; Render.SkyBlendEnds and Render.SkyBlendInUnitRange state its ends and its range |
| Render.SkyBlendInUnitRange | src/main.rs:46 | for `t` in [0, 1] every channel of the blend lies in [0, 1] |
| Render.SkyBlendEnds | src/main.rs:46 | the blend is white at 0 and light blue at 1 |
| Render.BackgroundInUnitRange | src/main.rs:44-46 | the sky's channels lie in [0, 1] for every direction |
| Render.BackgroundVertical | src/main.rs:44-46 | straight up shows light blue and straight down shows white |
| Render.RayColorExhausted | src/main.rs:32-34 | with no bounces left no light is gathered |
| Render.RayColorUsesDepthDraws | src/main.rs:30-47 | the colour depends only on the draws of the `depth` bounces still allowed |
| Render.RayColorMissesSky | src/main.rs:36-46 | a ray that every object misses shows the sky |
| Render.RayColorAbsorbed | src/main.rs:36-41 | a ray whose hit material absorbs it gathers black, at any number of bounces left |
| Render.FilterBlack | src/main.rs:38 | filtering black by any attenuation gives black |
| Render.FilterInUnitRange | src/main.rs:38 | an attenuation in [0, 1] applied to a colour in [0, 1] stays in [0, 1] |
| Render.RayColorLastBounce | src/main.rs:32-41 | on its last bounce a ray that hits something gathers black |
| Render.RayColorInUnitRange | src/main.rs:30-47 | in a world whose albedos lie in [0, 1], every channel of the gathered colour lies in [0, 1] |
| Render.HitMaterialInWorld | src/main.rs:36-37 | the material scattering the ray is the material of some sphere `world[i]` of the world, so in a world of physical materials it is physical |

## Left out

- IEEE-754 behaviour (rounding, infinities, NaN) is not modelled; `f64` is an exact real.
- `f64::sqrt`, `f64::tan` and `f64::powi` are not computed: the first two are parameters and `powi` is the exact power `Materials.Pow`.
- `random_f64`, `random_f64_range`, `Vec3::random`, `random_in_unit_sphere`, `random_unit_vector`, `random_in_unit_disk` and `Color::random` are not modelled: their results are parameters. The rejection loops and the random generator are not modelled either; `Cameras.InUnitDisk` states what the disk sampler returns.
- Vectors.UnitVector: normalising the zero vector divides by zero in the source and gives a NaN vector; the model returns the zero vector instead. Vectors.UnitVectorComponents, Vectors.UnitVectorKeepsSide, Render.BackgroundInUnitRange and Render.RayColorInUnitRange hold at a zero direction only because of this choice. Such a direction can reach the sky: a Lambertian draw equal to the negated normal (`src/material.rs:35`) scatters along the zero vector, every sphere misses it, and `src/main.rs:44` normalises it, so the source produces a NaN colour where the model produces a blend in [0, 1].
- Vectors.Div and Vectors.Vec3Var.DivAssign require a non-zero divisor; division by zero gives infinities or NaN in the source.
- Vectors.AsI32: the NaN case of `as i32` (which yields 0) has no counterpart on reals.
- Materials.RefIdx excludes the indices 0 and -1, at which `1.0 / ref_idx` or Schlick's `1.0 + ref_idx` divides by zero.
- `main`, `random_scene`, the pixel loop, the thread pool, the channel and the progress bar are not modelled: they are I/O and concurrency. The PPM output and the `Display`/format strings are not modelled either; `ColorChannels` gives the three integers that are printed.
- The `Debug` implementations for `dyn Material` and `dyn Hittable` are not modelled. They format `self` with itself and are never used by the tracer.
- `Rc`/`Arc` sharing is not modelled. The `Hittable` and `Material` traits are closed datatypes: the only hittable is a sphere, and the world is a sequence of spheres.
- `HitRecord` carries the material. `src/sphere.rs:43-49` passes one and `src/main.rs:37` reads it, although `src/hit.rs:5-40` has neither the field nor the parameter.
- The getters `Ray::origin`, `Ray::direction` and `Vec3::x/y/z` are the datatype's fields. `Color::new` and `Color::from_vec` are the constructor `Color`. The operators derived for the colour newtype (`src/vec3.rs:239-247`) are `ColorAdd` and `ColorMul`; `ColorScale` is the hand-written `impl Mul<Color> for f64` (`src/vec3.rs:250-256`).
- Render.RayColor takes each bounce's draws from a function of the number of bounces left. It does not consume them from a shared random stream.
