# Ray tracer core: scene intersection and light transport

This project models the heart of a small Rust path tracer in the style of
"Ray Tracing in One Weekend" / "The Next Week": the vector algebra, rays,
axis-aligned bounding boxes and their slab test, hit records and the
object list, bounding volume hierarchies, the primitives (spheres, moving
spheres, axis-aligned rectangles and boxes), the instances (`Translate`,
`Rotate`), constant-density media, the five materials, and `ray_colour`,
which follows a ray's bounces through the world.

The model follows the code as written, including where it departs from the
textbook:

- `Vec3`'s `+` takes its y component from the left operand's x
  (`y = a.x + b.y`). Every vector sum in the renderer goes through it
  (`Ray::at`, translation, sphere boxes, colour accumulation); `Sum` does not.
- The slab test swaps `t0` and `t1` for a negative direction after already
  ordering them, so such a ray misses every box.
- `BVH::new` never sorts: it splits a span at its middle and orders only
  two-object spans, by a randomly chosen axis.
- The moving sphere's first box runs from `centre(time0) - r` to
  `centre(time1) + r`.
- `Rotate::new` turns the corners in the x–z plane whatever the plane, and
  only updates components 0 and 1 of the box, so z stays at `(+∞, -∞)`.
- `Metal::new` caps the fuzz at 1 but does not bound it from below.

Reals stand for `f64` with exact arithmetic; `XReal` adds the two infinities
the code uses as bounds. `sqrt`, `ln`, `cos`, `sin`, `acos` and `atan2` are
fields of a `Maths` record restricted only by the sign laws the proofs need.
Every random draw is a parameter:
- the medium's uniform draw;
- a `Bounce` (a point on the unit sphere and a uniform number) for each
  scattering;
- the BVH axis, as a function of the node's span.

Textures are opaque `value(tp, p)` functions. Where the source panics, the
model either requires the condition away (division by zero, `ix` past the
end, `unwrap` of the inner box in `Rotate::new`) or returns `None`
(`box_compare`, `BVH::new`, a dielectric normalising a zero-length direction
in `ray_colour`).

Structure: `Numbers`, `Vectors`, `Rays`, `Boxes`, `Records`, `Materials`,
`Spheres`, `MovingSpheres`, `Rects`, `Transforms`, `Media`, `Scene` (the
`Hittable` datatype with the recursive `hit` and `bounding_box`), `Lists`
(the `HittableList` class), `Bvh`, `Construction` (the constructors that
compute) and `Integrator`.

## Model

| member | source | states |
|---|---|---|
| Numbers.XMin | src/aabb.rs:26-28 | `f64::min` without NaN: the result is one of the operands and at most both |
| Numbers.XMax | src/aabb.rs:32-34 | `f64::max` without NaN: the result is one of the operands and at least both |
| Numbers.XAdd | src/transform.rs:31 | adding a finite offset keeps an infinite bound infinite and shifts a finite one |
| Numbers.XAffine | src/aabb.rs:59-64 | `(x - o) * inv` on extended reals: infinities keep or flip sign with `inv` |
| Numbers.DegToRad | src/transform.rs:48 | `radians · 180 = degrees · π` at every angle |
| Vectors.Vec3.Set | src/aarect.rs:55-56 | `set(i, v)` writes component `i` and leaves the other two unchanged |
| Vectors.Vec3.SetAll | src/aarect.rs:74-77 | `set_all(order, values)` writes each value to the component `order` names, the later write winning |
| Vectors.Add | src/vec3.rs:103-109 | `x = a.x + b.x`, `y = a.x + b.y`, `z = a.z + b.z`, as written |
| Vectors.AddNotCommutative | src/vec3.rs:103-109 | `(1,0,0) + 0` and `0 + (1,0,0)` differ, so `+` is not commutative |
| Vectors.AddZeroRight | src/vec3.rs:103-109 | adding zero on the right gives `(a.x, a.x, a.z)`, which is `a` only when `a.x == a.y` |
| Vectors.Div | src/vec3.rs:143-152 | division by a non-zero scalar is undone by scaling back; a zero divisor is excluded (the source panics) |
| Vectors.SumIsComponentwise | src/vec3.rs:154-163 | `Sum`, the fold of `Vectors.Sum`, gives, in every component, the total of that component; the empty sum is zero |
| Vectors.SumOfTwoIsNotAdd | src/vec3.rs:154-163 | summing two vectors is true addition, equal to `Add` exactly when `a.x == a.y` |
| Vectors.DotSymmetric | src/vec3.rs:173-175 | `dot` does not depend on the order of its arguments |
| Vectors.DotScale | src/vec3.rs:173-175 | scaling either argument of `dot` scales the product: `dot` is a true inner product, untouched by `Add`'s y component |
| Vectors.Cross | src/vec3.rs:165-171 | the cross product is orthogonal to both operands |
| Vectors.LengthSquared | src/vec3.rs:62-64 | `length_squared` is never negative and is zero on the zero vector |
| Vectors.Length | src/vec3.rs:66-68 | `length` is never negative and is positive when the squared length is |
| Vectors.NearZeroComponents | src/vec3.rs:57-60 | `near_zero` holds only when every component is below `1e-5` in magnitude, and holds when every component is below `5e-6` |
| Vectors.Unit | src/vec3.rs:70-72 | `unit` scaled back by the length gives the vector; a zero length is excluded (the source panics) |
| Vectors.Reflect | src/vec3.rs:177-179 | each component of `reflect(v, n)` is `v_i - 2 dot(v, n) n_i`: `Sub` and scalar products only |
| Vectors.ReflectFlipsNormalComponent | src/vec3.rs:177-179 | about a unit normal, reflection negates the normal component |
| Vectors.ReflectInvolution | src/vec3.rs:177-179 | about a unit normal, reflecting twice gives the vector back |
| Vectors.Clamp | src/vec3.rs:188-196 | `min` below the range, `max` above it, `x` inside; in `[min, max]` when `min <= max` |
| Vectors.Channel | src/vec3.rs:84-86 | each output channel is an integer in `[0, 255]` |
| Vectors.GammaChannel | src/vec3.rs:77-86 | a channel prints NaN exactly when its average is negative, and otherwise an integer in `[0, 255]` |
| Vectors.WriteColour | src/vec3.rs:74-88 | each printed channel is NaN exactly when the colour's component is negative, and otherwise in `[0, 255]`; black maps to `(0, 0, 0)` |
| Vectors.CosTheta | src/material.rs:121 | `dot(-unit, n)` where that is at most 1, and exactly 1 above; `refract` (src/vec3.rs:182) takes the same cosine |
| Rays.At | src/ray.rs:30-32 | `at(t)` is `origin + t direction` in x and z, and `origin.x + t direction.y` in y |
| Rays.PointAt | src/ray.rs:30-32 | reference point `origin + t direction`, computed componentwise |
| Rays.AtIsPointAtOnlyOnDiagonal | src/ray.rs:30-32 | `at` agrees with the true point in x and z, and in y exactly when `origin.x == origin.y` |
| Rays.AtZeroIsOriginOnlyOnDiagonal | src/ray.rs:30-32 | `at(0)` is the origin exactly when `origin.x == origin.y` |
| Boxes.SurroundingBox | src/aabb.rs:24-38 | the result holds both boxes, and each bound is one of the two inputs' bounds |
| Boxes.SurroundingBoxIsLeast | src/aabb.rs:24-38 | any box holding both boxes holds their surrounding box |
| Boxes.SurroundingBoxIdempotent | src/aabb.rs:24-38 | `surrounding_box(b, b) == b` |
| Boxes.SurroundingBoxCommutes | src/aabb.rs:24-38 | the order of the two boxes does not matter |
| Boxes.TimesInfinity | src/aabb.rs:53-61 | a zero direction sends a plane to ±∞, or to NaN exactly when the origin lies on it |
| Boxes.SlabEnds | src/aabb.rs:53-68 | one axis's `(t0, t1)` after the swap: defined for any non-zero direction, and reversed (`t1 <= t0`) for a negative one |
| Boxes.RaiseLow | src/aabb.rs:70 | the running `t_min` never decreases |
| Boxes.LowerHigh | src/aabb.rs:71 | the running `t_max` never increases |
| Boxes.SlabTest | src/aabb.rs:51-79 | the three-axis loop with its early exit returns the slab-test outcome `BoxHit`, which `SlabFrom` computes axis by axis |
| Boxes.Lowest | src/aabb.rs:70 | the final lower end is at least the starting `t_min` |
| Boxes.Highest | src/aabb.rs:71 | the final upper end is at most the starting `t_max` |
| Boxes.SlabFromFinal | src/aabb.rs:73-78 | the early exit changes nothing: the loop succeeds exactly when the final interval is non-empty |
| Boxes.BoxHitIffInterval | src/aabb.rs:51-79 | `hit` is true exactly when the clipped interval is non-empty, which needs `t_min < t_max` |
| Boxes.LowestAboveEnds | src/aabb.rs:70 | every axis's `t0` lies at or below the final lower end |
| Boxes.HighestBelowEnds | src/aabb.rs:71 | every axis's `t1` lies at or above the final upper end |
| Boxes.NegativeDirectionMisses | src/aabb.rs:59-75 | a negative direction component makes `hit` false for every box, because of the second swap |
| Boxes.SlabPointAndAt | src/aabb.rs:59-64 | the slab test measures the point componentwise; `at` agrees in y only when `origin.x == origin.y` |
| Boxes.AffineCompare | src/aabb.rs:59-64 | for a positive direction, a plane's parameter is below `t` exactly when the plane is below the point at `t` |
| Boxes.HitWhenInside | src/aabb.rs:51-79 | positive directions: a parameter in `(t_min, t_max)` whose point is strictly inside the box makes `hit` true |
| Boxes.InsideWhenHit | src/aabb.rs:51-79 | positive directions and an ordered box: `hit` true yields a parameter in `(t_min, t_max)` whose point is strictly inside |
| Records.SetFaceNormal | src/hittable.rs:54-61 | front face exactly when `dot(dir, outward) < 0`; the normal is `outward` or `-outward` accordingly, so `dot(dir, n) <= 0`; the rest is kept |
| Records.SetFaceNormalIgnoresOrientation | src/hittable.rs:54-61 | flipping the outward normal flips the face flag and leaves the stored normal unchanged |
| Records.SetFaceNormalTwiceIsFront | src/hittable.rs:54-61 | facing a record again with its own normal always reports the front face |
| Records.SetP | src/hittable.rs:63-65 | `set_p` replaces the point and nothing else |
| Materials.Emit | src/material.rs:156-160 | a diffuse light emits its texture's value; every other material emits black (the trait's default) |
| Materials.NewMetal | src/material.rs:70-74 | the fuzz is capped at 1, kept below 1 |
| Materials.LambertianDirection | src/material.rs:50-55 | the direction is `n + onSphere` (through `Add`) unless that sum is near zero, and then exactly `n`; it is never near zero unless `n` is |
| Materials.LambertianScatter | src/material.rs:48-62 | always scatters from the hit point at the ray's time, coloured by the albedo at `(tp, p)` |
| Materials.MetalScatter | src/material.rs:77-95 | scatters exactly when the fuzzed reflection leaves on the normal's side, with the albedo colour |
| Materials.MetalWithoutFuzzCopiesX | src/material.rs:79-83 | `MetalDirection`, reflection plus fuzzed sphere point: with zero fuzz, `Add` copies the reflection's x into y: the metal is not a mirror |
| Materials.PowUnitInterval | src/material.rs:108-109 | `powi` keeps numbers in `[0, 1]` in `[0, 1]` |
| Materials.NormalReflectanceBounds | src/material.rs:108 | `r0` lies in `[0, 1)` for a positive ratio, and is 0 for ratio 1 |
| Materials.ReflectanceEnds | src/material.rs:107-110 | Schlick's `Reflectance`: `reflectance(1, r) == r0` and `reflectance(0, r) == 1` |
| Materials.ReflectanceBounds | src/material.rs:107-110 | `Reflectance`: for a cosine in `[0, 1]` the reflectance lies in `[r0, 1]` |
| Materials.RefractiveRatio | src/material.rs:115-119 | `1 / index` on the front face and `index` otherwise; always positive |
| Materials.DielectricScatter | src/material.rs:113-139 | always scatters from the hit point with colour `(1, 1, 1)` along the dielectric direction of the unit direction |
| Materials.BackwardCosineRefracts | src/material.rs:121-124 | a cosine below -1 (a normal longer than 1) makes `sin θ` NaN, so `cannot_refract` is false |
| Materials.TotalInternalReflection | src/material.rs:120-131 | `DielectricDirection`: when `ratio sin θ > 1` the dielectric reflects, whatever the draw |
| Materials.ReflectsWithSchlickProbability | src/material.rs:120-131 | `DielectricDirection`: when refraction is possible, it reflects exactly when the draw falls below the reflectance, else refracts |
| Materials.IsotropicScatter | src/medium.rs:79-85 | always scatters from the hit point in the drawn direction, coloured by the albedo at `(tp, p)` |
| Materials.Scatter | src/material.rs:5-8 | absorbs exactly for a light (the trait default) and a metal bouncing inwards; scattered rays start at the hit point at the ray's time |
| Materials.EmitsOrScatters | src/material.rs:5-13 | a material that scatters emits black, and a light never scatters |
| Spheres.QuadraticRoot | src/sphere.rs:54-67 | no root for a negative discriminant; the near root when in range, else the far root when in range, else none; any root is in range |
| Spheres.NearRootFirst | src/sphere.rs:60-63 | for `a > 0` the near root is the smaller |
| Spheres.RootsSolveQuadratic | src/sphere.rs:50-63 | with exact square roots, both roots solve `a t² + 2 half_b t + c = 0` |
| Spheres.SelectedRootSolves | src/sphere.rs:60-66 | the root chosen solves the quadratic |
| Spheres.RootOnSphere | src/sphere.rs:50-54 | a root of the quadratic puts `origin + t direction` at distance `r` from the centre |
| Spheres.SphereTexturePoint | src/sphere.rs:28-45 | `u` lies in `[0, 1]` when `atan2` has its range; `v` does when `acos` has its range on `[-1, 1]` and `p.y` lies there |
| Spheres.SphereHit | src/sphere.rs:49-77 | a hit exists exactly when the root choice gives one; its `t` is that root, its point `at(t)`; with `outward = (p - centre) / r`, the front face is `dot(dir, outward) < 0`, the normal is `outward` or `-outward` accordingly, and `tp` is the texture point of `outward` |
| Spheres.SphereHitOnSurface | src/sphere.rs:49-77 | with exact square roots, the true point `origin + t direction` at the hit's `t` is on the sphere; the record's `p`, computed through `Add`, is off it unless `origin.x == origin.y` |
| Spheres.SphereBox | src/sphere.rs:79-85 | the box is `centre - r` to `centre + r` through `Add`, so its top y is `centre.x + r` |
| Spheres.SphereBoxCoversY | src/sphere.rs:79-85 | the box covers the sphere's top exactly when `centre.y <= centre.x` |
| MovingSpheres.Centre | src/moving_sphere.rs:22-24 | the centre interpolates between the key times, with `Add`'s y component |
| MovingSpheres.CentreAtKeyTimes | src/moving_sphere.rs:22-24 | the centre at `time0` is `(c0.x, c0.x, c0.z)`, equal to `centre0` only when `c0.x == c0.y`; its value at `time1` likewise |
| MovingSpheres.StationaryCentre | src/moving_sphere.rs:22-24 | a sphere that does not move sits at `(c.x, c.x, c.z)` at every time |
| MovingSpheres.MovingSphereHit | src/moving_sphere.rs:28-56 | the fixed-sphere test against `centre(ray.time)`, so `Spheres.SphereHit`'s contract applies: no hit on a negative discriminant, the near root before the far one, the normal `(p - centre(time)) / r` faced against the ray; any hit is in range, at `at(t)`, with the sphere's material |
| MovingSpheres.MovingSphereBox | src/moving_sphere.rs:58-71 | the box holds both `box0` (centre(time0) - r to centre(time1) + r) and the sphere's box at `time1`; its lower corner is the componentwise minimum of `centre(time0) - r` and `centre(time1) - r` |
| MovingSpheres.MovingSphereBoxTop | src/moving_sphere.rs:61-70 | the box's top is the top of the sphere at `time1` alone |
| Rects.Axes | src/aarect.rs:12-19 | each plane's axes are distinct and in cyclic order |
| Rects.AxesCoverAll | src/aarect.rs:12-19 | every axis is one of a plane's three |
| Rects.PlaneT | src/aarect.rs:42 | a parameter exists exactly when the direction crosses the plane, and the ray reaches height `k` there |
| Rects.PlaneTUnique | src/aarect.rs:42 | any parameter at which the ray reaches height `k` is that one |
| Rects.EdgeRatio | src/aarect.rs:58-59 | on a proper edge, a coordinate within it maps into `[0, 1]` |
| Rects.AxisNormal | src/aarect.rs:55-56 | the outward normal is the unit vector of the normal axis |
| Rects.RectHit | src/aarect.rs:39-68 | a hit is at the plane's parameter, in range and within the rectangle, with `u, v` in `[0, 1]` and a normal `±e_k` against the ray; every such parameter gives a hit |
| Rects.RectHitComplete | src/aarect.rs:39-68 | a parameter in range at which the ray crosses the rectangle is the one reported |
| Rects.RectBox | src/aarect.rs:70-81 | the box spans `[a0, a1]`, `[b0, b1]` and `k ± 0.0001` on the plane's axes |
| Rects.CrossingOnRect | src/aarect.rs:42-50 | a crossing within the rectangle lies within `[a0, a1]` and `[b0, b1]` on the plane's axes and at height `k` |
| Rects.PointInRectBox | src/aarect.rs:70-81 | every point within the rectangle lies in its box |
| Rects.RectHitInBox | src/aarect.rs:39-81 | every hit point lies in the rectangle's box |
| Rects.BoxSides | src/aarect.rs:91-102 | six rectangles, each a face of `[min, max]` with the box's material |
| Rects.BoxSidesCoverEveryFace | src/aarect.rs:94-99 | each of the six faces of the box is among the sides |
| Rects.PointOnFace | src/aarect.rs:94-99 | a point on a face of an ordered box lies within `[min, max]` |
| Rects.FaceHitOnBox | src/aarect.rs:94-99 | a hit on a face of an ordered box lies in the box |
| Transforms.TranslateRay | src/transform.rs:18 | the origin moves back by the offset; direction and time are kept |
| Transforms.TranslateRecord | src/transform.rs:20-23 | the point moves by the offset through `Add`; the face is decided again with the inner normal; `t`, `tp` and material are kept |
| Transforms.TranslateLosesBackFace | src/transform.rs:20-23 | a back-face inner hit comes out as a front-face hit |
| Transforms.TranslatedPoint | src/transform.rs:18-21 | the moved-back point is `at(t)` in x and z, and in y only when `offset.y - offset.x == t (d.y - d.x)` |
| Transforms.XShift | src/transform.rs:31 | a corner shifted through `Add`: its y is `v.x + offset.y` |
| Transforms.TranslateBox | src/transform.rs:29-35 | both corners shifted by the offset |
| Transforms.TranslateBoxHeightIsWidth | src/transform.rs:29-35 | the translated box's height is the inner box's width |
| Transforms.RotateIn | src/transform.rs:91-95 | `i' = c v_i - s v_j`, `j' = s v_i + c v_j`, the normal axis kept |
| Transforms.RotateOut | src/transform.rs:100-106 | `i' = c p_i + s p_j`, `j' = -s p_i + c p_j`, the normal axis kept |
| Transforms.RotationInverse | src/transform.rs:91-106 | with `c² + s² = 1`, the two plane maps undo each other in both orders |
| Transforms.RotateRoundTrip | src/transform.rs:91-106 | with `c² + s² = 1`, world-to-object then object-to-world is the identity, and the other way round |
| Transforms.RotateByZero | src/transform.rs:91-106 | for `c = 1, s = 0` both maps are the identity |
| Transforms.RotateRay | src/transform.rs:87-97 | origin and direction turned into the object's frame; time kept |
| Transforms.RotateRecord | src/transform.rs:99-111 | point and normal turned out; the face decided against the rotated ray; `t`, `tp` and material kept |
| Transforms.CornerIndex | src/transform.rs:58-63 | corner `4i + 2j + k` is the one the loops visit at `(i, j, k)` |
| Transforms.TurnedCorner | src/transform.rs:61-68 | the loop body's `temp` is the corner turned in x–z |
| Transforms.BoxTurnsAgainstHits | src/transform.rs:65-66 | the corners turn as `c x + s z` while hits turn out as `c x - s z`: they differ whenever `s z != 0` |
| Transforms.AbsorbCorner | src/transform.rs:70-73 | the loop over `a` takes one turned corner into components 0 and 1 of the running minimum and maximum |
| Transforms.VisitCorner | src/transform.rs:60-74 | one pass of the innermost loop extends the extent of the corners visited so far by corner `4i + 2j + k` |
| Transforms.AbsorbWidens | src/transform.rs:70-73 | the loop over `a` widens components 0 and 1 by the corner and leaves z untouched |
| Transforms.ExtentKeepsZ | src/transform.rs:54-79 | the box's z extent stays at `+∞` (min) and `-∞` (max) |
| Transforms.ExtentBoundsCorners | src/transform.rs:58-77 | components 0 and 1 of the box bound every turned corner |
| Transforms.ExtentIsTight | src/transform.rs:58-77 | any bound on every turned corner bounds the box: it is the tightest |
| Transforms.RotatedBox | src/transform.rs:54-79 | the nested corner loops compute the extent over all eight turned corners |
| Transforms.InvertedInfiniteAxisIsOpen | src/aabb.rs:59-71 | an axis running from `+∞` down to `-∞` contributes `(-∞, +∞)` to a ray not travelling backwards, leaving the interval unchanged |
| Media.NegInvDensity | src/medium.rs:16 | `nid * density == -1`, negative exactly for a positive density |
| Media.Entry | src/medium.rs:30-32 | the entry is raised to `max(t_min, 0)` and is one of the two |
| Media.Exit | src/medium.rs:33-35 | the exit is lowered to `t_max` and is one of the two |
| Media.MediumScatterPoint | src/medium.rs:37-53 | scatters exactly when entry ≤ exit, the draw and length are positive and the drawn distance fits within the boundary; the point is at `at(t)` with `t len = entry len + distance`, normal `(1,0,0)`, front face, the entry's `tp` and the phase material |
| Media.ClippedEndsFinite | src/medium.rs:30-37 | once the exit is not before the entry, both are finite |
| Media.MediumScatterNotPastExit | src/medium.rs:33-47 | whatever the density, the scattering point is not past the exit, `t_max` or the boundary's exit |
| Media.DrawnDistanceSign | src/medium.rs:42 | the drawn distance is non-negative for a positive density and negative for a negative one |
| Media.MediumScatterInRange | src/medium.rs:30-47 | for a positive density the point lies between entry and exit, in `[t_min, t_max]`, at or after 0 and between the two boundary hits |
| Media.NegativeDensityScattersBeforeEntry | src/medium.rs:40-47 | for a negative density the point lies before the entry, so possibly before `t_min` |
| Scene.Hit | src/hittable.rs:9-12 | no object reports a hit past `t_max` |
| Scene.Sweep | src/hittable.rs:93-105 | the list never reports a hit past `t_max` |
| Scene.BvhHit | src/bvh.rs:59-77 | a BVH node never reports a hit past `t_max`, although its right child is asked up to the left child's hit |
| Scene.TranslateHit | src/transform.rs:17-27 | a translated object never reports a hit past `t_max` |
| Scene.RotateHit | src/transform.rs:86-115 | a rotated object never reports a hit past `t_max` |
| Scene.MediumHit | src/medium.rs:27-62 | a medium never reports a hit past `t_max`, whatever its density |
| Scene.HitCarries | src/hittable.rs:9-12 | a reported hit carries one of the object's materials: a primitive's own, or a medium's phase function |
| Scene.SweepCarries | src/hittable.rs:93-105 | a list's hit carries the material of one of its members |
| Scene.HitInRange | src/hittable.rs:9-12 | where every medium is dense, a reported hit is also at least `t_min` |
| Scene.SweepInRange | src/hittable.rs:93-105 | a list of dense members reports hits within `[t_min, t_max]` |
| Scene.BvhInRange | src/bvh.rs:59-77 | a node over dense children reports hits within `[t_min, t_max]` |
| Scene.MediumInRange | src/medium.rs:27-62 | a medium of positive density reports hits within `[t_min, t_max]` |
| Scene.SweepMissStep | src/hittable.rs:97-102 | one more object leaves the list missing exactly when it missed before and the new object misses |
| Scene.SweepMissesIffAllMiss | src/hittable.rs:93-105 | the list misses exactly when every object misses over the whole range |
| Scene.SweepNeverRecedes | src/hittable.rs:97-102 | the closest hit only moves closer as more objects are swept |
| Scene.SweepPicksAnObject | src/hittable.rs:97-102 | the list's hit is some object's hit asked with `t_min` and a bound no greater than `t_max` |
| Scene.TranslatedHit | src/transform.rs:17-27 | a translated object hits exactly when the inner object hits the moved ray, and reports that hit moved back |
| Scene.RotatedHit | src/transform.rs:86-115 | a rotated object hits exactly when the inner object hits the turned ray, and reports that hit turned back |
| Scene.BvhNodeIsPairList | src/bvh.rs:59-77 | a BVH node misses when its box misses, and otherwise answers as the two-object list of its children |
| Scene.TranslateByZero | src/transform.rs:17-27 | translating by zero keeps hits and their `t` and material, but moves the point to `(p.x, p.x, p.z)` |
| Scene.RotateByZeroDegrees | src/transform.rs:85-115 | rotating by zero degrees keeps hits, their point, `t` and material |
| Scene.ListObjBox | src/hittable.rs:107-125 | a list object's box is the fold of `surrounding_box` over its members |
| Scene.ListBoxNoneIff | src/hittable.rs:107-125 | a list has no box exactly when it is empty or a member has none |
| Scene.ListBoxStaysNone | src/hittable.rs:119-121 | once a prefix has no box no longer prefix has one, which justifies the early return |
| Scene.ListBoxCovers | src/hittable.rs:107-125 | `ListBox`, the fold of `surrounding_box`: the list's box holds every member's box |
| Scene.ListBoxIsLeast | src/hittable.rs:107-125 | any box holding every member's box holds the list's box |
| Lists.HittableList.constructor | src/hittable.rs:73-77 | a new list is empty |
| Lists.HittableList.Add | src/hittable.rs:79-81 | the object is appended at the end; earlier entries are kept |
| Lists.HittableList.Clear | src/hittable.rs:83-85 | the list becomes empty |
| Lists.HittableList.Ix | src/hittable.rs:87-89 | returns the object at the index, which must be in range (the source panics) |
| Lists.HittableList.AsObject | src/hittable.rs:68-70 | the list as a scene object with the same members |
| Lists.HittableList.Hit | src/hittable.rs:93-105 | the loop with its shrinking `closest` returns the sweep's result, the list object's hit |
| Lists.HittableList.BoundingBox | src/hittable.rs:107-125 | the loop with early returns returns the fold of `surrounding_box` over the members, which is the list object's box by `Scene.ListObjBox` |
| Bvh.BoxCompare | src/aabb.rs:40-49 | defined exactly when both objects have a box at time 0 (the source panics otherwise), and then true exactly when `a`'s box starts before `b`'s along the axis |
| Bvh.BoxCompareIrreflexive | src/aabb.rs:45 | no object comes before itself: ties compare false |
| Bvh.BoxCompareAsymmetric | src/aabb.rs:45 | if `a` comes before `b`, `b` does not come before `a` |
| Bvh.BoxCompareTransitive | src/aabb.rs:45 | the comparison is transitive |
| Bvh.Node | src/bvh.rs:46-54 | a node exists exactly when both children have boxes, and its box surrounds theirs |
| Bvh.Build | src/bvh.rs:13-55 | a successful construction is always a node, even over a single object, which becomes both children |
| Bvh.BuildSplits | src/bvh.rs:38-54 | a span of more than two objects gives a node over the hierarchies of its two halves, split at the middle, with their surrounding box |
| Bvh.BuildSmall | src/bvh.rs:24-37 | a single object is both children; of two objects, the left child is `objects[start]` exactly when `box_compare` puts it first, else the two are swapped |
| Bvh.BuildCovers | src/bvh.rs:13-55 | the hierarchy's box holds the box of every object in the span |
| Bvh.CoverHalves | src/bvh.rs:38-54 | a box around both halves' boxes covers the whole span |
| Bvh.BuildSucceeds | src/bvh.rs:22-54 | when every object in the span has a box, construction does not panic |
| Bvh.BuildKeepsEveryObject | src/bvh.rs:24-43 | every object of the span hangs in the hierarchy |
| Bvh.BuildAddsNoObject | src/bvh.rs:24-43 | every leaf of the hierarchy hangs below an object of the span |
| Construction.NewBox | src/aarect.rs:91-102 | the box keeps its corners and its six sides in the order they are added |
| Construction.BoxHitOnBox | src/aarect.rs:106-108 | a hit on an ordered box lies within `[min, max]` |
| Construction.NewRotate | src/transform.rs:47-82 | keeps the object and plane, stores `cos` and `sin` of the angle in radians, and the rotated box over `[0, 1]` |
| Construction.RotatedBoxOpenAlongZ | src/transform.rs:54-79 | the rotated box never restricts a ray along z that does not travel backwards |
| Construction.NewMedium | src/medium.rs:15-23 | an isotropic phase of the texture, `nid * density == -1`, and dense exactly when the density is positive and the boundary dense |
| Integrator.DepthExhaustedIsBlack | src/ray.rs:36-37 | at depth 0 the colour is black |
| Integrator.MissIsBackground | src/ray.rs:38-50 | when no object is hit from 0.001 on, the colour is the background |
| Integrator.LightIsItsEmission | src/ray.rs:39-47 | a closest hit on a light gives exactly its emission |
| Integrator.ScatteredLightIsAttenuated | src/ray.rs:41-44 | a scattering hit gives the incoming colour attenuated componentwise by the scattering colour |
| Integrator.BouncesClearTheSurface | src/ray.rs:38 | with dense media, every bounce lands at least 0.001 along the ray |
| Integrator.NoPanicWithoutDielectrics | src/ray.rs:35-51 | a world without dielectrics always yields a colour |

## Left out

- Main program, scenes, camera, textures, Perlin noise and benchmarks: scene configuration, image output, lens sampling and noise are outside the model. Textures are opaque `value(tp, p)` functions.
- Random generation: `random_on_unit_sphere`, `random()`, `random_in_unit_disc` and the BVH's `gen_range` are parameters. The rejection loops that produce them are not modelled.
- Concurrency and sharing: parallel sampling and `Arc`/`Send`/`Sync` are outside the model. Scenes are immutable values.
- Floating point:
  - reals are exact;
  - NaN is modelled where the source produces it from finite inputs: the slab test's zero direction with the origin on a plane, a negative channel in `write_colour` (`Vectors.GammaChannel` returns `None`), and the dielectric's `sin θ` for a cosine below -1 (`Materials.CannotRefract` is false there). Outside these, `sqrt` of a negative number is never taken. `acos` outside `[-1, 1]` is not modelled as NaN: see `Spheres.SphereTexturePoint` below;
  - signed zero is not distinguished;
  - overflow to infinity is not modelled.
- Zero denominators that give infinities or NaN in `f64` give no hit instead:
  - a sphere with `dot(dir, dir) == 0`;
  - a rectangle with a zero direction along its normal;
  - a medium with a zero draw or a zero-length direction.
- Degenerate texture coordinates: `Rects.EdgeRatio` gives 0 on a degenerate edge, where `f64` gives NaN.
- Transcendental functions: `sqrt`, `ln`, `cos`, `sin`, `acos` and `atan2` obey only sign and range laws. Exact square roots are a hypothesis of the lemmas that need them.
- Per-query medium draw: all media within one `hit` query share one uniform draw; the source draws afresh at each medium.
- Vectors.LengthSquared: promises only that the squared length is non-negative and zero on zero; the value `dot(v, v)` is its definition.
- Vectors.Refract: no property of the refracted direction is proved. Snell's law needs exact square roots, and `Add`'s y component breaks it.
- Spheres.SphereTexturePoint: promises `v` in `[0, 1]` only for `p.y` in `[-1, 1]`. Outside that range `acos` gives NaN in the source, and the model leaves `v` an unconstrained real. The range is reachable: `Add`'s y component puts the hit point, and so the outward normal, off the sphere (a unit sphere at the origin hit from `(0, 5, 0)` along `(0, -1, 0)` gives `outward.y == -4`).
- Scene.HitInRange: promises `t >= t_min` only where every medium is dense. A negative density scatters before the entry (`Media.NegativeDensityScattersBeforeEntry`).
- Scene.BoundingBox: carries no contract of its own; its properties are the list and BVH lemmas.
- Construction.NewRotate: requires the inner object's box over `[0, 1]` to exist (the source unwraps it) and to be finite. A rotated object's box already has infinite z, where the corner arithmetic of `f64` would produce NaN.
- Integrator.RayColour: returns `None` where the source panics (a dielectric hit by a zero-length direction). It carries no contract of its own; the lemmas beside it state its cases.
- The BVH is not proved to find the same hit as a linear scan. The boxes do not always contain the hits: `Add`'s y component shifts sphere boxes and translated boxes.
- `Sphere::_centre`, `Sphere::_radius` and the `Ray` and `HitRecord` accessors are the datatypes' fields.
- `HitRecord::set_t` is not modelled as a setter: the medium keeps the clipped entry and exit directly.
- Other helpers are defined from their call sites: `Vec3::zero`, `Vec3::one`, `ix`, `set`, `set_all`, `deg_to_rad`.
- Preconditions the source does not state, each added to avoid a panic or a division by zero:
  - a dielectric's refractive index is positive;
  - a sphere's radius is non-zero;
  - a moving sphere's key times differ;
  - `BVH::new` needs a non-empty span;
  - `Media.NegInvDensity` and `Construction.NewMedium` take a non-zero density. The source gives `-∞` for a zero density, and such a medium never scatters;
  - `Vectors.WriteColour` needs at least one sample. The source divides by zero there and prints 255 or NaN.
