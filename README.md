# chamber-of-time ray tracer core, in Dafny

This project models the colour-evaluation core of a small recursive ray tracer
(`RayTracer.cpp`, `Cone.h`, `Cone.cpp`) and proves properties of that model.

- **`trace(ray, step)`** is the recursive colour evaluator. It is modelled twice:
  - `Tracer.TraceF` is a specification function. It returns the colour, the scene-object list
    after the colour writes `trace` makes (`setColor` on the hit object), and the deepest step entered.
  - `Tracer.RayTracer.Trace` is the step-by-step procedure. It is a class holding the scene list
    (`sceneObjects`) and `Ray` objects whose `ClosestPt` writes `index/hit/dist`. It is proved to
    return exactly `TraceF`'s colour and to leave exactly `TraceF`'s object list.
- **The colour overrides before shading**:
  - Object 0 gets the checkerboard.
  - Object 1 gets the noise-driven hue ramp.
  - Any object with a sphere texture gets the texture colour, but only when both coordinates are
    in range.
  - All of these are modelled with the C semantics they depend on: truncating float-to-int
    casts, truncating `/` and `%`, and `fmod`.
- **Local shading** is the lit colour, replaced by 0.5 or 0.1 times the stored colour under a
  shadow.
- **The three recursive contributions** are refraction, reflection and transparency. Each is
  guarded by `step < MAX_STEPS` and made at `step + 1`.
- **`Cone`** is modelled with its fields, both constructors and `intersect`:
  - The quadratic coefficients are proved to be the cone relation expanded along the ray.
  - The root selection is proved to return -1 or a root at or below the apex.

Collaborators whose code is not part of this model are fields of `Scene.Env` and are arbitrary
functions:
- `Ray::closestPt` (Ray.cpp is not part of this model);
- `SceneObject::lighting` and `normal`;
- `glm::reflect`, `glm::refract` and `glm::length`;
- `FastNoiseLite::GetNoise`, `TextureBMP::getColorAt` and `atan2`.

The only thing assumed of them is that the closest-hit search reports -1 or a valid index
(`Scene.ValidEnv`). `sqrt` in `Cone::intersect` is likewise a parameter. Floats are modelled as
`real`.

Points where the code behaves differently from what a reader might expect, and which the
model follows as written:
- **Checkerboard:** the squares are chosen with truncating casts and divisions, not with
  `floor(x/5)` and `floor(z/5)`. `Patterns.StripeVsFloor` and `Patterns.CheckerOnFloorGrid`
  state the exact relation:
  - The column parity after the `!j` flip agrees with the floor parity off the negative grid
    lines.
  - The row parity is inverted strictly inside negative stripes (not on z = -5, -10, …), so
    the row `-5 < z < 5` is twice as wide.
- **Cone root choice:** the code tries `t1 = (-b - sqrt(d)) / 2a` first. That is the smaller
  root only when `a > 0` (`Cones.NearerRootFirst`), so the nearer positive root is not always
  preferred.
- **Scene writes:** tracing is not read-only. The code writes the colours of objects 0 and 1,
  and of textured objects, back into the scene on every hit. The model threads those writes
  through the recursion, and later shading sees them.
- **Hue ramp:** the ramp position is `h = (1 - value) * 6`, so every negative noise sample
  gives `h` above 6 and lands in the last branch (`Patterns.NegativeNoiseLastSector`): the
  other five colour bands are reached only by samples in (0, 1].

## Model

| member | source | states |
|---|---|---|
| CArith.Trunc | RayTracer.cpp:71-72 | the `(int)` cast rounds toward zero: the result is within 1 of the argument, on the zero side |
| CArith.TDiv | RayTracer.cpp:71-72 | C integer division by a positive divisor: the remainder left over has the dividend's sign and is smaller than the divisor |
| CArith.TRem | RayTracer.cpp:73-74 | C `%` by a positive divisor: strictly between -b and b, zero or of the dividend's sign |
| CArith.TRemTwo | RayTracer.cpp:73-74 | `n % 2` in C is nonzero exactly when `n` is odd |
| CArith.FModTwo | RayTracer.cpp:88 | `fmod(a, 2)`: in [0, 2) for non-negative a, in (-2, 0] for negative a, and `a` minus it is an even integer |
| Patterns.LogicalNot | RayTracer.cpp:75 | `!j` is 0 or 1, and 1 exactly when `j` is 0 |
| Patterns.Stripe | RayTracer.cpp:71-72 | `(int)(r) / 5` is the 5-wide band holding `r`, counted from zero and rounded toward zero on both sides; `Patterns.StripeVsFloor` relates it to `floor(r/5)` |
| Patterns.StripeVsFloor | RayTracer.cpp:70-72 | the truncated stripe index equals `floor(r/5)`, plus one strictly inside a negative stripe |
| Patterns.ColumnParity | RayTracer.cpp:72-75 | the flipped column parity is 0 or 1; it is the parity of `floor(x/5)` except at exact negative multiples of 5, where it is the opposite |
| Patterns.RowParity | RayTracer.cpp:71-74 | the row parity is -1, 0 or 1, nonzero when `floor(z/5)` is odd, inverted strictly inside negative stripes |
| Patterns.CheckerColor | RayTracer.cpp:70-77 | the floor colour is one of the two checker colours, the first exactly when the column and row parities agree |
| Patterns.CheckerOnFloorGrid | RayTracer.cpp:70-77 | the checker colour in terms of the floor grid of 5-unit squares |
| Patterns.HueX | RayTracer.cpp:87-88 | for non-negative `h` the ramp channel `1 - abs(fmod(h,2) - 1)` lies in [0, 1] |
| Patterns.Sector | RayTracer.cpp:92-116 | the six branches: sector k for `h` in [k, k+1) with k = 0..4, sector 5 for every other `h` |
| Patterns.HueRamp | RayTracer.cpp:92-118 | the six-way channel selection scaled by 0.6; `Patterns.HueRampIsWheel` states it is a hue wheel over `Patterns.Sector` |
| Patterns.ProceduralColor | RayTracer.cpp:85-118 | the hue colour of a noise sample, ramp position `h = (1 - value) * 6`; `Patterns.ProceduralColorInRange` bounds its channels and `Patterns.NegativeNoiseLastSector` places negative samples |
| Patterns.HueRampIsWheel | RayTracer.cpp:90-118 | in every sector one channel is 1, a different one is 0 and the third is `x`, all scaled by 0.6 |
| Patterns.ProceduralColorInRange | RayTracer.cpp:85-118 | for noise at most 1, every channel of the hue-ramp colour lies in [0, 0.6] |
| Patterns.NegativeNoiseLastSector | RayTracer.cpp:87-116 | every noise sample in [-1, 0) gives `h` in (6, 12], which falls to the last branch: red 0.6, green 0 and blue `0.6 x` |
| Cones.RimAndApexOnCone | Cone.h:23-26 | the base rim and the apex satisfy the cone relation for any fields with nonzero height |
| Cones.MakeCone | Cone.h:31 | the constructor stores `c`, `r`, `h` unchanged, derives `theta` from the new radius and height, and places the rim and apex on the cone |
| Cones.UnitCone | Cone.h:23-29 | the default cone has centre (0,0,0), radius 1 and height 1, with its rim through (1,0,0) and its apex at (0,1,0) |
| Cones.Coefficients | Cone.cpp:29-31 | the quadratic coefficients in the source's own arrangement; `Cones.CoefficientsExpandConeRelation` states they are the cone relation expanded along the ray |
| Cones.CoefficientsExpandConeRelation | Cone.cpp:29-31 | for every `t`, `a t^2 + b t + c` equals the cone relation at `p0 + t dir` |
| Cones.CoefficientsCentred | Cone.cpp:29-31 | the source's coefficients rewritten around the ray origin's offset from the centre |
| Cones.SelectRoot | Cone.cpp:33-47 | the threshold test and the choice between t1 and t2; `Cones.SelectRootRange`, `Cones.SelectRootRule` and `Cones.SelectedRootSolves` state what it returns |
| Cones.SelectRootRange | Cone.cpp:33-47 | the result is -1 or a non-negative parameter at or below the apex height, and -1 whenever the discriminant is below 0.001 |
| Cones.SelectRootRule | Cone.cpp:36-47 | the result is one of -1, t1, t2; it is t1 when t1 >= 0 and at or below the apex, otherwise t2 exactly when t2 > 0 and strictly below the apex |
| Cones.RootsSolveQuadratic | Cone.cpp:36-37 | with a square root of the discriminant, both t1 and t2 solve the quadratic |
| Cones.SelectedRootSolves | Cone.cpp:33-47 | a selected parameter other than -1 is a root of the quadratic at or below the apex |
| Cones.Intersect | Cone.cpp:15-49 | `intersect` as the coefficients followed by the root choice; `Cones.IntersectRange`, `Cones.IntersectNarrowMiss` and `Cones.IntersectHitsCone` state what it returns |
| Cones.IntersectRange | Cone.cpp:39-47 | `intersect` returns -1 or a non-negative parameter whose point is at or below the apex |
| Cones.IntersectNarrowMiss | Cone.cpp:33-34 | a discriminant below 0.001 (zero and negative ones included) makes `intersect` return -1 |
| Cones.IntersectHitsCone | Cone.cpp:15-49 | a parameter returned by `intersect` other than -1 gives a point on the cone surface |
| Cones.NearerRootFirst | Cone.cpp:36-37 | when `a > 0`, t1 is not larger than t2 |
| Scene.WithColor | RayTracer.cpp:79 | `setColor` changes the colour of the one object and nothing else |
| Tracer.TexCoords | RayTracer.cpp:125-127 | the texture coordinates from the normal at the hit: `atan2(n.x, n.z)/(2 pi) + 0.5` and `n.y/2 + 0.5`; used by `Tracer.TextureOnlyInRange` |
| Tracer.TextureApplies | RayTracer.cpp:124-129 | the texture is written exactly when the object has a sphere texture and both coordinates lie in [0, 1] (`Tracer.TextureOnlyInRange`) |
| Tracer.NoiseAt | RayTracer.cpp:85 | the noise sample at ten times the hit's x and y; `Tracer.HueObjectPainted` states what colour it yields |
| Tracer.PatternColors | RayTracer.cpp:67-133 | only the hit object changes; it takes the texture colour when the texture applies, else the checker colour (object 0), the hue colour (object 1) or keeps its colour |
| Tracer.ShadowHit | RayTracer.cpp:137-139 | the closest hit of the ray from the hit point toward the light at (0, 25, -135) |
| Tracer.Shadowed | RayTracer.cpp:142 | the shadow test: an occluder exists, is nearer than the light and is not the hit object; `Tracer.ShadowReplacesLighting` and `Tracer.NoShadowFromSelfOrBeyondLight` state both outcomes |
| Tracer.ShadowFactor | RayTracer.cpp:143-144 | the attenuation is 0.5 exactly when the occluder is transparent or refractive, else 0.1 |
| Tracer.LocalColor | RayTracer.cpp:135-145 | out of shadow the lit colour; in shadow 0.5 or 0.1 times the stored colour |
| Tracer.ExitRay | RayTracer.cpp:150-156 | the exit ray of a refractive object: refract in, find the inner hit, refract out with the reversed normal and `1/eta`; `Tracer.TraceAllThree` uses it for the refracted child |
| Tracer.Accumulate | RayTracer.cpp:158 | `color + rho * childColor` (also lines 168 and 175), taking the child's object list and the deeper step; `Tracer.TraceAllThree` states the resulting sum |
| Tracer.TraceF | RayTracer.cpp:56-183 | only colours change, and the deepest step entered lies between `step` and `max(step, MAX_STEPS)` |
| Tracer.Refraction | RayTracer.cpp:147-159 | the refracted contribution changes only colours and never enters a step beyond MAX_STEPS |
| Tracer.Reflection | RayTracer.cpp:162-169 | the reflected contribution changes only colours and never enters a step beyond MAX_STEPS |
| Tracer.Transparency | RayTracer.cpp:171-176 | the pass-through contribution changes only colours and never enters a step beyond MAX_STEPS |
| Tracer.TraceMiss | RayTracer.cpp:58-64 | a ray that hits nothing yields the background (0,0,0) and changes nothing |
| Tracer.PrimaryRayDepth | RayTracer.cpp:147-176 | started at step 1 (as at line 241) the evaluation never enters a step beyond MAX_STEPS = 5 |
| Tracer.TraceLocalOnly | RayTracer.cpp:135-182 | a surface with none of the three flags, or any surface at `step >= MAX_STEPS`, yields exactly the local colour of the painted object |
| Tracer.TraceAllThree | RayTracer.cpp:147-176 | with all three flags below MAX_STEPS, the colour is local + refracted, reflected and pass-through child colours weighted by their coefficients; the pass-through child keeps the direction |
| Tracer.TraceKeepsUnpainted | RayTracer.cpp:56-183 | however deep the recursion goes, an object other than 0 and 1 without a sphere texture comes out of `trace` exactly as it went in |
| Tracer.RefractionKeepsUnpainted | RayTracer.cpp:147-159 | the refracted contribution leaves an object that no hit repaints as it was |
| Tracer.ReflectionKeepsUnpainted | RayTracer.cpp:162-169 | the reflected contribution leaves an object that no hit repaints as it was |
| Tracer.TransparencyKeepsUnpainted | RayTracer.cpp:171-176 | the pass-through contribution leaves an object that no hit repaints as it was |
| Tracer.ShadowReplacesLighting | RayTracer.cpp:137-145 | in shadow the colour is 0.5 or 0.1 (by the occluder's flags) times the stored colour, whatever the lighting model |
| Tracer.NoShadowFromSelfOrBeyondLight | RayTracer.cpp:142 | with no occluder, an occluder beyond the light, or the hit object itself as occluder, the colour is the lit colour |
| Tracer.FloorPainted | RayTracer.cpp:67-79 | a hit on object 0 without texture writes one of the two checker colours to it and to no other object |
| Tracer.HueObjectPainted | RayTracer.cpp:83-120 | a hit on object 1 without texture writes the hue colour of the noise sample, channels in [0, 0.6] |
| Tracer.TextureOnlyInRange | RayTracer.cpp:124-133 | the texture colour is written only when both texture coordinates lie in [0, 1]; otherwise nothing changes |
| Tracer.PaintIgnoresStoredColor | RayTracer.cpp:67-133 | the painted colour depends on the hit point and not on the colour stored before |
| Tracer.Ray.constructor | RayTracer.cpp:152 | a new ray keeps its origin and direction and has no hit yet |
| Tracer.Ray.ClosestPt | RayTracer.cpp:63 | the ray's index, hit point and distance become what the closest-hit search reports; origin and direction stay |
| Tracer.RayTracer.constructor | RayTracer.cpp:38 | the tracer holds the given scene list and collaborators |
| Tracer.RayTracer.SetColor | RayTracer.cpp:79 | the scene list becomes the one with object `i` recoloured |
| Tracer.RayTracer.Trace | RayTracer.cpp:56-183 | returns `TraceF`'s colour and leaves `TraceF`'s object list |
| Tracer.RayTracer.PaintPatterns | RayTracer.cpp:67-133 | the scene list becomes `PatternColors` of the old one |
| Tracer.RayTracer.Shade | RayTracer.cpp:135-145 | returns `LocalColor` and changes nothing |
| Tracer.RayTracer.RefractionStep | RayTracer.cpp:147-159 | the colour and scene list become those of `Refraction` |
| Tracer.RayTracer.ReflectionStep | RayTracer.cpp:162-169 | the colour and scene list become those of `Reflection` |
| Tracer.RayTracer.TransparencyStep | RayTracer.cpp:171-176 | the colour and scene list become those of `Transparency` |

## Left out

- Fog (`fog`, RayTracer.cpp:45-50, 178-180) is not modelled, because `FOG` is the constant `false` (line 35).
- `antiAliase`, `display`, `initialize`, `main`, the `init*` scene builders and all GL/GLUT calls are not modelled. They are sample averaging, windowing and scene data.
- `Cone::normal` (Cone.cpp:55-61) and the numeric value of `theta` are left out: they are pure trigonometry. `theta` is kept as a field tied to the radius and height through an arbitrary `atan` function.
- The internals of the collaborators are not modelled. These are the closest-hit search, lighting, normals, `glm::reflect`/`refract`/`length`, the noise generator, the texture lookup, `atan2` and `sqrt`. Ray.h, Ray.cpp, SceneObject, Sphere, Plane, TextureBMP and FastNoiseLite are not part of this model. Spheres and planes appear only as `Scene.OtherShape` tags. Specular flags and shininess are read only by lighting.
- Ray.h is not part of this model. Tracer.Ray.constructor is a modelling choice in full: that it stores `p0` and `dir` as given and starts with `index == -1` is assumed from how RayTracer.cpp uses rays, and its starting hit point and distance are placeholders that nothing reads before `ClosestPt`.
- IEEE float behaviour is not modelled: rounding, infinities and NaN. Floats are `real`. The `(int)` cast is modelled only for values in range.
- Cones.Intersect requires `height != 0` and `a != 0` for an accepted discriminant (`Cones.Solvable`). The float division by zero of lines 29-31 and 36-37 is not modelled.
- Cones.IntersectHitsCone assumes `sqrt` returns the exact non-negative square root (`Cones.IsSqrt`). Float square roots are rounded.
- Tracer.TraceF requires every refractive object to have a nonzero refractive index, so that `1/eta` (line 155) is defined.
- Tracer.TraceF assumes the closest-hit search returns -1 or a valid index (`Scene.ValidEnv`).
- Tracer.LocalColor reads the occluder only after checking `index > -1`. Line 141 indexes `sceneObjects[shadowRay.index]` before that check, which reads out of bounds when the shadow ray hits nothing; the read's value is never used.
- Tracer.ExitRay uses the inner ray's hit point whether or not the inner ray hit anything, as line 154 does. What that point is after a miss depends on Ray.cpp, which is not part of this model.
- Tracer.LocalColor: its own contract leaves the shadow factor as a choice of 0.5 or 0.1. Tracer.ShadowReplacesLighting states which factor applies.
