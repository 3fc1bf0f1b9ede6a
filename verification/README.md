# pbr path tracer, modelled in Dafny

This project models the core of `pbr`, a small physically based path tracer.
It covers the following parts, over exact real arithmetic:

- The vector algebra that colours and directions share.
- Reflection and Snell refraction.
- Russian-roulette path termination.
- 4x4 affine transforms with their cofactor inverse.
- Material scattering: the reflect, transmit, absorb, diffuse and exit choices, Schlick's Fresnel approximation and Beer's law.
- The scene's hit search and sky gradient.
- Sphere intersection.
- The bounded bounce loop of the integrator and the per-pixel accumulator.
- The thin-lens camera geometry.

Modules, one per source file:

| module | source | file |
|---|---|---|
| `Options`, `Vectors` | `src/vector3.rs` | `vector3.dfy` |
| `Directions` | `src/direction.rs` | `direction.dfy` |
| `Energies` | `src/energy.rs` | `energy.dfy` |
| `Rays`, `Matrices` | `ray3::Ray3`, `src/matrix4.rs` | `matrix4.dfy` |
| `Materials` | `src/material.rs` | `material.dfy` |
| `Surfaces` | `src/surface.rs`, `src/constants.rs` | `surface.dfy` |
| `Scenes` | `src/scene.rs` | `scene.dfy` |
| `Spheres` | `src/sphere.rs` | `sphere.dfy` |
| `Cameras` | `src/camera.rs` | `camera.dfy` |
| `Samplers` | `src/sampler.rs`, `src/sample.rs` | `sampler.dfy` |

Numbers are `real`. The square root, `exp`, `log10`, `sin`, `cos` and `Vector3::unit` are fields of a `Math` record that callers pass in. The lemmas that need their laws state them as requirements (`SqrtLaw`, `UnitLaw`, `ExpLaw`, `TrigLaw`).

Every random number is a parameter:

- a bounce's uniform draws and its `cone`/`random_hemi_cos` samplers form a `BsdfDraws` record;
- a path's camera ray and its per-bounce draws form a `PathDraws` record.

The code follows the source's own shape:

- Matrix `mult` and `inverse` fill 4x4 arrays in loops.
- `init` and `schlick` reassign step by step.
- `Scene::intersect` loops over the surfaces.
- `trace` is a loop proved equal to `Run`: the state that a bounded loop `Loop` reaches, with one bounce `BounceOf` as its body.
- `Sampler` is a class whose `sample_pixel` updates a two-dimensional array in place.

## Model

Functions that only compute have no row of their own; the lemma or method named here states what they mean:

- `Directions.Enters` and `Directions.Cos`: `EntersIffAgainstNormal` and `EntersExactlyOne`.
- `Directions.Reflected`: `ReflectedIsMirror`.
- `Energies.Merged`, `Amplified` and `Strength`: `MergedLaws`, `AmplifiedLaws` and `StrengthCommutes`.
- `Matrices.Identity`, `Translation` and `Scale`: `IdentityTransforms`, `TranslationTransforms`, `ScaleTransforms`, `AffineClosed` and the `InverseOf...` lemmas.
- `Matrices.MultPoint` and `MultDist`: the same lemmas and `ProductApplies`.
- `Matrices.MultOf`: `Mult`, `MultDoublesIdentity` and `MultAddsInput`.
- `Matrices.InverseOf`: `Inverse`, `InverseOfIdentity`, `InverseOfTranslation` and `InverseOfScale`.
- `Materials.Beers`: `BeersAttenuates` and `FullColourAbsorbsNothing`.
- `Materials.Bsdf`: `BsdfDispatch`, `OnlyAbsorbStops` and `OpaqueExitPassesThrough`.
- `Scenes.NearestOf`: `NearestOfIsNearest` and `NearestIntersect`.
- `Samplers.BounceOf`: `Sampler.Bounce`, `HitBounce`, `MissAddsBackground` and `BounceAccumulates`.
- `Samplers.Run`: `Sampler.Trace`, `EnergyAccumulates` and `OnlyBudgetedDraws`.

| member | source | states |
|---|---|---|
| Vectors.MaxOf | src/vector3.rs:18-20 | `f64::max` is at least both arguments and equals one of them |
| Vectors.AbsOf | src/vector3.rs:47-53 | `f64::abs` is non-negative and is the argument or its negation |
| Vectors.Vector3.Max | src/vector3.rs:18-20 | the largest component is at least every component and equals one of them |
| Vectors.Vector3.Abs | src/vector3.rs:47-53 | every component is non-negative with the magnitude of the original |
| Vectors.DotSymmetric | src/vector3.rs:22-24 | the dot product is symmetric |
| Vectors.CrossOrthogonal | src/vector3.rs:26-32 | the cross product is orthogonal to both operands and anti-commutative |
| Vectors.LerpEndpoints | src/vector3.rs:38-45 | lerp gives `self` at 0 and `other` at 1, and mixes `self (1-n) + other n` in between |
| Vectors.AverageOfConstant | src/vector3.rs:14-16 | the average of `(c, c, c)` is `c` |
| Vectors.ComponentWise | src/vector3.rs:72-118 | subtraction undoes addition; addition and the component-wise product commute; scaling distributes over addition |
| Vectors.SourceExamples | src/vector3.rs:124-196 | the unit-test vectors for add, mul, scale and abs give the expected results |
| Vectors.SqrtOne | src/vector3.rs:34-36 | a true square root maps 1 to 1 |
| Vectors.UnitIsUnit | src/vector3.rs:56-63 | `unit` of a vector of non-zero length has length one |
| Vectors.UnitOfUnit | src/vector3.rs:56-63 | a vector of length one is its own `unit` |
| Directions.Invert | src/direction.rs:8-14 | the inverse cancels the direction |
| Directions.InvertInvolution | src/direction.rs:8-14 | inverting twice gives the direction back; inverting negates every component |
| Directions.EntersIffAgainstNormal | src/direction.rs:16-22 | `enters` holds exactly when direction and normal point against each other; `cos` is symmetric |
| Directions.EntersExactlyOne | src/direction.rs:8-18 | off the tangent plane exactly one of a direction and its inverse enters |
| Directions.Refracted | src/direction.rs:24-35 | refraction fails exactly when Snell's discriminant is negative, and then returns the direction unchanged |
| Directions.RefractionSameIndex | src/direction.rs:24-35 | with equal indices the discriminant is `cos^2`, so refraction always succeeds |
| Directions.RefractedAgainstNormal | src/direction.rs:24-35 | a successful refraction's raw vector has `normal . r = -sqrt(k) <= 0` |
| Directions.RefractedRawIsUnit | src/direction.rs:24-33 | for unit inputs and a non-negative discriminant, Snell's raw vector has length one |
| Directions.RefractedIsUnit | src/direction.rs:24-35 | for unit inputs a successful refraction returns the raw vector unchanged by `unit`, a unit direction |
| Directions.MirrorLaw | src/direction.rs:37-40 | the mirrored vector reverses the normal component and keeps the length |
| Directions.ReflectedIsMirror | src/direction.rs:37-40 | for unit inputs `reflected` is a unit vector with the angle of reflection equal to the angle of incidence |
| Energies.RandomGain | src/energy.rs:15-23 | roulette stops exactly when the draw exceeds the strongest channel |
| Energies.MergedLaws | src/energy.rs:7-9 | merging adds `b * signal` per channel; merging no light or through a zero signal changes nothing |
| Energies.AmplifiedLaws | src/energy.rs:11-13 | amplifying scales each channel; by one it is the identity; zero stays zero |
| Energies.GainNormalises | src/energy.rs:15-23 | a surviving roulette rescales by `1/max`: the strongest channel becomes one and scaling back by `max` restores the throughput |
| Energies.NormalisedChannels | src/energy.rs:21 | dividing every channel by the largest gives channels at most one, one of them exactly one |
| Energies.ScaleBack | src/energy.rs:21 | amplifying by `1/max` and scaling by `max` is the identity |
| Energies.StrengthCommutes | src/energy.rs:25-27 | `strength` is the commutative component-wise product |
| Rays.Moved | src/sampler.rs:57 | the moved point lies `dist` directions away from the origin |
| Matrices.NewTransposes | src/matrix4.rs:15-36 | argument `4 i + j` of `new` is stored at `[j][i]` |
| Matrices.IdentityTransforms | src/matrix4.rs:38-40 | the identity leaves points and displacements unchanged |
| Matrices.TranslationTransforms | src/matrix4.rs:42-44 | a translation moves points by `(x, y, z)` and leaves displacements alone |
| Matrices.ScaleTransforms | src/matrix4.rs:46-48 | a scale multiplies points and displacements component-wise |
| Matrices.Cells | src/matrix4.rs:97-109 | the matrix value holds the array's entries |
| Matrices.Mult | src/matrix4.rs:97-109 | the triple loop returns `MultOf`: `delta(i, j)` plus the product entry, for every entry |
| Matrices.ChainTranslation | src/matrix4.rs:85-87 | `chain_translation` is `mult` with a translation on the right |
| Matrices.ChainScale | src/matrix4.rs:89-91 | `chain_scale` is `mult` with a scale on the right |
| Matrices.ProductEntry | src/matrix4.rs:103-105 | an entry of the product is the sum over `k` of `a[k][i] b[j][k]` |
| Matrices.ProductIdentity | src/matrix4.rs:97-109 | the identity is neutral on both sides of the corrected product |
| Matrices.MultDoublesIdentity | src/matrix4.rs:98 | `mult` as written maps identity times identity to twice the identity |
| Matrices.AffineClosed | src/matrix4.rs:38-48 | the constructors give affine transforms, and the corrected product `Product` keeps them affine (the as-written `MultOf` has 2 in its corner) |
| Matrices.ProductApplies | src/matrix4.rs:111-125 | the product applies the right factor first, to displacements and to points |
| Matrices.MultAddsInput | src/matrix4.rs:97-109 | `mult` as written maps a point or displacement to its image under the corrected product plus the input itself |
| Matrices.ChainTranslationAddsPoint | src/matrix4.rs:85-87 | `chain_translation` as written translates, applies the matrix, then adds the untranslated point |
| Matrices.ChainedTranslation | src/matrix4.rs:85-87 | with the corrected product, chaining a translation translates before applying the matrix |
| Matrices.ChainedScale | src/matrix4.rs:89-91 | with the corrected product, chaining a scale scales before applying the matrix |
| Matrices.Scaled | src/matrix4.rs:192-196 | every entry is multiplied by the same factor |
| Matrices.ScaleAll | src/matrix4.rs:192-196 | the nested loop multiplies all sixteen cofactors by the same factor |
| Matrices.Inverse | src/matrix4.rs:138-199 | `inverse` returns the cofactors times the reciprocal of the first-row expansion |
| Matrices.InverseOfIdentity | src/matrix4.rs:206-212 | inverting the identity gives the identity |
| Matrices.IdentityCofactors | src/matrix4.rs:140-190 | the identity's cofactor matrix is the identity and its expansion is one |
| Matrices.InverseOfTranslation | src/matrix4.rs:138-199 | inverting a translation translates back |
| Matrices.InverseOfScale | src/matrix4.rs:138-199 | inverting a scale with no zero factor scales by the reciprocals |
| Matrices.ScaleCofactors | src/matrix4.rs:140-190 | a scale's cofactors are the products of the other two factors, and its expansion is `x y z` |
| Materials.FresnelFloor | src/material.rs:158 | the floored Fresnel value is at least 0.02 and at least the average, and is one of them |
| Materials.Initialised | src/material.rs:157-167 | `init` keeps the public fields and yields the Fresnel floor and an index that is neither 0 nor -1 |
| Materials.Init | src/material.rs:157-167 | the three field updates give the initialised material |
| Materials.InitIdempotent | src/material.rs:157-167 | initialising twice is the same as once |
| Materials.InitRefractAboveOne | src/material.rs:164 | with a true square root and an average Fresnel below one, the index is above one |
| Materials.FullColourAbsorbsNothing | src/material.rs:159-163 | a full-colour channel has zero absorbance and Beer's law keeps it whole |
| Materials.Schlick | src/material.rs:252-271 | the step-by-step `schlick` returns the reflectance `Reflectance` specifies |
| Materials.SchlickCurveBounds | src/material.rs:270 | the curve is `r0` head-on and one at grazing, and stays between them |
| Materials.SchlickCurveMonotone | src/material.rs:268-270 | the reflectance grows with the angle of incidence: a smaller cosine never gives less |
| Materials.SchlickGivenR0 | src/material.rs:252-272 | a non-zero `r0` is used as given |
| Materials.SchlickDerivedR0 | src/material.rs:254-256 | a zero `r0` is derived from the indices towards a denser medium |
| Materials.SchlickTotalInternal | src/material.rs:257-266 | from the denser medium the reflectance is one past the critical angle, else the curve at the refracted cosine |
| Materials.GrazingIsTotal | src/material.rs:257-266 | grazing incidence from the denser medium reflects totally |
| Materials.BeersAttenuates | src/material.rs:273-282 | Beer's law keeps everything over zero distance and never amplifies |
| Materials.BeersDecays | src/material.rs:273-282 | a channel with positive absorbance keeps strictly less over a longer distance |
| Materials.Diffuse | src/material.rs:243-245 | diffuse continues along the hemisphere draw about the normal, with weight `color / pi` |
| Materials.Absorb | src/material.rs:247-249 | absorb stops with the incoming direction and zero weight |
| Materials.Reflect | src/material.rs:194-201 | reflect falls back to diffuse when the perturbed mirror direction enters, else weighs by `lerp(1, fresnel, metal)` |
| Materials.Transmit | src/material.rs:203-217 | transmit diffuses on failed refraction, else weighs by one, keeping the perturbed direction only while it enters |
| Materials.Exit | src/material.rs:221-240 | exit continues; opaque passes through unweighted; a transmissive material carries Beer's weight and refracts out (perturbed while the spread enters) when the draw beats the inside reflectance and refraction succeeds, else mirrors |
| Materials.Emit | src/material.rs:189-192 | nothing is emitted towards a viewer behind the surface; otherwise the emittance times the cosine between normal and viewer |
| Materials.EnteringReflectance | src/material.rs:158-171 | the entering test never derives `r0`, and its reflectance is at least 0.02 |
| Materials.BsdfDispatch | src/material.rs:169-187 | bsdf exits when not entering, else reflect, transmit, absorb, diffuse by the draws in order |
| Materials.OnlyAbsorbStops | src/material.rs:169-249 | bsdf stops exactly on the absorb branch, with the incoming direction and zero weight |
| Materials.OpaqueExitPassesThrough | src/material.rs:221-224 | an opaque material lets a non-entering ray through with weight one |
| Materials.ReflectWeight | src/material.rs:199 | the specular weight is white for a dielectric and the Fresnel colour for a metal |
| Materials.EmitClamped | src/material.rs:189-192 | nothing is emitted backwards or by a non-emissive material; head-on the full emittance |
| Scenes.Scan | src/scene.rs:19-32 | the loop's result is the last surface passing the test, reported at the unchanged bound |
| Scenes.Intersect | src/scene.rs:19-32 | `intersect` as written: none iff nothing hits; otherwise the last hitting surface at distance `INFINITY` |
| Scenes.NearestOfIsNearest | src/scene.rs:19-32 | the corrected search: none iff nothing hits, otherwise the nearest hit, first among equals, at its own distance |
| Scenes.NearestIntersect | src/scene.rs:19-32 | the corrected loop returns the nearest hit |
| Scenes.Vertical | src/scene.rs:35 | the vertical factor is never negative, is zero at or below -1/2 and linear above |
| Scenes.Env | src/scene.rs:34-38 | the background has three equal channels of `255 * vertical` |
| Scenes.LastHitIsNotNearest | src/scene.rs:19-32 | two hit surfaces, nearer first: `intersect` reports the farther at `INFINITY`, the nearest search the nearer at 1 |
| Scenes.SingleHitAgrees | src/scene.rs:19-32 | with one hit surface both searches pick it |
| Scenes.EnvGradient | src/scene.rs:34-38 | black well below the horizon, white straight up, monotone in height, never above white |
| Spheres.New | src/sphere.rs:15-20 | a new sphere keeps its material and sits at the identity, which is its own inverse |
| Spheres.Intersect | src/sphere.rs:24-53 | misses report 0; hits exceed `BIAS`; a negative discriminant misses; an accepted near root wins; a rejected near root defers to an accepted far root; both rejected miss |
| Spheres.At | src/sphere.rs:55-60 | the material is always the sphere's own |
| Spheres.AsSurface | src/sphere.rs:23-61 | the sphere behind the surface interface answers with its own `intersect` and material |
| Spheres.IdentityPlacement | src/sphere.rs:25-36 | at the identity the local ray is the ray and the world distance is the root |
| Spheres.ScaledUnitLength | src/sphere.rs:36-45 | a unit direction scaled by `t >= 0` has length `t` |
| Spheres.RootOnSphere | src/sphere.rs:27-43 | for a unit direction, each root `b -/+ sqrt(det)` lies on the sphere of squared radius 0.25 |
| Spheres.HitOnSurface | src/sphere.rs:24-53 | a reported hit of a new sphere lies on its surface |
| Spheres.NormalIsOutward | src/sphere.rs:55-60 | the normal at a surface point of a new sphere is the outward unit vector |
| Cameras.ImageDistance | src/camera.rs:60 | the image distance satisfies `1/z = 1/lens - 1/focus` |
| Cameras.SensorPoint | src/camera.rs:56-64 | the sensor lies in the plane `z = ImageDistance` |
| Cameras.AperturePoint | src/camera.rs:66-73 | the aperture point lies in the plane `z = 0` |
| Cameras.CentreOnAxis | src/camera.rs:61-63 | the image centre is on the optical axis |
| Cameras.SensorSpans | src/camera.rs:57-63 | the sensor is mirrored, spans `sensor * width / height` across and `sensor` up, at one depth |
| Cameras.ThinLens | src/camera.rs:60 | sensor and focus plane satisfy the thin-lens equation |
| Cameras.ApertureInDisc | src/camera.rs:66-73 | the radius is `g lens / (2 f_stop)`, below `lens / (2 f_stop)` for a draw below one |
| Samplers.Sampler.constructor | src/sampler.rs:23-30 | a width by height grid of zero samples, establishing `Valid` |
| Samplers.Sampler.Bounce | src/sampler.rs:56-78 | the loop body computes `BounceOf`: a miss adds the background and stops; a hit adds the emission, then the roulette and the scatter decide between stopping and the next ray |
| Samplers.Sampler.Trace | src/sampler.rs:50-82 | the loop returns the energy of `Run` after `max_bounces` iterations from the camera ray, black energy and full throughput |
| Samplers.Sampler.SamplePixel | src/sampler.rs:32-48 | keeps `Valid`; the pixel's sums grow by the traced energies, its count by `n`; other pixels are unchanged |
| Samplers.StopPersists | src/sampler.rs:55-77 | once the loop has returned, further iterations change nothing |
| Samplers.AgreeingBodies | src/sampler.rs:55 | two loop bodies that agree on the first `k` iterations reach the same state |
| Samplers.OnlyBudgetedDraws | src/sampler.rs:55 | the state after `k` iterations depends only on the draws of the first `k` bounces |
| Samplers.MissAddsBackground | src/sampler.rs:56-78 | a ray that hits nothing adds the background filtered by the throughput and ends the path |
| Samplers.BounceAccumulates | src/sampler.rs:56-78 | one bounce adds to the energy it is given and is otherwise independent of it |
| Samplers.LoopAccumulates | src/sampler.rs:55-81 | with such a body, the state reached from some energy is the one reached from black, plus that energy |
| Samplers.EnergyAccumulates | src/sampler.rs:55-81 | `trace`'s result is the energy it starts with plus what the path gathers from black |
| Samplers.HitBounce | src/sampler.rs:56-75 | emission before roulette; a lost roulette or a stopped scatter returns; else the rescaled, weighted path continues from the hit |

## Left out

- The material presets `light`, `plastic`, `lambert`, `metal` and `glass` (src/material.rs:22-155): they only fill fields and call `init`, which is modelled.
- `cone`, `random`, `angle_direction` and `random_hemi_cos`: random sampling with trigonometry. Their results are parameters of `BsdfDraws`.
- `Matrix4::rotation`, `look_matrix` and `chain_rotation`: trigonometry and a frame built from `unit`.
- `Camera::new` and its `pos` field: built with cgmath's `look_at` and `magnitude`, foreign library calls.
- `Camera::ray`: it is commented out in src/camera.rs. The camera ray of a path is the `camera` field of `PathDraws`.
- The renderer, PNG output and the binaries.
- `Debug` implementations.
- The generic cgmath `Ray` of src/ray.rs: nothing in the core uses it.
- `AIR` (src/constants.rs:5): nothing in the core uses it.
- IEEE floating point: rounding, NaN and infinities. Numbers are exact reals.
- Samplers.Sampler.Bounce: uses the corrected nearest-hit search `Scenes.NearestIntersect`. As written, `intersect` reports `INFINITY`, and `trace` would move the ray by `INFINITY` and feed it to Beer's law; no real number models that.
- Samplers.PositiveDraw: the roulette draw is taken from (0, 1). A draw of exactly 0 on a black throughput divides by zero in the source.
- Energies.RandomGain: requires that the strongest channel is non-zero unless the draw exceeds it. The source divides by zero there.
- Matrices.Inverse: requires a non-zero first-row expansion; a singular matrix divides by zero in the source. That the result is a two-sided inverse is proved only for the identity, translations and scales, not for a general matrix.
- Matrices.ScaleAll: the source writes the sixteen cofactors over an identity array one by one. Since every entry is overwritten, the array is created from the cofactors directly.
- Materials.Initialised: requires that the square root of the floored Fresnel value is neither 1 nor -1, where the index divides by zero or becomes 0.
- Materials.Reflectance: requires the denominators `n1 + n2` and `n2` to be non-zero where they are used.
- Surfaces.Surface: `at` returns a material that satisfies what `init` guarantees. Every preset calls `init`, so this holds of every material the source builds.
- Scenes.Intersect: returns the index of the surface, where the source returns a reference to it.
- Spheres.Intersect: requires the placement to have a non-zero first-row expansion. Every sphere `new` builds has the identity placement, so this always holds.
- Rays.Moved: `ray3::Ray3` and its `moved` are not part of this model. `Ray3` is taken to be an origin and a direction, and `moved(d)` to be `origin + d * direction`, the point at distance `d` along the ray; nothing about them is proved beyond that reading.
- Samplers.Sampler.SamplePixel: the image position passed to `trace` is `x / width`, as in the source. Sub-pixel jitter lives in the camera oracle.

## Findings

| source | as written | input that shows it | evidently intended | confidence | as-written member | corrected member |
|---|---|---|---|---|---|---|
| src/matrix4.rs:97-109 | `mult` adds the products onto an accumulator initialised to the identity, so it returns `I + A B`; `chain_translation` and `chain_scale` inherit this | `identity().mult(&identity())` is twice the identity | start from zero and return the product `A B`, for which the identity is neutral and chaining transforms first | not executed | Matrices.MultDoublesIdentity, Matrices.MultAddsInput, Matrices.ChainTranslationAddsPoint | Matrices.ProductIdentity, Matrices.ChainedTranslation, Matrices.ChainedScale |
| src/scene.rs:19-32 | `dist` is never lowered, so every hit overwrites `result`: the last hit surface wins, reported at `INFINITY` | a surface hit at 1 followed by one hit at 5: the second is reported, at `INFINITY` | lower `dist` to each accepted distance and report the nearest hit at its own distance | not executed | Scenes.LastHitIsNotNearest | Scenes.NearestIntersect |
