# Gravitational attractor fractal: the discrete core

The repository renders "which attractor does a particle fall into" images. A
test particle starts at rest at each pixel's point of simulation space. It is
integrated under the pull of a few point masses, and the pixel is coloured by
the attractor nearest to where the particle ends up. There are two renderers:

- `src/main.rs`, the Rust renderer. It fills a 10000 × 10000 RGB buffer in
  parallel, keeps a shared progress counter, and uses two attractors.
- `fractal.js`, the older JavaScript prototype. It has four randomly perturbed
  attractors, a box-shaped capture test, a "stable" flag and two class
  overrides.

This project models the discrete logic of both renderers and proves its
properties:

- the exit rules of each `simulate`;
- the nearest-attractor rules and the palette;
- the chunk-by-chunk fill of the Rust buffer and its progress counter.

Numbers (`f64`, JavaScript numbers) are modelled as `real`. Euclidean distance
is a parameter `dist: Metric`, always called with its arguments in the order in
which the source forms the difference. The force law is also a parameter,
`force: ForceLaw`. The velocity and position updates are the source's own
sums and products.

Modules:

- `Field` (field.dfy): points, attractors, the "first attractor within a
  radius" search, one integration step, trajectories and the lowest-index
  argmin predicate.
- `Classifier` (classifier.dfy): the Rust nearest-attractor scan and the palette.
- `Integrator` (integrator.dfy): the Rust `simulate`.
- `Raster` (raster.dfy): the Rust buffer fill, the pixel mapping and the
  progress counter.
- `Prototype` (prototype.dfy): the JavaScript `simulate`, its nearest-attractor
  loop and its overrides.

Each looping operation of the source is a `method` with the source's loops.
Its `ensures` ties the result to a recursive specification function
(`Integrate`/`Run`, `Closest`, `PixelColour`), and lemmas state what those
functions promise.

## Model

| member | source | states |
|---|---|---|
| Field.FirstWithin | src/main.rs:78-83 | The first attractor in list order strictly within the radius. No earlier attractor is within it, and `None` exactly when no attractor is within it. |
| Field.KickIsTotalForce | src/main.rs:86-89 | Adding each attractor's `force * step_size` to the velocity in list order equals adding `step_size` times the summed force `TotalForce` once. |
| Field.StepIsEuler | src/main.rs:86-99 | One `Step` is semi-implicit Euler. The new velocity is the old one plus the step size times the total force, times the dampening. The position then moves by the step size times the new velocity. |
| Field.ArgMinUnique | src/main.rs:161-171 | The lowest index achieving the minimum is unique. |
| Classifier.Closest | src/main.rs:161-171 | If some distance is below 100000.0, the class is the lowest index of the minimum distance. It is ≤ every distance and < every earlier one. Otherwise the class is the seed 0. It is always a valid index or 0. |
| Classifier.ClosestAttractor | src/main.rs:161-171 | The scan loop over the attractors returns exactly `Closest` of `Distances`, the attractor-to-point distances in list order. So it meets the argmin-with-sentinel promise. |
| Classifier.ClosestUnique | src/main.rs:161-171 | Two results meeting the classifier's promise are equal, so the promise determines the class. |
| Classifier.ClosestInRange | src/main.rs:161-171 | For a non-empty list the class is an index into it. |
| Classifier.TieKeepsLowest | src/main.rs:167 | When the minimum below the sentinel is first reached at index `k`, later equal distances do not displace `k`. This follows from the strict `<`. |
| Classifier.Palette | src/main.rs:180-187 | Total over all indices. Every channel is 0 or 255. |
| Classifier.PaletteClasses | src/main.rs:180-187 | Classes 0–3 have four different colours. Class 4 has the colour of class 0, and every index from 5 on has the colour of class 1. |
| Integrator.Integrate | src/main.rs:85-107 | The step loop never reports a pre-check capture. An in-loop capture returns the exact position of a valid attractor during a step below 3000. An escape happens during a step below 3000 at a point farther than 1500 from the origin. |
| Integrator.Run | src/main.rs:68-108 | The pre-check fires exactly when some attractor lies within 0.1 of the start. It returns the exact position of the first such attractor in list order, before any step. The step-loop facts carry over. |
| Integrator.QuietForShift | src/main.rs:85-106 | `m+1` quiet steps are one quiet step followed by `m` quiet steps from the next state. |
| Integrator.IntegrateExhausted | src/main.rs:85-107 | The step budget runs out exactly when every remaining step is quiet. The point returned is then the trajectory's position after the last step. |
| Integrator.RunExhausted | src/main.rs:68-107 | A run reaches the final return exactly when the start is not captured and all 3000 steps are quiet. It then returns the position after step 3000. |
| Integrator.DecidedAtShift | src/main.rs:85-106 | A quiet step in front of an early exit decided from the next step gives the same exit decided from this step. |
| Integrator.IntegrateEarly | src/main.rs:85-106 | An in-loop capture or escape at step `n` comes after quiet steps only. At the trajectory position after those steps, `r.index` is the first attractor within 0.02. Or no attractor is within 0.02, and the point returned is the position after one more `Step`, farther than 1500 from the origin. |
| Integrator.RunEarly | src/main.rs:68-106 | The same for a whole run from rest. An in-loop capture or escape also implies that no attractor was within 0.1 of the start. |
| Integrator.CaptureIsFirstNotNearest | src/main.rs:78-83 | With the first attractor within 0.1 and a second even nearer, the run returns the first. |
| Integrator.Sweep | src/main.rs:86-95 | The inner loop stops at the first attractor within 0.02. Where there is none, it has added every attractor's force in list order. |
| Integrator.Advance | src/main.rs:86-99 | One pass of the step loop: the sweep's capture decision, otherwise exactly one `Step` of position and velocity. |
| Integrator.StepLoop | src/main.rs:85-107 | The step loop from rest returns exactly the point of `Integrate` from step 0. Each pass is related to `Integrate` by the helper lemmas `IntegrateNear` and `IntegrateMoves`. |
| Integrator.Simulate | src/main.rs:68-108 | `simulate` with its nested loops and early returns returns exactly `Run(...).at`. |
| Raster.CellInGrid | src/main.rs:155-156 | For `i < width*height`: `x = i % width < width`, `y = i / width < height`, and `y*width + x == i`. |
| Raster.SimCoordinateRange | src/main.rs:157-158 | `SimCoordinate` maps column or row 0 to `-zoom`, and larger coordinates strictly increasing within `[-zoom, zoom)`. |
| Raster.PixelColourIsClassColour | src/main.rs:155-187 | The colour `PixelColour` gives chunk `i` is the palette entry of any class meeting the classifier's promise for the end point of the run from `CellStart` of `i`. |
| Raster.RunImageIsTwoTone | src/main.rs:122-127 | With the two attractors `main` uses, every pixel colour is white or black. |
| Raster.ShadePixel | src/main.rs:155-187 | The closure body computes exactly the colour `PixelColour` assigns to chunk `i`. |
| Raster.WritePixel | src/main.rs:189-191 | Bytes `3i..3i+3` take the colour and no other byte changes. |
| Raster.ProgressCounter.constructor | src/main.rs:134 | The counter starts at 0. |
| Raster.ProgressCounter.FetchAdd | src/main.rs:193 | It returns the old value and the counter goes up by one. |
| Raster.Rasterize | src/main.rs:154-194 | After the fill, byte `j` is channel `j % 3` of the colour of pixel `j / 3`, for every byte. The counter has grown by `width*height`. |
| Raster.Render | src/main.rs:121-194 | It starts from a new `width*height*3`-byte buffer and a zero counter, and ends with every chunk coloured and the counter at `width*height`. |
| Raster.RenderMain | src/main.rs:117-194 | `main`'s own configuration: a 10000 × 10000 grid, zoom 3.0 and the attractors (1, 1) and (-1, -1). The buffer has 3 × 10⁸ bytes, the counter ends at 10⁸, and every chunk is white or black. |
| Raster.Paint | src/main.rs:189-191 | Writing chunk `i` changes exactly the bytes whose chunk is `i`. |
| Raster.PaintAll | src/main.rs:154 | After any sequence of chunk writes, each byte holds its chunk's colour if that chunk was written, and its old value otherwise. |
| Raster.FillOrderIrrelevant | src/main.rs:154 | Two schedules writing the same chunks, in any orders, leave equal buffers. So the parallel fill has one outcome. |
| Raster.FillComplete | src/main.rs:154 | Any schedule covering every chunk leaves each chunk holding its own colour. |
| Raster.RasterizeMatchesSchedules | src/main.rs:154-191 | The buffer `Rasterize` promises equals the one `PaintAll` leaves for any schedule covering every chunk, in any order. So the sequential model and the parallel fill agree. |
| Prototype.FirstInBox | fractal.js:55-64 | The first attractor whose axis-aligned 0.02-box contains the point. No earlier box contains it, and `None` exactly when no box does. |
| Prototype.Integrate | fractal.js:54-80 | The step loop never reports a pre-check capture. A box capture returns the exact position of a valid attractor during a step below 1000. A far-or-slow exit happens during a step below 1000. |
| Prototype.Run | fractal.js:41-81 | The pre-check fires exactly when some attractor lies within 0.1 of the start, and returns the exact position of the first such attractor in list order. |
| Prototype.QuietForShift | fractal.js:54-78 | `m+1` quiet steps are one quiet step followed by `m` quiet steps from the next state. |
| Prototype.IntegrateStable | fractal.js:54-80 | The loop completes exactly when every remaining step is quiet, and then returns the position after the last step. |
| Prototype.StableMeansAllStepsRan | fractal.js:45-80 | The outcome is flagged stable exactly when the start is not captured and all 1000 steps are quiet. The early returns, including the far-or-slow one, never carry the flag. |
| Prototype.DecidedAtShift | fractal.js:54-78 | A quiet step in front of an early exit decided from the next step gives the same exit decided from this step. |
| Prototype.IntegrateEarly | fractal.js:54-78 | A box capture or far-or-slow exit at step `n` comes after quiet steps only. At the trajectory position after those steps, `r.index` is the first attractor whose box contains it. Or no box contains it, the state after one more `Step` `Leaves` (farther than 2000 or slower than 0.0001), and its position is the point returned. |
| Prototype.RunEarly | fractal.js:41-78 | The same for a whole run from rest. A box capture or far-or-slow exit also implies that no attractor was within 0.1 of the start. |
| Prototype.BoxIsNotDisc | fractal.js:60-61 | A point 0.019 off in both coordinates is inside the box, although it is farther than 0.02. |
| Prototype.DiscInsideBox | fractal.js:60-61 | Every point whose squared distance is below 0.02² passes the `InBox` test. So the box test captures at least the disc. |
| Prototype.Sweep | fractal.js:55-64 | The inner loop stops at the first attractor whose box contains the point. Where there is none, it has added every attractor's force in list order. |
| Prototype.Advance | fractal.js:55-69 | One pass of the step loop: the box decision, otherwise exactly one dampened `Step`. |
| Prototype.StepLoop | fractal.js:54-80 | The step loop from rest returns exactly `ToOutcome` of `Integrate` from step 0. So it is flagged stable exactly when `Integrate` ran all steps. Each pass is related to `Integrate` by the helper lemmas `IntegrateNear` and `IntegrateMoves`. |
| Prototype.Simulate | fractal.js:41-81 | `simulate` returns exactly the point of `Run`, flagged stable exactly when `Run` completed all steps. |
| Prototype.SquaredDistanceZero | fractal.js:97-99 | `SquaredDistance` is never negative, and it is 0 at the attractor's own position. |
| Prototype.AtAttractorNearest | fractal.js:94-104 | At attractor `k`'s exact position, where a capture returns, `k` is the lowest index of the minimum of `SquaredDistances`, as long as every earlier attractor is at a positive squared distance. |
| Prototype.NearestAttractor | fractal.js:94-104 | For an empty list the seeds 0 and `Infinity` are kept. Otherwise the index is the lowest index of the minimum squared distance, and the finite distance is that minimum. |
| Prototype.MinimumFar | fractal.js:110 | The minimum squared distance exceeds 2000 exactly when every squared distance does. |
| Prototype.ClassUnique | fractal.js:94-112 | The class rule `IsClass` names exactly one class per outcome. |
| Prototype.Classify | fractal.js:94-112 | The result meets `IsClass`. If every squared distance exceeds 2000 (also when there are none), the class is 5, even for a stable outcome. Otherwise a stable outcome gives 4 and an unstable one the lowest index of the minimum squared distance. With no more attractors than the six colours, the class indexes the colour table. |
| Prototype.ColourName | fractal.js:114-115 | The table gives a name exactly for indices below 6. |
| Prototype.ShadePixel | fractal.js:92-115 | The pixel body's class meets `IsClass` for the outcome of `Run` from the pixel's start point, and its colour is `ColourName` of the class. With at most the four listed attractors, every class has a colour. |

## Left out

- The force law (`calculate_force`, `calculateForce`) and the square root of Euclidean distance are parameters. Nothing is claimed about their values, about floating-point rounding, or about NaN and infinities produced by a zero distance.
- Velocity and position updates are exact real arithmetic, not IEEE 754 `f64` arithmetic. `TotalForce` is an exact sum, so `KickIsTotalForce` ignores the effect of summation order on rounding.
- The random perturbation of the attractors in the JavaScript file and the unused `perturb` of the Rust file are not modelled. `Prototype` takes the attractor list as a parameter, and `ListedAttractors` records the four positions as listed. `Prototype.ShadePixel` uses its length as the bound for a total colour lookup.
- The parallel `par_chunks_mut(...).for_each` is a sequential loop in index order. The fact that order makes no difference is proved separately on sequences (`PaintAll`, `FillOrderIrrelevant`, `FillComplete`, `RasterizeMatchesSchedules`). Thread interleaving itself is not modelled.
- Raster.ProgressCounter: a plain counter, not an atomic with relaxed ordering. The progress-bar thread, the rendezvous channel and the join are not modelled.
- Image and file I/O are not modelled: `ImageBuffer::new`/`from_raw`, PNG saving, the timestamped path and the clock, and the canvas, `fillRect` and PNG stream of the JavaScript file. A colour name is the model's last step on the JavaScript side.
- The JavaScript pixel loop and its coordinate mapping (zoom 1.5) are not modelled as a fill. `Prototype.ShadePixel` is its per-pixel body, taking the simulation-space start point directly.
- Integrator.Sweep, Prototype.Sweep, Integrator.Advance, Prototype.Advance, Integrator.StepLoop and Prototype.StepLoop: the inner attractor loop, the velocity and position update and the step loop are separate methods. In the source they sit inline in `simulate`, and the early return inside the inner loop leaves `simulate` directly. Here it is reported through `near`, and the callers return at once.
- Prototype.SquaredDistanceZero: does not state that the squared distance is positive away from the attractor. The solver's nonlinear real arithmetic does not close that step. So `Prototype.AtAttractorNearest` asks for earlier attractors at a positive squared distance rather than at a different position.
- The unused escape distance in `main` (`length_from_origin`, `max_length`) and the commented-out escape class are not modelled. `Attractor::to_string` is left out as formatting only.
- `u32` and `usize` casts in the pixel mapping are not modelled for overflow. With the configured 10000 × 10000 grid no index exceeds either type.
