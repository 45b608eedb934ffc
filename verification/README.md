# Candy World native kernels in Dafny

This project models the C/C++ kernels that Candy World compiles to
WebAssembly, together with proofs of what they guarantee:

- **Fluid.** The 128 x 128 stable-fluids solver (`emscripten/fluid.cpp`). This covers:
  - the `IX` indexing;
  - the `set_bnd` boundary rule;
  - the 20-sweep Gauss-Seidel `lin_solve` and `diffuse`;
  - `project`, with its divergence, pressure solve and gradient subtraction;
  - the clamped semi-Lagrangian `advect`;
  - the bounds-checked impulse injectors;
  - the swap-based `fluidStep`, with its final 0.99 density fade.
- **Arpeggio.** The arpeggio step controller and its two getters (`emscripten/animation.cpp`).
- **AnimationBatch.** The per-entry batch animation kernels (`emscripten/animation_batch.cpp`). This covers:
  - the state rules of snare snap, cymbal shake, panning bob and spirit fade;
  - the shared batch loop with its slot discipline;
  - the `processBatchUniversal_c` type dispatcher.
- **DistanceCull.** The flag-and-count distance cull (`emscripten/batch.cpp`).
- **The three particle integrators.** They share the particle record of **ParticleLayout**:
  - **ParticlePhysics**: the audio-reactive one with clamped time step and respawn (`emscripten/particle_physics.cpp`);
  - **LegacyParticles**: the stride-8 one with libc-random respawn (`src/physics.cpp`);
  - **ParticlePool**: the fixed pool with live-only motion and the sphere collision query (`emscripten/physics.cpp`).
- **Bootstrap.** The bootstrap loader (`emscripten/bootstrap_loader.cpp`). This covers:
  - the heightmap fill worker;
  - the raise-only progress counter;
  - the start, reset and progress flags;
  - the clamped height lookup.

The models follow these conventions:

- **Floats and integers.** Floats are `real`s. C integers are unbounded `int`s: every value involved stays far inside 32 bits.
- **Buffers are values.** A buffer the source updates in place is a `seq<real>` here, and each operation returns the new buffer.
- **Global state.** It becomes an explicit state value: `FluidState`, `Globals` and `Result`.
- **External functions become parameters.** Each module takes them as uninterpreted function parameters:
  - `sinf`, `cosf` and `1/sqrtf`;
  - the noise functions `fbm` and `valueNoise2D`;
  - the libc `rand()` stream.

  Nothing is assumed about their values.
- **Threads.** The worker threads are modelled as methods that run to completion.

## Model

| member | source | states |
|---|---|---|
| Fluid.IX | emscripten/fluid.cpp:21 | On the grid the row-major index lies in [0, N*N) and is inverted by (k % N, k / N). |
| Fluid.CellOfIndex | emscripten/fluid.cpp:21 | Every linear index in [0, N*N) is IX of exactly one grid cell. |
| Fluid.EdgePass | emscripten/fluid.cpp:26-33 | After the two edge loops, each edge cell holds its interior neighbour. The copy is negated on the top and bottom rows iff b == 2, and on the left and right columns iff b == 1. Every other cell is unchanged. |
| Fluid.CornerPass | emscripten/fluid.cpp:35-38 | Each corner becomes the mean of its two adjacent edge cells. No other cell changes. |
| Fluid.SetBnd | emscripten/fluid.cpp:25-39 | The result obeys the full boundary rule for b (mirrored edges, averaged corners). Its interior equals the input's interior. |
| Fluid.BoundaryDetermined | emscripten/fluid.cpp:25-39 | Two fields that both obey the rule for b and share their interior are equal: the interior determines the border. |
| Fluid.SetBndFixesBounded | emscripten/fluid.cpp:25-39 | set_bnd leaves a field that already obeys the rule unchanged. |
| Fluid.SetBndIdempotent | emscripten/fluid.cpp:25-39 | Applying set_bnd twice gives the same field as applying it once. |
| Fluid.SetBndIgnoresBorder | emscripten/fluid.cpp:25-39 | set_bnd's result does not depend on the old border values. |
| Fluid.SetBndOfZeroInterior | emscripten/fluid.cpp:25-39 | A field with a zero interior becomes entirely zero. |
| Fluid.Sweep | emscripten/fluid.cpp:45-54 | One row-major Gauss-Seidel sweep: every interior cell becomes (x0 + a * (sum of its four neighbours)) * cRecip, where the left and upper neighbours already hold their new values and the right and lower ones still hold x. The border is left alone. With a == 0 each interior cell is x0 * cRecip, and zero inputs stay zero. |
| Fluid.SweepDetermined | emscripten/fluid.cpp:45-54 | The sweep equations have exactly one solution: two fields that both satisfy them for the same x, x0, a and cRecip are equal. |
| Fluid.LinSolve | emscripten/fluid.cpp:41-57 | The result is the end of a chain of exactly 20 steps from x, each step one Gauss-Seidel sweep followed by set_bnd(b). It obeys the rule for b. With a == 0 the interior is x0 / c, and zero inputs give zero. |
| Fluid.LinSolveDetermined | emscripten/fluid.cpp:41-57 | The 20-step chain has exactly one end: two results of it from the same inputs are equal. |
| Fluid.LinSolveOfZeros | emscripten/fluid.cpp:41-57 | From a zero field with a zero right-hand side, the solve returns the zero field for every a and c. |
| Fluid.DiffusionCoeff | emscripten/fluid.cpp:60 | a = dt * rate * (N-2)^2 is zero exactly when dt * rate is zero and has its sign. For a non-negative dt * rate the diagonal 1 + 4a is at least 1. |
| Fluid.Diffuse | emscripten/fluid.cpp:59-63 | The result is lin_solve(b, x, x0, a, 1 + 4a) with a = dt * rate * (N-2)^2. It obeys the rule for b. With a zero rate or time step the interior equals x0, and zero fields stay zero. |
| Fluid.DiffusedDetermined | emscripten/fluid.cpp:59-63 | diffuse has exactly one result for given inputs. |
| Fluid.Divergence | emscripten/fluid.cpp:106-113 | Every interior cell holds -0.5 * h times the central-difference divergence of (u, v). |
| Fluid.ClearInterior | emscripten/fluid.cpp:112 | The pressure's interior is reset to zero. |
| Fluid.SubtractGradient | emscripten/fluid.cpp:121-126 | Every interior cell loses half the central difference of p along its axis, divided by h. |
| Fluid.DivergenceOfZero | emscripten/fluid.cpp:108-111 | A zero velocity field has zero divergence on the interior. |
| Fluid.GradientOfZero | emscripten/fluid.cpp:123-124 | Zero velocity minus the gradient of zero pressure is zero on the interior. |
| Fluid.SolvePressure | emscripten/fluid.cpp:106-118 | div is set_bnd(0) of the divergence of (u, v), and p is lin_solve(0, p, div, 1, 4) started from the cleared pressure. Both obey the b == 0 rule. A still flow gives zero pressure and divergence. |
| Fluid.CorrectVelocity | emscripten/fluid.cpp:120-128 | The corrected component is the old one minus the pressure gradient, and it obeys its own rule: b == 1 for u, b == 2 for v. |
| Fluid.Project | emscripten/fluid.cpp:102-129 | div is set_bnd(0) of the divergence of the input velocity, and p is the 20-sweep pressure solve of it from zero. u and v are the input minus the gradient of that p, with rules 1 and 2. A zero velocity projects to all-zero outputs. |
| Fluid.ProjectDetermined | emscripten/fluid.cpp:102-129 | project has exactly one result for a given velocity: all four outputs are determined. |
| Fluid.ProjectKeepsDivergenceFree | emscripten/fluid.cpp:102-129 | A velocity with zero divergence on every interior cell gives zero div and zero pressure. It leaves project with only its own set_bnd applied. |
| Fluid.GradientOfZeroPressure | emscripten/fluid.cpp:120-128 | Subtracting the gradient of a zero pressure and applying set_bnd is set_bnd alone. |
| Fluid.TraceAxis | emscripten/fluid.cpp:71-92 | The traced position pos - shift is clamped to [0.5, N-1.5]. lo + w1 is the position itself inside that range, 0.5 below it and N-1.5 above it. The sample indices are on the grid, the weights are in [0, 1] and sum to 1, and w1 < 1. A zero shift samples the cell itself with weight 1. |
| Fluid.StencilX | emscripten/fluid.cpp:71-89 | The x-axis stencil of every interior cell is valid: indices on the grid, convex weights. |
| Fluid.StencilY | emscripten/fluid.cpp:72-92 | The y-axis stencil of every interior cell is valid: indices on the grid, convex weights. |
| Fluid.BilinearOfFour | emscripten/fluid.cpp:94-96 | With convex weights the interpolation of four values lies between the least and the greatest of them. |
| Fluid.Bilinear | emscripten/fluid.cpp:94-96 | The bilinear sample lies between the least and the greatest of the four d0 cells it reads. A point sitting on a sample reads that sample. |
| Fluid.AdvectSample | emscripten/fluid.cpp:94-96 | A sample lies within its four cells. An identity stencil returns the cell itself, and a zero field samples zero. |
| Fluid.AdvectStill | emscripten/fluid.cpp:71-96 | A cell where dt times its velocity is zero copies its own d0 value. |
| Fluid.AdvectCellFacts | emscripten/fluid.cpp:69-98 | The interior pass keeps every cell within its samples and copies unmoved cells. A zero d0 gives a zero interior. |
| Fluid.Advect | emscripten/fluid.cpp:65-100 | The result obeys the rule for b. Every interior cell lies within the four d0 samples its trace reads, and every cell the trace does not move copies d0. A zero d0 gives zero. |
| Fluid.StillFlowUnmoved | emscripten/fluid.cpp:71-72 | A zero velocity field moves no cell. |
| Fluid.AdvectThroughStillFlow | emscripten/fluid.cpp:65-100 | Through a zero velocity field, advect returns d0 itself whenever d0 obeys the rule for b. |
| Fluid.Decay | emscripten/fluid.cpp:183-186 | Every cell becomes 0.99 times its value, and the result is all zero exactly when the input is. |
| Fluid.DecayKeepsBoundary | emscripten/fluid.cpp:183-186 | The uniform 0.99 fade keeps every boundary rule. |
| Fluid.DecayScalesTotal | emscripten/fluid.cpp:183-186 | The fade multiplies the total density by exactly 0.99. |
| Fluid.TotalUpdate | emscripten/fluid.cpp:147 | Changing one cell changes the total by the difference. |
| Fluid.InitialState | emscripten/fluid.cpp:13-18 | All six buffers start as zero fields of N*N cells. |
| Fluid.FluidInit | emscripten/fluid.cpp:136-142 | Whatever the size argument, u, v and dens are zeroed and the three _prev buffers are left as they were. |
| Fluid.AddDensity | emscripten/fluid.cpp:145-148 | Off the grid nothing changes. On it, only cell IX(x, y) of dens changes, by exactly amount, and the total mass grows by amount. |
| Fluid.AddVelocity | emscripten/fluid.cpp:151-155 | Off the grid nothing changes. On it, only cell IX(x, y) of u and of v changes, by amountX and amountY. |
| Fluid.AddDensityAccumulates | emscripten/fluid.cpp:145-148 | Two deposits into one cell equal one deposit of their sum. |
| Fluid.DiffuseVelocity | emscripten/fluid.cpp:160-166 | After the swaps, u is diffused (rule 1) from the old u_prev toward the old u, and v likewise (rule 2). The pair is then projected with the old v as scratch. u obeys rule 1, v rule 2 and the scratch buffers rule 0. All-zero velocity buffers stay zero. |
| Fluid.SelfAdvect | emscripten/fluid.cpp:171-172 | u is advect(1) and v is advect(2) of the previous velocity along itself. They obey rules 1 and 2, and a zero previous velocity gives zero. |
| Fluid.VelocityStep | emscripten/fluid.cpp:160-174 | The velocity half of the step is diffuse, project, swap, self-advect and project again. The result is that composition of the four buffers. It leaves u in rule 1, v in rule 2 and the scratch buffers in rule 0. All-zero velocity buffers stay zero. |
| Fluid.VelocityStepDetermined | emscripten/fluid.cpp:160-174 | The velocity half of the step has exactly one result for given buffers, viscosity and time step. |
| Fluid.DensityStep | emscripten/fluid.cpp:177-186 | densPrev is the density diffused from the old dens_prev toward the old density. The new density is the 0.99 fade of densPrev advected through (u, v), and it obeys rule 0. With zero velocity it is the fade of densPrev alone. |
| Fluid.FluidStep | emscripten/fluid.cpp:158-187 | The velocity buffers are the velocity step of the old ones. dens_prev is the old density diffused, and dens is the faded advection of it through the new velocity. Every buffer obeys its boundary rule. A quiescent velocity stays quiescent, and then the density is only diffused and faded. |
| Fluid.FluidStepDetermined | emscripten/fluid.cpp:158-187 | fluidStep has exactly one result for a given state and arguments. |
| Arpeggio.NextTarget | emscripten/animation.cpp:7-16 | The target is 0 when inactive. On a rising edge it is min(target + 1, maxSteps); otherwise it is unchanged. |
| Arpeggio.Rate | emscripten/animation.cpp:18-20 | The easing rate is 0.3 exactly when the target is above the current unfurl, and 0.05 otherwise. |
| Arpeggio.CalcArpeggioStep | emscripten/animation.cpp:6-24 | The new unfurl is currentUnfurl + (target - currentUnfurl) * Rate for the new target. It moves toward the target without overshooting, strictly closer unless already there. A target in [0, maxSteps] stays in range. |
| Arpeggio.GetTargetStep | emscripten/animation.cpp:26-28 | The getter returns slot 0 of the stored result, the target of the last step. |
| Arpeggio.GetUnfurlStep | emscripten/animation.cpp:30-32 | The getter returns slot 1 of the stored result, the unfurl of the last step. |
| Arpeggio.GettersReturnLastCall | emscripten/animation.cpp:22-31 | After any sequence of calls, the getters return exactly the target and unfurl of the last call. |
| AnimationBatch.SnapState | emscripten/animation_batch.cpp:103-109 | Trigger above 0.2 with a settled state: the state becomes 1. Trigger above 0.2 otherwise: it is kept. Without a trigger: max(0, state - 0.1). A state in [0, 1] stays in [0, 1]. |
| AnimationBatch.QuietSnapDecays | emscripten/animation_batch.cpp:107-108 | n frames without a trigger leave max(0, state - 0.1 n). |
| AnimationBatch.CymbalRotation | emscripten/animation_batch.cpp:261-271 | Above 0.05 the rotation is replaced by the jitter. Otherwise it becomes 0.9 times itself, strictly closer to 0 unless it is 0. |
| AnimationBatch.CalmCymbalSettles | emscripten/animation_batch.cpp:268-271 | n calm frames scale the stored rotation by 0.9^n. |
| AnimationBatch.CymbalScale | emscripten/animation_batch.cpp:277-281 | The scale is 1 exactly when highFreq <= 0.4, and 1 + (highFreq - 0.4)/2 above that, so it is always >= 1. |
| AnimationBatch.NextBob | emscripten/animation_batch.cpp:303-305 | The bob moves a tenth of the way toward the pan activity and never past it. |
| AnimationBatch.BobConverges | emscripten/animation_batch.cpp:303-305 | Under constant pan activity, the gap after n frames is 0.9^n times the initial gap. |
| AnimationBatch.SpiritStep | emscripten/animation_batch.cpp:336-349 | The opacity moves 5% toward 0.8 on a quiet frame and 5% toward 0 otherwise. The flee speed follows the max/min rules. Opacity in [0, 0.8] and flee in [0, 0.2] stay in range. |
| AnimationBatch.EntryStep | emscripten/animation_batch.cpp:94-361 | A kernel changes slot 4 or slot 5 only if it stores state there, and the fourth output is always 0. Snare stores SnapState in slot 4 and outputs [0, state, 0, 0]. Cymbal stores its two CymbalRotation values and outputs them with CymbalScale. Panning bob stores NextBob in slot 5, and its rotZ and glow are panBias * h * 0.2 and 0.6 + 0.8h, where h = 1.5 * intensity * the new bob. Spirit fade stores the SpiritStep of (opacity, flee) and reports the new opacity and flee in outputs 0 and 2. |
| AnimationBatch.StoreEntry | emscripten/animation_batch.cpp:111-118 | The write-back sets the entry's two state slots and its four result slots, and nothing else. |
| AnimationBatch.RunSteps | emscripten/animation_batch.cpp:95-97 | Over the first count entries, each entry's state and result are those of its step on the entry as read. All other input slots and all output slots past the batch are unchanged. |
| AnimationBatch.RunBatch | emscripten/animation_batch.cpp:95-361 | A kernel's batch changes only slots 4 and 5 of the first count entries and the first count results. A slot the kernel keeps no state in keeps its value. |
| AnimationBatch.Route | emscripten/animation_batch.cpp:379-410 | Codes 13 to 21, and only those, select the kernel with that code. Its intensity is 1 + 5 * groove and its audio argument is audioParam. |
| AnimationBatch.ProcessBatchUniversal | emscripten/animation_batch.cpp:368-411 | An unknown type leaves both buffers unchanged. A known type runs its kernel's batch. |
| DistanceCull.Flag | emscripten/batch.cpp:25-35 | The flag is 1 iff the squared distance is within the bound, and 0 iff it is not. |
| DistanceCull.BatchDistanceCull | emscripten/batch.cpp:21-38 | flags[i] is 1 iff point i is within the bound and 0 otherwise, for i < count. The result counts those ones and lies in [0, count]. Flags past count are unchanged. |
| ParticlePhysics.InitParticleRandom | emscripten/particle_physics.cpp:41-44 | A zero seed becomes 12345 and any other seed is stored as given, so the state is never zero. The clock is reset to 0. |
| ParticlePhysics.ClampDelta | emscripten/particle_physics.cpp:65 | The step is at most 0.1 and at most dt, and it is either dt or 0.1. There is no lower clamp. |
| ParticlePhysics.Integrate | emscripten/particle_physics.cpp:71-104 | vy gains gravityY * dt, and each position moves by its velocity (the updated vy) times dt times speed times (1 + 2 * audioPulse). Life loses 0.3 * dt, and vx, vz and speed are kept. |
| ParticlePhysics.Respawn | emscripten/particle_physics.cpp:106-126 | A respawned particle has life 1, height spawnY and speed 1. |
| ParticlePhysics.UpdateParticle | emscripten/particle_physics.cpp:92-127 | A particle whose decayed life is >= 0 is integrated; otherwise it respawns. Life is never negative afterwards, and a life <= 1 stays <= 1 for dt >= 0. |
| ParticlePhysics.UpdateParticlesWASM | emscripten/particle_physics.cpp:53-140 | The clock advances by exactly the clamped step, and the random state is untouched. Each of the first count particles becomes its update, so every life is >= 0. Slots past 4 * count are unchanged. |
| ParticlePhysics.ClockBoundedByCalls | emscripten/particle_physics.cpp:65-68 | Over any sequence of calls, the clock advances by at most 0.1 per call. |
| LegacyParticles.RandomFloat | src/physics.cpp:8-10 | random_float lies in [-0.5, 0.5], with the ends reached exactly at rand() == 0 and rand() == RAND_MAX. |
| LegacyParticles.Move | src/physics.cpp:27-31 | vy loses 2 * dt and life loses 0.2 * dt. vx, vz and speed are kept. |
| LegacyParticles.UpdateParticle | src/physics.cpp:27-41 | A particle that does not expire just moves. An expired one respawns at height 10 with life 1 and vy 2, with x and z in [-5, 5] and vx and vz in [-1, 1]. Speed is kept, and life is > 0 either way. |
| LegacyParticles.Store | src/physics.cpp:43-49 | The write-back sets slots 0 to 6 of the particle and leaves the speed slot and all other particles alone. |
| LegacyParticles.UpdateOne | src/physics.cpp:15-49 | One iteration turns particle i into its update, drawing from the stream position left by the earlier respawns. It touches no other particle and advances the cursor by 4 exactly when the particle expires. |
| LegacyParticles.UpdatedSlots | src/physics.cpp:31-49 | Once every particle holds its update, every life slot is > 0 and every speed slot is unchanged. |
| LegacyParticles.UpdateParticles | src/physics.cpp:13-51 | Each of the first count particles becomes its update, drawing four values per respawn in particle order. Every life is > 0 and every speed slot is unchanged. Slots past 8 * count are unchanged. |
| ParticlePool.Step | emscripten/physics.cpp:40-49 | A dead particle is unchanged. A live one moves by velocity * dt and loses dt of life. Velocity and speed never change. |
| ParticlePool.StepsCompose | emscripten/physics.cpp:42-49 | Two steps that both find the particle alive equal one step of the combined length. |
| ParticlePool.DeadStaysPut | emscripten/physics.cpp:40-42 | A dead particle stays unchanged through any sequence of updates. |
| ParticlePool.StoreMotion | emscripten/physics.cpp:44-49 | The write-back sets the particle's position and life and nothing else. |
| ParticlePool.UpdateParticles | emscripten/physics.cpp:37-88 | Every pool particle becomes its step, so every dead particle is unchanged. |
| ParticlePool.CheckCollision | emscripten/physics.cpp:91-105 | The result is 1 iff some live particle lies strictly inside the sphere, and 0 otherwise. |
| Bootstrap.RaiseTo | emscripten/bootstrap_loader.cpp:101-105 | The compare-and-swap loop never lowers the progress and stores the larger of the two values. |
| Bootstrap.Percent | emscripten/bootstrap_loader.cpp:98 | (k * 100) / total is the whole percentage rounded down: p * total <= 100k < (p + 1) * total. For k <= total it is at most 100, and exactly 100 iff k == total. |
| Bootstrap.PercentMonotone | emscripten/bootstrap_loader.cpp:98 | More completed units never give a smaller percentage. |
| Bootstrap.RowProgressMonotone | emscripten/bootstrap_loader.cpp:97-98 | k * 100 / 64 rises with k, stays in [0, 100] and equals 100 exactly at k = 64. |
| Bootstrap.FillIndexBijective | emscripten/bootstrap_loader.cpp:80-94 | row * 64 + col is in range, and it is cell k exactly when (row, col) = (k / 64, k % 64), so each cell is written once. |
| Bootstrap.BootstrapMasterWorker | emscripten/bootstrap_loader.cpp:72-111 | When the worker finishes, every heightmap cell holds the terrain height of its grid point. Progress is 100, complete is set and 64 rows are counted. started and the warm-up state are unchanged. The progress stored after row k is (k+1) * 100 / 64. That sequence never falls, and it reaches 100 only with the last row. |
| Bootstrap.WarmupMasterWorker | emscripten/bootstrap_loader.cpp:114-145 | When the warm-up finishes, all 1000 chunks are counted, progress is 100 (as the getter reports) and complete is set. The loader state is unchanged. The progress stored after chunk k is (k+1) * 100 / 1000, and that sequence never falls. |
| Bootstrap.StartBootstrapInit | emscripten/bootstrap_loader.cpp:153-167 | Once started, a call changes nothing. Otherwise it marks the loader started and clears progress, rows and the complete flag, leaving the table unchanged. |
| Bootstrap.StartShaderWarmup | emscripten/bootstrap_loader.cpp:171-181 | Once started, a call changes nothing. Otherwise it marks the warm-up started and clears progress and the complete flag; the chunk counter is untouched. |
| Bootstrap.GetShaderWarmupProgress | emscripten/bootstrap_loader.cpp:183-186 | The getter returns the stored warm-up progress. |
| Bootstrap.GetBootstrapProgress | emscripten/bootstrap_loader.cpp:190-196 | It returns the stored progress and sets complete once progress is >= 100. Nothing else changes. |
| Bootstrap.IsBootstrapComplete | emscripten/bootstrap_loader.cpp:200-202 | It returns 1 iff the complete flag is set, and 0 otherwise. |
| Bootstrap.ResetBootstrap | emscripten/bootstrap_loader.cpp:228-242 | Both blocks return to not started, progress 0, not complete and zero counters, and every heightmap cell is 0. |
| Bootstrap.ResetAllowsRestart | emscripten/bootstrap_loader.cpp:153-158 | After a reset, a start call does start the loader. |
| Bootstrap.Trunc | emscripten/bootstrap_loader.cpp:215-216 | The (int) conversion truncates toward zero. For x >= 0 the result n is the integer with n <= x < n + 1. For x < 0 it is the integer with n - 1 < x <= n, so it is never below x. |
| Bootstrap.CellOf | emscripten/bootstrap_loader.cpp:214-221 | The clamped column is in [0, 63]. Below the far edge, the point lies in that cell; on the far edge (32) it is the last cell. |
| Bootstrap.HeightIndex | emscripten/bootstrap_loader.cpp:223 | The index is in [0, 4096), with column CellOf(x) and row CellOf(z). |
| Bootstrap.GetBootstrapHeight | emscripten/bootstrap_loader.cpp:206-225 | Outside the +-32 square it returns the noise formula without reading the table. Inside, it reads the (always in-bounds) table cell of the point. |
| Bootstrap.LookupAfterFill | emscripten/bootstrap_loader.cpp:80-94 | After the fill, a lookup at any grid point returns the same height as the terrain formula there. |

## Left out

- **Floating point.** Single-precision rounding, NaN and infinity are not modelled: floats are exact reals. Float literals are their decimal values.
- **Division by zero in lin_solve.** `Fluid.LinSolve` requires c != 0, and `Fluid.Diffuse` requires 1 + 4a != 0 (`Solvable`). The C code would divide by zero there and carry on with infinities.
- **Concurrency.**
  - The OpenMP `parallel for` on the Gauss-Seidel sweep in `lin_solve` makes that sweep racy. `Fluid.Sweep` models the sequential row-major sweep.
  - The other parallel loops touch disjoint cells and are modelled as sequential loops or whole-field functions.
- **Fluid numerics.** The model does not cover:
  - the convergence of the 20 relaxation sweeps or the reduction of divergence by `project`;
  - mass conservation by diffusion and advection.

  Only the final fade's exact scaling of the total mass is proved (`Fluid.DecayScalesTotal`).
- **Unmodelled fluid exports.** `fluidGetDensityPtr` (emscripten/fluid.cpp:190-192) exposes a pointer and is not part of this model.
- AnimationBatch.EntryStep: the outputs computed from `sinf`/`cosf` are not stated; they are given only by its definition. These are all outputs of accordion, fiber whip, spiral wave, vibrato shake and tremolo pulse, plus the sine-driven posY of panning bob and spirit fade. Those five kernels store no state, and the uninterpreted `sinf`/`cosf` constrain nothing. Every other output and all stored state is stated.
- **Unused dispatcher and kernel inputs.** `processBatchUniversal_c` computes `animTime` and takes `kick`, but uses neither. The SIMD helpers `simd_sin`, `simd_max` and `simd_sqrt` are unused and are not part of this model.
- ParticlePhysics.Respawn: the respawn offsets and velocities come from `sinf`/`cosf` and are not constrained.
- **particle_physics.cpp extras.** The unused xorshift `randFloat`/`randRange` and `getParticlePhysicsVersion` are not part of this model.
- LegacyParticles.Move: the position update (position += velocity * dt * speed, with the updated vy) is given by its definition only, not restated in its contract.
- **Unmodelled batch.cpp kernels.** `batchDistances` and `batchSinWave` (emscripten/batch.cpp:9-18, 41-47) are a sqrt kernel and a sine kernel with no discrete contract.
- **Unmodelled physics.cpp functions.** `fastDistance` and `smoothDamp` (emscripten/physics.cpp:11-29) are float approximations.
- **Unmodelled src/physics.cpp function.** `getTerrainHeight` (src/physics.cpp:55-61) is a sum of sines and cosines.
- **The libc random stream.** It is a parameter `rand: nat -> RandValue` with a cursor. The libc generator itself is not modelled.
- **Bootstrap threading.**
  - `pthread_create`/`pthread_detach`, the atomics and the compare-and-swap retry loops are not modelled. Each worker is a method run to completion from the state its start call leaves.
  - The raise-only effect of the retry loop is `Bootstrap.RaiseTo`.
  - The warm-up's busy loop of `sinf`/`cosf`/`tanf` computes nothing observable and is dropped.
- **Bootstrap cell size.** The source computes the cell size as 2 * 32 / 64 = 1, so the grid line of index i is at -32 + i.
- **Noise functions.** `fbm` and `valueNoise2D` (emscripten/math.cpp) are not part of this model; they are parameters.
