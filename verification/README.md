# Wind-tunnel particle solver, modelled in Dafny

This project models the particle solver of `simulation/tunnel_simulation.py`. Tracer particles
are carried through a fixed two-dimensional tunnel outline by an analytic velocity field. The
model covers the solver's parts:

- The outline is fitted onto the canvas (`procesar_geometria`). The inlet, throat and outlet
  landmarks are read off the fitted outline.
- The tunnel is pre-populated by rejection sampling (`generate_points_in_polygon`, `__init__`).
- The velocity field (`get_velocity_field`) has three parts:
  - an axial speed attenuated towards the walls;
  - a boost inside the throat;
  - uniform turbulence.
- Particles that leave the tunnel or pass the outlet are respawned at the inlet
  (`reset_particles`).
- Each frame (`update`) moves every particle and resets the escaped ones. It then sizes every
  particle by its speed. The frame loop runs `update` once per frame.

Modules, one per file:

| file | module | contents |
|---|---|---|
| `wrappers.dfy` | `Wrappers`, `Random` | `Option`; unit random draws passed in explicitly |
| `geometry.dfy` | `Geometry` | points, bounding boxes, `np.clip`, the fitting of the outline |
| `tunnel.dfy` | `Tunnel` | the constants as a `Config`, the raw outline, the landmarks |
| `velocity.dfy` | `VelocityField` | boundary attenuation, throat boost, turbulence, the field |
| `sampler.dfy` | `Sampler` | candidates, acceptance, the pool of accepted points, the sampler |
| `particles.dfy` | `Particles` | the particle arrays, the pre-populated start, the respawn |
| `stepper.dfy` | `Stepper` | `np.where`, render sizes, one frame, the frame loop |

Floating-point numbers are modelled as Dafny's exact `real`s. Everything random is supplied as
explicit sequences of draws. Each draw stands for one value of `np.random.rand`, which lies in
`[0, 1)`.

The turbulence term `(rand - 0.5) * 2 * T` lies in `[-T, T)`; `VelocityField.Turbulence` states
the half-open bound.

## Model

| member | source | states |
|---|---|---|
| Geometry.Clip | simulation/tunnel_simulation.py:88-89 | `np.clip` returns a value inside `[lo, hi]`; it is the input when that is inside, `lo` below the range and `hi` above it |
| Geometry.SeqBounds | simulation/tunnel_simulation.py:31 | the per-axis `min`/`max` bound every coordinate of the outline |
| Geometry.ScaleFactor | simulation/tunnel_simulation.py:34-35 | the uniform scale is positive; the scaled box fits inside the padding on both axes; and it fills the room exactly on at least one axis |
| Geometry.ScaleFactorIsLargest | simulation/tunnel_simulation.py:34-35 | no larger factor makes the box fit inside the padding: the chosen factor is the largest that fits |
| Geometry.FitAxisExtent | simulation/tunnel_simulation.py:32-38 | on each axis, the fitted coordinates span the original extent times the scale |
| Geometry.FitAxisCentred | simulation/tunnel_simulation.py:37-39 | on each axis, the fitted coordinates lie equally far from both canvas edges |
| Geometry.FitAxisPointwise | simulation/tunnel_simulation.py:32-39 | every fitted coordinate's offset from the first is the original offset times the scale |
| Geometry.Normalize | simulation/tunnel_simulation.py:29-39 | the fitted outline has the same vertex count; it is a similar copy (one scale on both axes, so the aspect ratio is kept); its box is the original box scaled; it lies inside the padding; it is centred on the canvas |
| Geometry.UnitBoxFit | simulation/tunnel_simulation.py:29-39 | any outline with the unit box, fitted onto a 200 by 200 canvas with a 20 pixel margin, spans exactly `[20, 180]` on both axes |
| Geometry.UnitSquareBox | simulation/tunnel_simulation.py:31-33 | the unit square's box is `[0, 1]` on both axes, so the worked case applies to it |
| Tunnel.DtPositive | simulation/tunnel_simulation.py:20 | a positive frame rate gives a positive time step |
| Tunnel.RawTunnelBox | simulation/tunnel_simulation.py:23-26 | the shipped outline has ten vertices, the box from `(0, -19.5)` to `(234, 19.5)`, and positive area |
| Tunnel.RawTunnelShape | simulation/tunnel_simulation.py:23-26 | the shipped outline has the shape the landmark indices presuppose: a vertical inlet edge on the far left spanning the full height, and the throat strictly between the inlet and the rightmost vertex |
| Tunnel.FittedLandmarks | simulation/tunnel_simulation.py:42-46 | for any outline of that shape, the landmarks `Tunnel.ExtractLandmarks` reads off the fitted outline (inlet from vertex 9 to vertex 0, throat at vertices 2 and 3, outlet at vertex 5) behave as the solver expects: the inlet is the left box edge and spans the full height, centred on the canvas, with positive half-height; the outlet is the right box edge; inlet, throat and outlet run left to right inside the padding |
| Tunnel.SourceLandmarksValid | simulation/tunnel_simulation.py:42-46 | the shipped constants are usable; the shipped landmarks have positive inlet half-height, a centred vertical inlet, and inlet, throat and outlet in order inside the padding |
| Stepper.SourceReady | simulation/tunnel_simulation.py:42-46 | the shipped constants and landmarks meet the hypotheses of the frame theorems: a positive frame rate, a non-zero inlet half-height and speed scale, and an inlet whose lower end is below its upper end, so `Stepper.SimulateInvariant` applies to the program as shipped |
| VelocityField.Attenuation | simulation/tunnel_simulation.py:88-89 | the clipped `1 - q²` lies in `[0.1, 1]`; it is 1 exactly at `q = 0`; it is the floor 0.1 exactly when `q² >= 0.9` |
| VelocityField.AttenuationAntitone | simulation/tunnel_simulation.py:88-89 | a larger relative distance never attenuates less |
| VelocityField.BoundaryFactor | simulation/tunnel_simulation.py:85-89 | the boundary factor lies in `[0.1, 1]`; it is 1 exactly on the canvas centreline; it is 0.1 exactly when the squared relative distance reaches 0.9 |
| VelocityField.BoundaryFactorAntitone | simulation/tunnel_simulation.py:85-89 | a particle further from the centreline is attenuated at least as much |
| VelocityField.BoundaryFactorSymmetric | simulation/tunnel_simulation.py:85-89 | the factor is the same at equal distances above and below the centreline |
| VelocityField.BoundaryFactorExtremes | simulation/tunnel_simulation.py:85-89 | the factor is 1 on the centreline, and 0.1 at 1.5 inlet half-heights above or below it |
| VelocityField.AxialSpeed | simulation/tunnel_simulation.py:83-91 | with valid constants the axial speed is positive; it lies between a tenth of its unattenuated value and that value; and it is unattenuated exactly on the centreline |
| VelocityField.ThroatBoost | simulation/tunnel_simulation.py:90-91 | at the same height, a particle strictly inside the throat moves `BOOST_FACTOR` times as fast axially as one outside it |
| VelocityField.AxialSpeedAntitone | simulation/tunnel_simulation.py:83-91 | within one zone (throat or not), a particle closer to the centreline moves at least as fast axially |
| VelocityField.Turbulence | simulation/tunnel_simulation.py:92-93 | a unit draw gives turbulence in `[-T, T]`, and strictly below `T` when `T > 0` |
| VelocityField.TurbulenceOdd | simulation/tunnel_simulation.py:92-93 | turbulence is odd about the draw 0.5, so it is zero there and centred on zero |
| VelocityField.Field | simulation/tunnel_simulation.py:82-95 | there is one velocity per particle; with unit draws, each is within the turbulence range of the axial speed horizontally and of zero vertically |
| VelocityField.FieldIsLocal | simulation/tunnel_simulation.py:82-95 | a particle's velocity depends only on its own position and draws, and not on the other particles or any earlier velocity |
| VelocityField.FieldWithoutTurbulence | simulation/tunnel_simulation.py:82-95 | with zero turbulence, the velocity is the axial speed horizontally and zero vertically |
| Sampler.CandidateInBox | simulation/tunnel_simulation.py:72-74 | a candidate from unit draws lies in the bounding box, and in the half-open box when that has positive size |
| Sampler.CandidateCoversBox | simulation/tunnel_simulation.py:72-74 | every point of the half-open box is the candidate of some pair of unit draws |
| Sampler.Accept | simulation/tunnel_simulation.py:76-78 | the boolean mask keeps only candidates the containment test accepts, drawn from the batch, and it keeps every accepted candidate |
| Sampler.AcceptAppend | simulation/tunnel_simulation.py:76-78 | filtering two runs of candidates one after the other equals filtering them together |
| Sampler.AcceptBatch | simulation/tunnel_simulation.py:71-78 | the loop over one batch yields exactly the accepted candidates, in order |
| Sampler.Pool | simulation/tunnel_simulation.py:69-78 | every pooled point passes the containment test; with unit draws, every pooled point lies in the bounding box |
| Sampler.PoolPrefix | simulation/tunnel_simulation.py:69-78 | drawing more batches only appends to the pool |
| Sampler.PoolIsAcceptedStream | simulation/tunnel_simulation.py:69-78 | the pool is the accepted subsequence of all candidates; how they were batched makes no difference |
| Sampler.SamplePoints | simulation/tunnel_simulation.py:64-80 | with enough accepted candidates, the sampler returns exactly `n` points: the first `n` of the pool, each inside the tunnel and, with unit draws, inside the bounding box. It fails exactly when the supplied batches yield fewer than `n` |
| Particles.Prepopulated | simulation/tunnel_simulation.py:58-62 | the start has four arrays of equal length; every particle is at rest with size 0; with unit draws, every age is in `[0, 5)` |
| Particles.Initialize | simulation/tunnel_simulation.py:52-62 | the start holds `NUM_PARTICLES` particles, all inside the tunnel, at rest, of size 0, with ages in `[0, 5)`. It fails exactly when sampling does |
| Particles.InletPointOnInlet | simulation/tunnel_simulation.py:101-106 | a respawned particle lands in the five-pixel strip downstream of the inlet, between its ends, and restarts with an age in `[0, 0.1)` |
| Particles.InletPointCovers | simulation/tunnel_simulation.py:101-104 | every point of that strip below the inlet's upper end is reachable by some unit draw |
| Particles.Respawn | simulation/tunnel_simulation.py:97-106 | an empty list changes nothing. Listed particles get the inlet position and age of their last listing; unlisted ones keep theirs. Velocities, sizes and array lengths are unchanged |
| Particles.RespawnOnInlet | simulation/tunnel_simulation.py:97-106 | with unit draws, every listed particle ends on the inlet strip with an age in `[0, 0.1)` |
| Particles.RespawnDistinct | simulation/tunnel_simulation.py:105-106 | with indices listed without repetition, in any order, the `j`-th listed particle gets the `j`-th draws |
| Stepper.Where | simulation/tunnel_simulation.py:116 | the result lists, in strictly increasing order, exactly the indices whose mask entry is set |
| Stepper.WhereCount | simulation/tunnel_simulation.py:116 | as many particles are listed as the mask selects |
| Stepper.RenderSize | simulation/tunnel_simulation.py:119-123 | the size lies in `[SIZE_MIN, SIZE_MAX]`; it is `SIZE_MAX` at rest and `SIZE_MIN` from the speed scale on |
| Stepper.RenderSizeAntitone | simulation/tunnel_simulation.py:119-123 | a higher speed never gives a larger size |
| Stepper.RestingIsLargest | simulation/tunnel_simulation.py:119-123 | with the Euclidean norm, a particle at rest is drawn at `SIZE_MAX` |
| Stepper.FasterIsSmaller | simulation/tunnel_simulation.py:119-123 | with the Euclidean norm, the particle with the longer velocity vector is drawn no larger |
| Stepper.Sizes | simulation/tunnel_simulation.py:119-123 | there is one size per particle, each in `[SIZE_MIN, SIZE_MAX]` |
| Stepper.Update | simulation/tunnel_simulation.py:108-123 | a frame keeps the particle count and all four arrays the same length |
| Stepper.UpdateParticle | simulation/tunnel_simulation.py:108-123 | each particle gets the field's velocity at its old position and a size from that velocity. If its moved position is inside and not past the outlet, it stays there one time step older; otherwise it takes the respawn draw of its rank among the reset particles |
| Stepper.ParticleFate | simulation/tunnel_simulation.py:108-117 | with unit draws, a particle either stays where the step took it, one time step older, or restarts on the inlet strip with an age in `[0, 0.1)` |
| Stepper.UpdateInTunnelOrInlet | simulation/tunnel_simulation.py:108-117 | after any frame with unit draws, every particle is inside the tunnel and not past the outlet, or on the inlet strip |
| Stepper.UpdateKeepsAges | simulation/tunnel_simulation.py:108-117 | with unit draws, a frame keeps every age non-negative |
| Stepper.Simulate | simulation/tunnel_simulation.py:131-132 | running the frames one `update` each keeps the particle count |
| Stepper.SimulateAppend | simulation/tunnel_simulation.py:131-132 | running one run of frames and then another equals running them together |
| Stepper.SimulateInvariant | simulation/tunnel_simulation.py:131-132 | over any run of frames, ages stay non-negative; after at least one frame, every particle is settled in the tunnel or on the inlet strip |

## Left out

- Rendering and video export (lines 125 onward) are not modelled: matplotlib figures, saving frames, `ffmpeg`, `tqdm` and the output directory are I/O. The frame loop is modelled without them as `Stepper.Simulate`.
- The progress message printed by `__init__` is I/O and is not modelled.
- Floating point is not modelled. Coordinates, speeds and ages are exact reals, so rounding, `inf` and `nan` do not arise.
- `Path.contains_points` is a parameter `inside: Point -> bool`. The point-in-polygon test itself is not modelled.
- `np.linalg.norm` is a parameter `norm`. The size bounds and the size ordering by speed hold for any norm. The lemmas about particles at rest and faster particles assume the Euclidean norm, stated through its square.
- `np.random.rand` is not modelled. Its values are supplied as sequences of draws, and the contracts that need `[0, 1)` state it as a hypothesis.
  - Respawn draws are grouped per particle as (ratio, jitter, age). The source draws one vector of ratios, then one of jitters, then one of ages. This changes which stream value goes to which particle, not the values' range.
  - One frame receives a supply of respawn draws of at least one per particle; the first one per reset particle is used.
- `Sampler.SamplePoints`: the source's rejection loop is unbounded. The model consumes a finite sequence of candidate batches and returns `None` when they run out first, so non-termination is not modelled.
- `Geometry.Normalize` and `Geometry.ScaleFactor` require an outline box with positive width and positive height. The source divides the available room by each extent at lines 34-35. For a box flat on one axis, numpy gives `inf` for that axis's ratio, `min` discards it, and the source fits a finite segment. A box flat on both axes gives no finite scale. The model does not cover either case.
- `Geometry.Normalize` and `Geometry.ScaleFactor` require a canvas larger than twice the padding on both axes. This is not a division by zero. With less room, the source's `scale` is zero or negative, so the outline collapses to a point or is mirrored. The model does not cover these layouts.
- `VelocityField.BoundaryFactor` requires a non-zero inlet half-height. With zero, line 88 divides by zero and numpy gives `inf` or `nan`.
- `Tunnel.Config.Dt` requires a positive frame rate. With zero, Python raises at line 20.
- `Stepper.RenderSize` requires a non-zero `BASE_VELOCITY * BOOST_FACTOR`. With zero, line 121 divides by zero and numpy gives `inf` or `nan`.
- `Particles.Respawn`: when an index is listed twice, the model gives the particle the draw of its last listing. numpy does not document which value wins for repeated indices in an assignment. The indices always come from `np.where` and never repeat, and `Particles.RespawnDistinct` covers that case.
- `DPI` and `NUM_FRAMES` only size the figure and the loop, and are not part of `Tunnel.Config`. The number of frames is the length of the sequence passed to `Stepper.Simulate`.
- `Particles.Initialize`: with zero particles the model starts from the empty state, and `Stepper.Update` and `Stepper.Simulate` run frames on it. The source instead builds a one-dimensional empty array at line 80, and the first frame raises `IndexError` at line 84 (`vel_field[:, 0]`). The model does not reproduce that crash.
- `Tunnel.ExtractLandmarks` requires at least ten vertices. For a shorter outline the source raises `IndexError` at line 44; the model does not cover that case.
