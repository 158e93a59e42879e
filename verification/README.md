# Plexus background: a Dafny model

This project models the animated "plexus" background of the registration page
(`src/Resgistration/InteractiveBackground.jsx`). The background has three
parts, and the model covers each of them:

- **Particles.** Particles drift inside a cube of side `r = 450`. After each
  step, every axis on which a particle is strictly outside `[-r/2, r/2]` has
  its velocity component negated. The position itself is never clamped.
- **Segments.** Every frame, one connectivity pass does the following:
  - it clears all connection counters;
  - it takes the particles in index order; particle `i` moves, and then
    runs its row only if its counter is below 3 when the row begins;
  - in that row it visits `j = i + 1, …, n - 1` and joins `(i, j)` with a
    line segment when `j`'s counter is below 3 at that moment and the moved
    `i` is closer than 75 to the not-yet-moved `j`;
  - it writes the segment's six coordinates into a preallocated line buffer;
  - it then sets the draw range to the number of vertices written.
- **Tilt.** Pointer moves set an aim for the rotation of the scene group, and
  every frame the rotation closes 5% of the remaining distance to that aim.

The files are organised as follows:

| file | module | contents |
|---|---|---|
| `particles.dfy` | `Particles` | Vectors and particles. The per-frame step with its reflection. The counter reset. The reflection invariant. |
| `edges.dfy` | `Edges` | Segments, the per-particle counts, the lexicographic order, and the buffer layout of a list of segments. |
| `connectivity.dfy` | `Connectivity` | The connectivity pass as pure functions (`Visit`, `Row`, `Turn`, `Sweep`, `Pass`) in the same loop structure as the code. A state invariant for every point of the pass. What the pass guarantees. |
| `line_buffer.dfy` | `LineBuffer` | The pass as the animation runs it, step by step. The particle sequence and the line buffer are passed along and updated, and segment coordinates are written into the buffer. Each method is proved equal to the functional pass. |
| `orbit.dfy` | `Orbit` | Pointer offset, aimed rotation, easing and convergence. |
| `scene.dfy` | `Scene` | The whole background as a state driven by pointer events and frames. Invariants that hold over any stream of them. |

Two details of the code shape every result about segments, and the model
reproduces both.

**Mixed-time positions.** Particle `i` moves just before its own row is
evaluated. So the distance for the pair `(i, j)` is measured from the moved
`i` to the not-yet-moved `j`, and the buffer records those two positions.
`Connectivity.InReach` names this test.

**The cap is checked at two different moments.** The cap on `i` is checked
once, before its row starts. The cap on `j` is checked at the time the pair
is visited. As a result:

- a particle never ends above 3 through segments where it is the second end;
- a particle that reaches 3 before its own row gains nothing more;
- its own row can still take it above 3, up to `n - 1`.

`Connectivity.Accept` states which pairs are accepted without referring to
the loop. `Connectivity.PassDecides` proves that the pass accepts exactly
those pairs.

Three consequences of the code are worth stating outright:

- A coordinate can end a frame up to one step of its speed outside
  `[-225, 225]`, because the velocity is reversed only once the particle is
  already outside. `Particles.AdvanceKeepsContained` bounds the overshoot
  and shows the particle is then heading back. `Particles.OvershootOneFrame`
  gives a particle that ends a frame outside.
- A particle's own row can take its counter above 3.
  `Connectivity.RowCanExceedCap` gives a frame where a counter ends at 4.
- 450 is the side of the cube, so the reflection threshold on each axis is
  ±225.

## Model

| member | source | states |
|---|---|---|
| Particles.Advance | src/Resgistration/InteractiveBackground.jsx:184-191 | The position moves by exactly one velocity step. An axis whose new coordinate is strictly outside ±225 has its velocity component negated; every other component is kept. Speeds and the counter do not change. |
| Particles.Reset | src/Resgistration/InteractiveBackground.jsx:178 | Same particles, same positions and velocities, every counter zero. |
| Particles.SpawnedIsContained | src/Resgistration/InteractiveBackground.jsx:96-111 | A particle placed as the spawner places it satisfies the reflection invariant. |
| Particles.AdvanceKeepsContained | src/Resgistration/InteractiveBackground.jsx:184-191 | The reflection invariant is preserved by a step: each coordinate stays within ±(225 + its speed) and points inward whenever it is outside ±225. |
| Particles.OvershootOneFrame | src/Resgistration/InteractiveBackground.jsx:184-191 | The correction is one frame late: a particle the spawner can place on the lower face, moving outward at full speed, ends the frame outside the cube with its velocity reversed. |
| Particles.FaceDoesNotReflect | src/Resgistration/InteractiveBackground.jsx:189-191 | The bound test is strict: landing exactly on a face keeps the velocity. |
| Edges.SegmentAt | src/Resgistration/InteractiveBackground.jsx:209-214 | Segment `t` occupies buffer slots 6t to 6t + 5, first end then second end. |
| Connectivity.Connect | src/Resgistration/InteractiveBackground.jsx:205-214 | Accepting a pair raises exactly its two counters, by one each. It appends one segment with the two particles' current positions. No position or velocity changes. |
| Connectivity.Visit | src/Resgistration/InteractiveBackground.jsx:197-215 | A visit never moves a particle and never lowers a counter. It emits either nothing or exactly the segment for (i, j). |
| Connectivity.Turn | src/Resgistration/InteractiveBackground.jsx:180-216 | A turn keeps the earlier segments as a prefix. It adds at most one segment per later particle. |
| Connectivity.Row | src/Resgistration/InteractiveBackground.jsx:196-216 | A row adds at most one segment per later particle and keeps the earlier segments as a prefix. Positions and velocities are unchanged, and counters only grow. |
| Connectivity.Sweep | src/Resgistration/InteractiveBackground.jsx:180-217 | The outer loop from particle `i` on adds at most Pairs(n - i) segments and keeps the earlier ones as a prefix. |
| Connectivity.Pass | src/Resgistration/InteractiveBackground.jsx:177-217 | A frame keeps the particle count and emits at most n(n - 1)/2 segments. |
| Connectivity.PassMoves | src/Resgistration/InteractiveBackground.jsx:180-191 | Every particle takes exactly one step in the frame, with reflection. |
| Connectivity.PassCount | src/Resgistration/InteractiveBackground.jsx:206-207 | Each counter ends equal to the number of segment ends at its particle. |
| Connectivity.PassCounts | src/Resgistration/InteractiveBackground.jsx:206-207 | All counters are the degrees, and they add up to twice the number of segments. |
| Connectivity.PassSegment | src/Resgistration/InteractiveBackground.jsx:199-214 | Each segment joins a lower to a higher particle. Its first end is the moved position of the lower particle and its second end is the unmoved position of the higher one, and the two are closer than 75. |
| Connectivity.PassSorted | src/Resgistration/InteractiveBackground.jsx:180-196 | Segments appear in the order of pair evaluation: lexicographically increasing and without repeats. |
| Connectivity.PassPair | src/Resgistration/InteractiveBackground.jsx:194-205 | A pair (x, y) becomes a segment if and only if three things hold: x is a second end of fewer than 3 segments; y is a second end of fewer than 3 segments from rows before x; and the moved x is within reach of the unmoved y. |
| Connectivity.PassDecides | src/Resgistration/InteractiveBackground.jsx:194-205 | The same if-and-only-if, stated for all pairs at once. |
| Connectivity.PassCapShape | src/Resgistration/InteractiveBackground.jsx:194-207 | Segments gained as a second end never exceed 3. A particle at 3 before its own row has no row segments and ends at exactly 3. |
| Connectivity.PassCountBound | src/Resgistration/InteractiveBackground.jsx:194-207 | No counter exceeds n - 1. |
| Connectivity.FirstRowUncapped | src/Resgistration/InteractiveBackground.jsx:194-198 | Particle 0 is never a second end. Its row accepts every later particle within reach, with no cap. So when particles 1 to m - 1 are all within reach, particle 0 ends with at least m - 1 connections. |
| Connectivity.RowCanExceedCap | src/Resgistration/InteractiveBackground.jsx:194-207 | A concrete five-particle frame in which particle 0 ends with 4 connections, one more than the cap. |
| Connectivity.LonePair | src/Resgistration/InteractiveBackground.jsx:177-214 | When exactly one pair is within reach, the frame emits exactly that segment with its two recorded positions. Both of its particles have count 1 and all others have 0. |
| LineBuffer.PutSegment | src/Resgistration/InteractiveBackground.jsx:209-214 | Six consecutive slots receive the segment's coordinates, and no other slot changes. |
| LineBuffer.ClearCounters | src/Resgistration/InteractiveBackground.jsx:178 | The counter loop yields the reset particles. |
| LineBuffer.Link | src/Resgistration/InteractiveBackground.jsx:205-214 | The update for an accepted pair equals the functional acceptance step. The buffer then holds one more segment. |
| LineBuffer.Consider | src/Resgistration/InteractiveBackground.jsx:197-215 | One inner-loop iteration equals the functional visit of the pair. The buffer stays filled with exactly the emitted segments. |
| LineBuffer.ScanRow | src/Resgistration/InteractiveBackground.jsx:196-216 | The inner loop equals the functional row, and the buffer stays filled. |
| LineBuffer.TakeTurn | src/Resgistration/InteractiveBackground.jsx:180-216 | One outer iteration (move, cap check, row) equals the functional turn. |
| LineBuffer.SweepAll | src/Resgistration/InteractiveBackground.jsx:180-217 | The outer loop equals the functional sweep, and the buffer stays filled. |
| LineBuffer.BufferFits | src/Resgistration/InteractiveBackground.jsx:128 | A frame writes at most 3n(n - 1) slots, so it always fits in the 3n·n-slot buffer. |
| LineBuffer.PlexusFrame | src/Resgistration/InteractiveBackground.jsx:177-219 | The whole frame, step by step. The particles end as the functional pass leaves them. The first `vertexpos` slots hold the flattened segments, and the rest of the buffer is untouched. `vertexpos` is 6 per segment and the draw count is 2 per segment, i.e. `vertexpos / 3`. |
| Orbit.PointerAt | src/Resgistration/InteractiveBackground.jsx:146-149 | The recorded offset is zero exactly at the window centre, and positive exactly right of (or below) the centre. |
| Orbit.PointerRoundTrip | src/Resgistration/InteractiveBackground.jsx:147-148 | The pointer position can be recovered from the recorded offset. |
| Orbit.ClientRoundTrip | src/Resgistration/InteractiveBackground.jsx:147-148 | Every offset is recorded for exactly one window position. |
| Orbit.TargetOfClient | src/Resgistration/InteractiveBackground.jsx:147-156 | The aimed rotation swaps the axes: vertical pointer offset tilts about x and horizontal offset turns about y. The combined gain is 0.003 per pixel. |
| Orbit.CentredTarget | src/Resgistration/InteractiveBackground.jsx:147-156 | The aim is no rotation exactly when the pointer is at the window centre. |
| Orbit.EaseAxis | src/Resgistration/InteractiveBackground.jsx:159-160 | One frame leaves 95% of the remaining distance. The angle ends between where it was and the aim, and reaches the aim only if it was already there. |
| Orbit.Smooth | src/Resgistration/InteractiveBackground.jsx:155-160 | On both axes, the distance to the pointer's aim shrinks to 95%. |
| Orbit.EaseNResidual | src/Resgistration/InteractiveBackground.jsx:159-160 | After n frames with a fixed aim, the remaining distance is 0.95^n of the starting distance. |
| Orbit.EaseNMonotone | src/Resgistration/InteractiveBackground.jsx:159-160 | Successive frames approach the aim monotonically, without overshoot, from either side. |
| Orbit.EaseNConverges | src/Resgistration/InteractiveBackground.jsx:159-160 | After n frames, the remaining distance is at most 19/(19 + n) of the starting distance. |
| Scene.PassLinesNear | src/Resgistration/InteractiveBackground.jsx:199-205 | Every segment of a frame joins two recorded positions closer than 75. |
| Scene.Tick | src/Resgistration/InteractiveBackground.jsx:151-219 | A frame eases the rotation towards the aim, leaves the pointer alone, and steps every particle once. Every drawn line is shorter than 75, and there are at most n(n - 1)/2 lines. |
| Scene.LastPointerMoveWins | src/Resgistration/InteractiveBackground.jsx:146-149 | Of two pointer moves with no frame between them, only the last one matters. |
| Scene.PointerMoveKeepsRotation | src/Resgistration/InteractiveBackground.jsx:146-160 | A pointer move records the offset for the new position and changes nothing else. Rotation, particles and lines stay as they were until the next frame. |
| Scene.SpawnedAreContained | src/Resgistration/InteractiveBackground.jsx:96-111 | A freshly spawned field satisfies the reflection invariant. |
| Scene.TickKeepsContained | src/Resgistration/InteractiveBackground.jsx:180-191 | A frame preserves the reflection invariant of every particle. |
| Scene.ReplayKeepsContained | src/Resgistration/InteractiveBackground.jsx:184-191 | The reflection invariant holds after any stream of pointer moves and frames. |
| Scene.SettledPointer | src/Resgistration/InteractiveBackground.jsx:155-160 | With the pointer held still, n frames ease each axis n times towards the same aim. |
| Scene.RotationSettles | src/Resgistration/InteractiveBackground.jsx:155-160 | With the pointer held still, after n frames each axis is within 19/(19 + n) of its starting distance from the aim. |

## Left out

- Scene construction: renderer, camera, lights, materials and geometries (lines 11-35, 86-87, 115-127 and 129-137) are not modelled. The buffer size at line 128 is modelled as the requirement of `LineBuffer.PlexusFrame`. They configure three.js and compute nothing that the model depends on.
- Decorative bodies: the planet, the pulsing star, the ring and the asteroids (lines 29-84 and 164-174) are not modelled. They are cosmetic and independent of the particles.
- Rendering and buffer upload: `needsUpdate`, `render` and `requestAnimationFrame` are not modelled. A frame is an event in `Scene.Replay`.
- Random initialisation: `Math.random` (lines 96-111) is not modelled. The particles of a frame are an arbitrary input. `Particles.Spawned` describes the spawn ranges as closed intervals, a superset of the half-open ranges the code draws from.
- Particle count: the constant 200 (line 90) is replaced by any count `n`. Every result holds for all `n`.
- Arrays: `pPositions`, `particlesData` and `linePositions` are modelled as sequences that each step passes along and returns updated. The order of reads and writes within a frame, and so the mixed-time positions, is kept exactly.
- Floating point: positions, velocities, the line buffer and angles are idealised as exact reals. Single-precision storage and rounding are not modelled.
- Square root: the test `sqrt(dx² + dy² + dz²) < 75` (lines 200-205) is modelled as a squared distance below 5625. The two agree on exact reals.
- Browser plumbing: the resize handler, listener registration and the cleanup on unmount (lines 220-248) are not modelled. They hold no logic the model depends on. Window size enters only as a parameter of a pointer event.
- The commented-out static variant (lines 259-440) is not modelled, because it is dead code.
- The other files of the registration page are not part of this model: `FormComponents.jsx`, `LeftSideContent.jsx`, `GlowingCursor.jsx` and `AnimationStyles.jsx`.
