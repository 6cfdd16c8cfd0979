# force-it-go-sample, modelled in Dafny

A wall of 20 x 40 anchored balls is pushed around by "force" particles
spawned from a tracked hand gesture. The repository's engine has three
layers, modelled here in six modules:

- `Vectors` (vec.dfy): the mutable 3-vector `Vec` as a class, and the value
  `V3` that carries its arithmetic. `Mag` is the squared length, as in the
  program.
- `Particles` (particle.dfy): the point mass `Particle` as a class. It has a
  live position, a constant anchor, a velocity, a `diff` accumulator, a
  radius, a timestamp and a removal flag. Each update rule (`Move`,
  `Gravity`, `SetAroundModule`, `ModuleGravity`, `AddVelocity`) is proved
  to perform one pure transition on `PState`, the particle's state as a
  value. Lemmas then state what each transition does.
- `Affines` (affine.dfy): the 3x4 affine maps (identity, rotation about x,
  scale, translation, `Transform`) and their composition.
- `Lattice` (lattice.dfy): the row-major layout of the wall and the
  arithmetic of the neighbourhood pass. This covers how often a ball is hit
  by the 5 x 5 windows, and the state of the lattice after the pass and
  its relaxation.
- `Forces` (forces.dfy): the pure specification of the force list. It
  covers the order-preserving filter `Keep`, the collision impulse, the
  collision pass, the move-and-expire step and the spawned burst.
- `SimulationModel` (simulation.dfy): the `Simulation` class with the
  program's own fields and methods: `NewSimulation` (the constructor),
  `Calibration`, `Recognize`, `MakeForce`, `TransformPoint`, `Collision`,
  `CollisionFlag`, `Move` and `UpdateWallBalls`.

Each method that changes the wall or the force list is proved to leave
`States(wallBalls)` / `States(forces)` equal to a pure function of the
states before the call. The loops of the program are kept as loops; each
loop of a nested loop nest is its own method with its own invariant.
`Valid()` is the invariant every step keeps:
- the wall has 800 balls;
- no particle is listed twice;
- no particle is both a ball and a force;
- no surviving force is flagged.

Numbers are `real`. Square root, arc cosine, cosine and sine come in as a
`RealFns` record of arbitrary functions. The clock is an `int`
parameter `now` (milliseconds). The random draws are a stream
`rand: nat -> real`, of which particle i of a burst uses draws 3i, 3i+1
and 3i+2. The body tracker's frame is a `Skeleton` value holding the joint
positions and the right-hand state. `updated` says whether the tracker
delivered a frame.

The model follows the code as written, also where it does not do what its
names and its own comments (main.go:146-162 and 311-326) suggest, namely
that only interior cells are smoothed, that calibration uses the raw joint,
and that a wall at rest stays put:

- The neighbourhood pass gives every cell of the wall at least one
  contribution, not only the interior ones. A corner cell is hit once, an
  interior cell 25 times (`Lattice.HitsValues`).
- Calibration cancels the y coordinate of the rotated spine-mid joint (the
  code at main.go:144 and 156), not the raw one that the comment around it
  talks about.
- Each ball accumulates its own absolute position, not its neighbours', so
  even a wall at rest with no forces is pushed away from the origin on
  every update (`Lattice.RestingBallDrifts`).

## Model

| member | source | states |
|---|---|---|
| Vectors.Vec.constructor | vec.go:9-11 | NewVec holds exactly the three given components |
| Vectors.Vec.Add | vec.go:13-17 | the receiver becomes the componentwise sum of both old values; a distinct argument is unchanged |
| Vectors.Vec.Sub | vec.go:19-23 | the receiver becomes target - current, whatever it held before, even when it is one of the arguments |
| Vectors.Vec.Mult | vec.go:25-29 | every component is multiplied by k; Mult(0) gives the zero vector |
| Vectors.Vec.Dot | vec.go:31-33 | the dot product of the two values, and it is symmetric |
| Vectors.Vec.Mag | vec.go:35-37 | Mag is the receiver's dot product with itself (the squared length) and is never negative |
| Vectors.PlusCommutes | vec.go:13-17 | vector addition is commutative |
| Vectors.PlusAssociates | vec.go:13-17 | vector addition is associative |
| Vectors.MagIsSelfDot | vec.go:35-37 | for every value, Mag equals the self dot product and is at least 0 |
| Vectors.Vec.Normalize | vec.go:43-50 | divides by the square root of Mag only when that is non-zero, else leaves the vector alone; a zero vector stays zero |
| Vectors.Vec.Copy | vec.go:52-56 | the receiver equals the argument's old value, and the argument is unchanged |
| Vectors.Vec.Reset | vec.go:58-62 | the receiver becomes (0, 0, 0) |
| Vectors.VecTestExamples | vec_test.go:7-20 | (1,2,3) + (4,5,6) = (5,7,9), and Mag of (3,4,0) is 25 |
| Particles.Particle.constructor | particle.go:24-33 | live position = anchor = (x, y, z); velocity and diff zero; flag clear; timestamp `now` |
| Particles.Particle.Move | particle.go:35-40 | the state becomes Moved: position + velocity, diff zero, nothing else changed |
| Particles.MoveTwice | particle.go:35-40 | Move changes only position and diff, and two moves advance by twice the velocity |
| Particles.Particle.Gravity | particle.go:42-56 | the state becomes Gravitated: snap to the anchor at rest below the floor, else a 0.0005 (anchor - position) pull |
| Particles.GravitySnapsBack | particle.go:43-47 | below the floor the particle lands on its anchor with zero velocity, whatever its velocity was |
| Particles.GravityPulls | particle.go:48-55 | at or above the floor the position is kept and 0.0005 (anchor - position) is added to the velocity; a particle on its anchor is untouched |
| Particles.Particle.SetAroundModule | particle.go:58-60 | v is added into diff and nothing else changes |
| Particles.Particle.ModuleGravity | particle.go:62-69 | the state becomes ModuleGravitated |
| Particles.ModuleGravityThenMove | particle.go:62-69 | diff becomes diff / 24 and velocity gains diff / 24; diff is not cleared until the next Move |
| Particles.ModuleRateIsOneTwentyFourth | particle.go:63-65 | 1 / (4 d (d + 1)) with d = 2 is 1/24 |
| Particles.Particle.AddVelocity | particle.go:75-77 | v is added to the velocity only |
| Particles.RelaxedKeepsIdentity | main.go:339-341 | Gravity, ModuleGravity and Move never change the anchor, radius, timestamp or flag, and leave diff zero |
| Particles.ParticleTestExamples | vec_test.go:26-43 | moving from the origin at (1,1,1) reaches (1,1,1) and then (2,2,2); a particle anchored at (10,10,10) and pushed below the floor returns to z = 10 |
| Affines.IdentityFixes | main.go:37-43 | the identity map returns its input |
| Affines.TranslateAdds | main.go:66-72 | a translation adds (tx, ty, tz) |
| Affines.ScaleMultiplies | main.go:57-63 | a scale multiplies componentwise |
| Affines.RotateXIsRigid | main.go:46-54 | a rotation about x keeps x, and keeps the squared length when cos^2 + sin^2 = 1 |
| Affines.ComposeApplies | main.go:74-79 | applying the composed map is applying the two maps in turn |
| SimulationModel.Simulation.TransformPointComposes | main.go:215-220 | TransformPoint is the single map scale . translate . rotate |
| SimulationModel.TiltArg | main.go:133-136 | the acos argument is bz / 2 capped at 1 from above only |
| SimulationModel.Simulation.Calibration | main.go:125-165 | with no tracker frame no transform changes; otherwise rotate, translate and scale become the tilt, the levelling translation and (100, -100, -100) |
| SimulationModel.CalibrationLevelsSpineMid | main.go:141-164 | the calibrated map sends the spine-mid joint to height 0 and scales its x by 100 |
| Lattice.IndexRoundTrip | main.go:115-121 | row-major index r * 40 + c lies in [0, 800) and gives back row r and column c |
| Lattice.IndexOfCell | main.go:309 | every index below 800 is row * 40 + column of one cell |
| Lattice.InitialLayout | main.go:115-121 | the ball at r * 40 + c rests at ((c - 20) 10, (r - 20) 10, 0) with radius 5, at rest and unflagged |
| Lattice.AnchorsDistinct | main.go:115-121 | no two balls share an anchor |
| SimulationModel.InitialBallAt | main.go:117-118 | the ball built for grid point (x, y) is the lattice ball of index (y + 20) 40 + (x + 20) |
| SimulationModel.AppendRow | main.go:116-120 | appends 40 fresh, distinct balls, the initial balls of one row, and keeps what was there |
| SimulationModel.NewLattice | main.go:115-121 | 800 distinct fresh balls whose states are the initial lattice |
| SimulationModel.Simulation.constructor | main.go:98-123 | a valid simulation: the initial lattice of freshly allocated balls, no forces, identity transforms, fresh zero gesture vectors |
| SimulationModel.Simulation.Recognize | main.go:167-187 | fresh joint vectors with the tracked positions; rightVec is hand - shoulder for an open right hand, else zero |
| Forces.Burst | main.go:200-212 | 50 particles when no mapped velocity component is zero, none otherwise; each with radius 1, the mapped velocity, timestamp now, no diff, unflagged |
| SimulationModel.SpawnBurst | main.go:200-212 | the spawning loop builds exactly Burst, as fresh distinct particles |
| SimulationModel.Simulation.MakeForce | main.go:189-213 | rightVec is scaled by 0.4; the old forces stay as the prefix, unchanged; the new forces are fresh and are the burst; walls unchanged; Valid is kept |
| SimulationModel.StatesAppend | main.go:210 | the states of an appended list are the appended states |
| SimulationModel.Joined | main.go:210 | appending fresh particles keeps every particle listed once and off the wall |
| Forces.TouchSqIs36 | main.go:20-22 | the touch threshold (ballradius + forceradius)^2 is 36 |
| SimulationModel.Simulation.CollisionFlag | main.go:254-260 | true exactly when the squared distance between the live positions is below (5 + 1)^2 |
| Forces.ImpulseIsForceVelocity | main.go:226-236 | with m1 = m2 = 1 the impulse ((m1 - m2) vb + 2 m2 vf) / (m1 + m2) is exactly the force's velocity |
| SimulationModel.Strike | main.go:226-239 | a hit adds the impulse to the ball's velocity and flags the force, nothing else |
| Forces.Absorbed | main.go:224-241 | a ball tested against a list of forces changes in its velocity only |
| Forces.AbsorbedAddsHits | main.go:224-241 | a ball's velocity gains exactly the sum of the velocities of the forces it touches |
| SimulationModel.TouchedByStep | main.go:223-225 | a force is touched by the first i + 1 balls iff by the first i or by ball i |
| SimulationModel.Simulation.CollideBall | main.go:224-241 | ball i absorbs the forces it touches in order; every force it touches is flagged, the others are as they were |
| SimulationModel.Simulation.CollideAll | main.go:223-242 | every ball absorbs the forces it touches; a force is flagged iff it was or it touches some ball (a flagged force goes on being tested) |
| Forces.SurvivorsExactly | main.go:244-251 | with no flag set beforehand, a force survives iff it touches no wall ball |
| SimulationModel.KeepUnflagged | main.go:245-251 | the compaction loop keeps exactly the unflagged forces, in order |
| SimulationModel.Simulation.Collision | main.go:222-252 | walls become Collided; the force list becomes the survivors in their original order with unchanged states; Valid is kept |
| Forces.KeepMembers | main.go:245-251 | an element is kept iff some position holding it is flagged |
| Forces.KeepAppend | main.go:245-251 | filtering a concatenation concatenates the filtered parts, so survivors keep their relative order |
| Forces.KeepAll | main.go:267-275 | with every flag set nothing is dropped |
| SimulationModel.KeepStep | main.go:246-250 | one more filter step appends the element iff its flag is set |
| SimulationModel.KeepStates | main.go:245-251 | filtering particles then reading their states is filtering the states |
| SimulationModel.KeptValid | main.go:245-251 | a filtered force list still lists each particle once, none on the wall, none flagged |
| SimulationModel.Simulation.StepAll | main.go:263-265 | every force takes one Move step |
| SimulationModel.KeepYoung | main.go:267-275 | the expiry loop keeps exactly the forces with now - t <= 5000, in order |
| SimulationModel.Simulation.Move | main.go:262-276 | the force list is the same particle objects filtered by age after the move, in order, and their states are Advanced (moved, then the expired ones dropped); walls unchanged; Valid is kept |
| Forces.ForceLifetimeWindow | main.go:262-276 | a force is kept (moved) iff now <= t + 5000 |
| Forces.NoneExpired | main.go:262-276 | with no force expired the list is just moved |
| Lattice.WindowInBounds | main.go:306-310 | for centres y in [2, 17], x in [2, 37] and offsets in [-2, 2] both bounds checks always pass |
| Lattice.NearClosedForm | main.go:280-304 | the centres along one axis whose window holds a coordinate number the overlap of two intervals |
| Lattice.AxisHits | main.go:280-304 | along an axis a coordinate is hit by 1 to 5 centres, 5 exactly away from both ends, 1 at each end |
| Lattice.HitsValues | main.go:280-336 | each ball is hit between 1 and 25 times, 25 exactly in rows 4..15 and columns 4..35, once at each corner |
| Lattice.AccumulatedStep | main.go:328-330 | one more visit adds the ball's position to diff once more |
| Lattice.CountStart | main.go:280 | before the pass no ball has been visited |
| Lattice.CountEnd | main.go:280-336 | after all rows of centres each ball has been visited Hits times |
| Lattice.CountRowDone | main.go:281 | a row of centres is the sum of its centres |
| Lattice.CountCentreDone | main.go:303 | a centre is the sum of the five rows of its window |
| Lattice.CountWindowRowDone | main.go:304 | a window row is the sum of its five cells |
| Lattice.CountCellStep | main.go:306-330 | visiting cell (y + j, x + i) adds one to that ball's count and to no other |
| SimulationModel.PassWindowRow | main.go:304-333 | one window row adds each ball's position to its own diff once per cell visited, leaving the rest |
| SimulationModel.PassCentre | main.go:303-334 | one centre's window, row by row |
| SimulationModel.PassRow | main.go:281-335 | one row of centres |
| SimulationModel.Pass | main.go:280-336 | every ball's diff gains its own position Hits(k) times; nothing else changes |
| SimulationModel.Relax | main.go:339-341 | Gravity, ModuleGravity, Move on one ball is the Relaxed transition |
| SimulationModel.RelaxAll | main.go:338-342 | every ball is relaxed once |
| SimulationModel.Simulation.UpdateWallBalls | main.go:278-343 | walls become Updated (the pass, then relaxation); forces unchanged; Valid, and with it 800 balls, kept |
| Lattice.UpdatedKeepsIdentity | main.go:278-343 | after an update every ball's diff is zero, with anchor, radius and timestamp kept |
| Lattice.RestingBallDrifts | main.go:278-343 | a ball still on its anchor, hit n times, moves with velocity (n / 24) anchor: a resting wall drifts |
| Lattice.AccumulatedAtRest | main.go:328-330 | a ball at rest with an empty diff gathers n copies of its anchor |
| Lattice.RelaxAtAnchor | main.go:338-342 | relaxing a still ball on its anchor moves it by diff / 24 |

## Left out

- The program's main loop, ticker and timing, and its console output, are not modelled.
- The body tracker (kinect.go and the C bridge) is not part of this model. A tracker frame is a `Skeleton` parameter, and whether one arrived is the `updated` parameter of `Calibration`.
- Floating-point rounding, NaN and infinities are not modelled: numbers are reals, and `math.Pow(x, 2)` is `x * x`.
- Square root, arc cosine, cosine and sine are arbitrary caller-supplied functions, so nothing depends on their values. `Vec.Dist`, the spread `d` of MakeForce and the calibration angle stay abstract.
- The clock and the random generator are parameters. Every ball of the initial wall, and every particle of one MakeForce burst, gets the same creation time `now`, while the program reads the clock once per particle (particle.go:30, called at main.go:117 and 206). A burst whose creation straddles a millisecond tick can therefore, in the program, expire over two Move calls; in the model the whole burst expires in the same Move.
- A particle's `velocity` and `diff` are values, not separate `Vec` objects. The program never shares those objects between particles, and the getters `GetPosition` and `GetVelocity` are only read from.
- Vectors.Vec.Normalize: unit length of the result is not stated, because it depends on the square-root function.
- Vectors.Vec.Dist: has no contract beyond applying the given square root to `Mag`, so the unit test's `Dist((3,4,0)) == 5` is not stated.
- SimulationModel.TiltArg: the argument is capped at 1 from above only, as in the program. A depth below -2 gives an argument below -1, which the arc cosine cannot take; the model does not flag this.
