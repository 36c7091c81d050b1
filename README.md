# Orbital simulation: a verified model of its update rules

This project models the simulation core of a small N-body viewer: a solar system (or the Alpha Centauri system), a cloud of asteroids, and an optional black hole. The core lives in `orbitalSim.cpp` and `orbitalSim.h`. It is written here in Dafny, with `real` standing in for C's `float` and `double`. It does not model numerical accuracy. It models the discrete skeleton around the arithmetic:

- which acceleration entries receive which contributions;
- which bodies are alive;
- how the black hole is created, moves and swallows bodies;
- how a simulation is built and reset.

Modules:

- `Raymath` (`raymath.dfy`): the vector helpers. It also holds `Libm`, a record of the library functions `sqrt`, `sin`, `cos` and `Vector3Length`, which stay abstract. Three predicates state the only facts the proofs may assume about them:
  - `SqrtSound`: `sqrt` of a non-negative number is its non-negative root, and `sqrt(0) = 0`;
  - `TrigSound`: `sin² + cos² = 1`, `sin 0 = 0` and `cos 0 = 1`;
  - `LengthSound`: a length is the root of the squared length.
- `OrbitalTypes` (`orbital_types.dfy`): the three enumerations, the body, black-hole and configuration records, the physical constants, and the two ephemerides tables. The tables are a parameter with the shape the force code relies on: Jupiter sits at index 5 of the Solar table, and the companion star at index 1 of the Alpha Centauri table.
- `Gravity` (`gravity.dfy`): `ComputeGravitationalAccelerations` and its four passes, as array methods. Each method is proved against a function that replays its pass over sequences. Lemmas cover:
  - the regularisation floor;
  - Newton's third law, pair by pair and summed over the system;
  - that a dead body feels nothing;
  - that an asteroid's acceleration depends on no other asteroid.
- `HolePull` (`hole_pull.dfy`): the pull between the hole and one body, as a function of the separation and its squared length. Lemmas cover its direction, its regularisation, and the third law with the 0.01 reaction below the floor.
- `BlackHoles` (`black_hole.dfy`): creation, the two-way pull with the bodies, and the collision loop. Lemmas cover mass conservation, growth of the radius per absorbed body, the loss of live bodies, and that the event horizon is not monotonic.
- `Seeding` (`seeding.dfy`): `getRandomFloat`, `getDispersionRange`, `configureAsteroid`, and the body array that construction and reset produce. `rand()` is a stream of draws in [0, 1]. Asteroid k uses draws 4k to 4k+3, in the source's order: radius, angle, eccentricity, vertical speed.
- `Simulation` (`orbital_sim.dfy`):
  - the class `OrbitalSim`, whose fields are those of the C struct, with construction, reset, `createBlackHole` and the tick;
  - the function `Tick`, which states the whole tick as a function of the state before it;
  - the lemmas about a tick.

## Model

| member | source | states |
|---|---|---|
| BlackHoles.NewBlackHole | orbitalSim.cpp:30-37 | A created hole is active, at the given position, at rest with zero acceleration. It has 10 solar masses, growth rate 1E3, event horizon 2.95·10·1E6 and radius 200 times the event horizon. |
| Simulation.OrbitalSim.CreateBlackHole | orbitalSim.cpp:28-38 | With a hole already active nothing changes ("there can be only one"). Otherwise the hole becomes exactly `NewBlackHole(position)`. The simulation's invariant and its populated state are kept. |
| HolePull.HolePullIsRegularised | orbitalSim.cpp:460-485 | For non-negative masses, with r = body − hole: the body's term points against r, towards the hole, strictly when the two are apart and the hole has mass. The hole's term points along r, towards the body. Neither term is longer than G·M/1E29 times the distance between them, M being the other party's mass: the regularisation cap. |
| BlackHoles.HoleAndBodyAttract | orbitalSim.cpp:460-485 | The same for `BlackHoleTerms`, the hole's pull at separation body − hole: the body is pulled towards the hole and the hole towards the body, each term capped at G·M/1E29 times their distance. |
| HolePull.HoleThirdLaw | orbitalSim.cpp:460-485 | Above the floor, the pull on the body and the reaction on the hole cancel when weighted by the two masses. On the floor they cancel only with the body's mass scaled by 0.01. |
| HolePull.ReactionCancels | orbitalSim.cpp:467-473 | Helper: two multiples a·r and b·r of one separation cancel under weights w_a, w_b whenever a·w_a + b·w_b = 0. |
| HolePull.TermsAboveFloor | orbitalSim.cpp:464-474 | Above the floor the two terms are −G·M_hole/r³ · r and G·m/r³ · r. |
| HolePull.TermsOnFloor | orbitalSim.cpp:475-485 | On the floor the two terms are −G·M_hole/1E29 · r and 0.01·G·m/1E29 · r. |
| HolePull.QuotientsAboveFloor | orbitalSim.cpp:466-471 | Helper: above the floor, c·M = G·M/r³ for the hole's and for the body's mass. |
| HolePull.QuotientsOnFloor | orbitalSim.cpp:477-482 | Helper: on the floor, c·M = G·M/1E29, and c·0.01·m = 0.01·G·m/1E29. |
| BlackHoles.HoleContribution | orbitalSim.cpp:460-485 | The loop body of the hole's pull computes exactly the two terms of `BlackHoleTerms` (the hole's pull at separation body − hole), on both branches of the floor, as the source's literal quotients. |
| BlackHoles.DeadBodyDoesNotPullTheHole | orbitalSim.cpp:457-458 | Two body arrays that differ only in a body dead in both give the hole the same acceleration. |
| BlackHoles.HoleReactionBalances | orbitalSim.cpp:455-487 | Starting from zero, the hole's mass times its accumulated acceleration plus the weighted pulls on the live bodies is zero: the third law summed over the loop, with the 0.01 weight below the floor. |
| BlackHoles.BalanceStep | orbitalSim.cpp:467-484 | Helper: one live body's terms keep that balance. |
| BlackHoles.WithHolePull | orbitalSim.cpp:457-468 | Adding the hole's pull keeps the buffer length and leaves every dead body's entry as it was. |
| BlackHoles.ComputeBlackHoleAcceleration | orbitalSim.cpp:455-487 | Every live body's entry gains the hole's pull; the hole's acceleration is its old value plus the reactions of the live bodies in index order; nothing else changes. |
| BlackHoles.HoleAfter | orbitalSim.cpp:489-507 | The collision loop changes only the hole's mass, radius and event horizon: position, velocity, acceleration, activity and growth rate are kept. |
| BlackHoles.Collide | orbitalSim.cpp:491-506 | One iteration: a live body within `max(radius, 0.05·Vector3Length(position))` of the hole is killed, and the hole gains its mass and one growth step, with the event horizon recomputed from the new mass. Any other body leaves both unchanged. |
| BlackHoles.HandleBlackHoleCollision | orbitalSim.cpp:489-507 | The loop produces exactly the hole and bodies of the sequential specification `HoleAfter` and `BodiesAfter`. |
| BlackHoles.CollisionOnlyKills | orbitalSim.cpp:501-503 | Each body is either untouched, or was alive and is now dead with every other field kept. No body is revived. |
| BlackHoles.HoleMassAfter | orbitalSim.cpp:501-503 | Helper: after any prefix of the loop, the hole's mass plus the live bodies' mass equals the total before the loop. |
| BlackHoles.CollisionConservesMass | orbitalSim.cpp:489-507 | Over the whole loop, the hole gains exactly the mass the live bodies lose. |
| BlackHoles.GrowthIsLinear | orbitalSim.cpp:504 | Helper: n growth steps of g add n·g to the radius. |
| BlackHoles.HoleRadiusAfter | orbitalSim.cpp:504 | Helper: after any prefix of the loop, the radius has grown by exactly `growthRate` per absorbed body. |
| BlackHoles.LiveCountAfter | orbitalSim.cpp:501-502 | Helper: the live bodies after a prefix of the loop plus the absorbed bodies equal the live bodies before it. |
| BlackHoles.CollisionGrowsRadius | orbitalSim.cpp:489-507 | The final radius is the initial radius plus `growthRate` for each body the pass killed. |
| BlackHoles.CollisionRadiusClosedForm | orbitalSim.cpp:489-507 | In closed form: the final radius is the initial radius plus n·growthRate, for n absorbed bodies. |
| BlackHoles.AbsorbedCountGrows | orbitalSim.cpp:490-506 | Helper: the number of absorbed bodies never decreases along the loop. |
| BlackHoles.AbsorptionLowersLiveCount | orbitalSim.cpp:501-502 | If the loop swallows any body, the pass ends with strictly fewer live bodies. |
| BlackHoles.CollisionNeverShrinks | orbitalSim.cpp:503-504 | With non-negative masses and growth rate, the hole's mass and radius never decrease along the loop. |
| BlackHoles.CentreIsAbsorbed | orbitalSim.cpp:494-501 | A hole of positive radius swallows a live body at its own centre. |
| BlackHoles.BodyAtTheHoleIsAbsorbed | orbitalSim.cpp:489-507 | A live body at the hole's position is dead after the pass, since the radius only grows before it is reached. |
| BlackHoles.EventHorizonShrinksOnFirstAbsorption | orbitalSim.cpp:33 | Creation uses the factor 1E6 and absorption the factor 1E3 (line 505), so a fresh hole that swallows any body below 9990 solar masses ends up with a smaller event horizon. The event horizon is not monotonic. |
| Gravity.Coefficient | orbitalSim.cpp:345-359 | The scalar factor of a pair is positive and never exceeds G/1E29, the regularisation floor. |
| Gravity.CoefficientIsInverseCube | orbitalSim.cpp:351-359 | The factor is G divided by the larger of r³ and 1E29. |
| Gravity.PairTerms | orbitalSim.cpp:343-363 | For a pair i<j the contribution to i is c·m_j·r and to j is −c·m_i·r, so m_i·Δa_i + m_j·Δa_j = 0 (Newton's third law). |
| Gravity.ThirdLaw | orbitalSim.cpp:353-356 | Mass-weighted contributions along a common separation cancel. |
| Gravity.PairContribution | orbitalSim.cpp:343-363 | The pair's loop body computes exactly the two terms of `PairTerms`, on both branches of the floor. |
| Gravity.PlanetPull | orbitalSim.cpp:437-450 | A planet pulls an asteroid if and only if their squared distance is below 1E15. |
| Gravity.PlanetPullIsFloored | orbitalSim.cpp:440-449 | Every applied planet pull is the regularised pull `Pull`, with its coefficient on the floor G/1E29. The unregularised branch would need r² above 1E29 and below 1E15 at once. |
| Gravity.Zeros | orbitalSim.cpp:331-334 | The zeroed buffer has n entries, all zero. |
| Gravity.ZeroAccelerations | orbitalSim.cpp:331-334 | Pass 1 leaves every entry at zero. |
| Gravity.SystemPairs | orbitalSim.cpp:336-366 | Pass 2 yields exactly `PairPass`: every live pair i<j of system bodies, once each, in loop order. |
| Gravity.SourcePull | orbitalSim.cpp:373-388 | The pull of one source on an asteroid is −c·m_source·r with the regularised factor. |
| Gravity.PrimaryPullOn | orbitalSim.cpp:373-426 | One live asteroid in pass 3 receives body 0's pull, then body 5's for Jupiter-1000x on the Solar preset with more than five bodies, then body 1's for Alpha Centauri. Sources 5 and 1 are not checked for being alive. |
| Gravity.StarToAsteroids | orbitalSim.cpp:368-428 | After pass 3 every asteroid entry is `PrimaryPull`, which is zero when body 0 or the asteroid is dead. System entries are untouched. |
| Gravity.PlanetPullOn | orbitalSim.cpp:435-450 | One iteration of pass 4 adds the planet's pull to a live asteroid within range, and otherwise keeps the entry. |
| Gravity.PlanetsToAsteroids | orbitalSim.cpp:430-452 | After pass 4 every asteroid entry is its previous value plus the pulls of the live planets 1..systemBodies−1 in range. System entries are untouched. |
| Gravity.Accelerations | orbitalSim.cpp:327-453 | The specification of the whole accumulator has one entry per body. |
| Gravity.ComputeGravitationalAccelerations | orbitalSim.cpp:327-453 | The buffer ends exactly as `Accelerations` describes, and the bodies are only read. |
| Gravity.PairRowOfDeadBody | orbitalSim.cpp:339 | Helper: a dead system body's row of pass 2 changes nothing. |
| Gravity.PairRowFrame | orbitalSim.cpp:341-342 | Helper: a row of pass 2 never touches the entry of a dead body, nor any entry from `systemBodies` on. |
| Gravity.PairPassFrame | orbitalSim.cpp:336-366 | Helper: pass 2 never touches the entry of a dead body, nor any asteroid entry. |
| Gravity.PlanetPullsOfDeadAsteroid | orbitalSim.cpp:435 | Helper: pass 4 adds nothing to a dead asteroid. |
| Gravity.DeadBodiesFeelNothing | orbitalSim.cpp:331-453 | A dead body's entry is zero at the end of the accumulator. |
| Gravity.PairRowIgnoresDeadBody | orbitalSim.cpp:339-365 | Helper: a row of pass 2 gives the same result for two body arrays that differ only in a body dead in both. |
| Gravity.PairPassIgnoresDeadBody | orbitalSim.cpp:336-366 | Helper: so does the whole of pass 2. |
| Gravity.PlanetPullsIgnoreDeadBody | orbitalSim.cpp:430-452 | Helper: so does pass 4 for any other asteroid. |
| Gravity.DeadBodyPullsNothing | orbitalSim.cpp:327-453 | A dead body changes no other body's acceleration, except when it is body 1 under Alpha Centauri or body 5 under Jupiter-1000x on the Solar preset. |
| Gravity.DeadSecondaryStillPulls | orbitalSim.cpp:391-426 | The exception is real: a dead body 1 (Alpha Centauri) or body 5 (Jupiter-1000x) with non-zero mass still changes the pull on every live asteroid away from it, while body 0 is alive. |
| Gravity.MomentumOfUpdate | orbitalSim.cpp:354-356 | Helper: adding d to one entry changes the mass-weighted sum by m·d. |
| Gravity.PairUpdateKeepsMomentum | orbitalSim.cpp:342-364 | Helper: one pair update keeps the mass-weighted sum of the system bodies' accelerations. |
| Gravity.PairRowKeepsMomentum | orbitalSim.cpp:341-365 | Helper: a whole row of pass 2 keeps that sum. |
| Gravity.PairPassKeepsMomentum | orbitalSim.cpp:336-366 | Helper: all of pass 2 keeps that sum. |
| Gravity.MomentumOfZeros | orbitalSim.cpp:331-334 | Helper: the zeroed buffer has zero weighted sum. |
| Gravity.MomentumOfAgreeing | orbitalSim.cpp:368-452 | Helper: two acceleration sequences that agree on the first `systemBodies` entries have the same mass-weighted sum over those entries. |
| Gravity.SystemMomentumVanishes | orbitalSim.cpp:327-453 | Over the whole accumulator, Σ m_i·a_i over the system bodies is zero (the third law for the system). |
| Gravity.PairRowReadsOnlySystemBodies | orbitalSim.cpp:341-365 | Helper: a row of pass 2 reads only the system bodies. |
| Gravity.PairPassReadsOnlySystemBodies | orbitalSim.cpp:336-366 | Helper: pass 2 reads only the system bodies. |
| Gravity.PlanetPullsReadOnlyPlanets | orbitalSim.cpp:430-452 | Helper: pass 4 for an asteroid reads only the planets and that asteroid. |
| Gravity.AsteroidsPullNothing | orbitalSim.cpp:327-453 | No asteroid contributes to any other entry: two body arrays that agree on the system bodies give every system body the same acceleration, and every asteroid they agree on the same acceleration, however the other asteroids differ. |
| Seeding.RandomFloat | orbitalSim.cpp:285-287 | A draw lies in [min, max] whenever min ≤ max. |
| Seeding.DispersionRange | orbitalSim.cpp:234-242 | Every tier's outer radius exceeds the 2E11 inner radius. |
| Seeding.DispersionTiersWiden | orbitalSim.cpp:236-239 | Tight < Normal < Wide < Extreme, strictly. |
| Seeding.OrbitRadius | orbitalSim.cpp:293-296 | The drawn orbital radius lies in [2E11, getDispersionRange(d)]. |
| Seeding.ConfigureAsteroid | orbitalSim.cpp:292-319 | Every asteroid has mass 1E12, radius 2E3, colour GRAY, is alive, lies in the y = 0 plane, and has vertical speed within ±25. |
| Seeding.AsteroidOrbitsWithinTier | orbitalSim.cpp:293-315 | The asteroid lies at distance r from the origin, with 2E11 ≤ r ≤ getDispersionRange(d). |
| Seeding.OnCircle | orbitalSim.cpp:315 | Helper: (r·cos φ, 0, r·sin φ) has squared length r². |
| Seeding.AsteroidStartsTangential | orbitalSim.cpp:315-316 | The horizontal velocity is perpendicular to the position, so the orbit starts tangentially. |
| Seeding.Perpendicular | orbitalSim.cpp:315-316 | Helper: (r·c, r·s) · (−v·s, v·c) = 0. |
| Seeding.PhiAsteroidsStartOnTheXAxis | orbitalSim.cpp:308-316 | Under the Phi easter egg every asteroid starts at (r, 0, 0) with no x velocity. |
| Seeding.Activated | orbitalSim.cpp:187-194 | A copied table entry is alive and otherwise equal to the entry. |
| Seeding.InitialBodies | orbitalSim.cpp:52-76 | A populated array has `systemBodies + asteroidCount` bodies, with `systemBodies` taken from the preset's table. |
| Seeding.InitialBodiesLayout | orbitalSim.cpp:65-76 | Every body is alive. The first bodies are the preset's table entries. The rest are asteroids with the asteroid constants, seeded around body 0's mass. |
| Seeding.ResetScalesOnlyJupiter | orbitalSim.cpp:127-132 | A reset's array differs from a construction's only in body 5's mass, which is multiplied by 1000. This happens exactly for Jupiter-1000x on the Solar preset with more than five bodies. |
| Simulation.Integrate | orbitalSim.cpp:169-176 | The integration loop keeps the number of bodies. |
| Simulation.IntegrateBodies | orbitalSim.cpp:169-176 | The loop yields exactly `Integrate`: each live body takes a semi-implicit Euler step, and dead bodies are skipped. |
| Simulation.IntegrateKeepsLiveMass | orbitalSim.cpp:169-176 | Integration changes neither the live mass nor the live count. |
| Simulation.TickAccelerations | orbitalSim.cpp:155-159 | The accelerations a tick applies have one entry per body. |
| Simulation.Tick | orbitalSim.cpp:147-179 | A tick keeps the number of bodies. |
| Simulation.BeforeIntegration | orbitalSim.cpp:157-167 | The bodies the integration loop sees have the same length as before. |
| Simulation.BlackHolePhase | orbitalSim.cpp:157-166 | The hole's acceleration is reset to zero, then accumulated from the live bodies. Its velocity and then its position are advanced. The collision pass then runs against the moved hole. The bodies' accelerations gain the hole's pull. |
| Simulation.TickIntegratesOnlyTheLiving | orbitalSim.cpp:147-179 | A body dead at the integration loop keeps its position and velocity. A live body gets v' = v + a·dt and then p' = p + v'·dt, with the updated velocity. Mass, radius and colour are kept. |
| Simulation.TickNeverRevives | orbitalSim.cpp:147-179 | A tick never revives a body, and leaves a body that was already dead exactly as it was. |
| Simulation.InactiveHoleIsUntouched | orbitalSim.cpp:155-176 | With no active hole, the hole is unchanged and the bodies feel gravity alone. |
| Simulation.ActiveHoleTakesAnEulerStep | orbitalSim.cpp:157-165 | An active hole ends the tick still active, with its acceleration recomputed from zero, then v' = v + a·dt and p' = p + v'·dt. |
| Simulation.TickConservesMass | orbitalSim.cpp:147-179 | Over a tick, the hole's mass plus the live bodies' mass is conserved. |
| Simulation.TickNeverShrinksTheHole | orbitalSim.cpp:157-167 | With non-negative masses and growth rate, a tick never shrinks the hole's mass or radius. |
| Simulation.TickAbsorptionLowersLiveCount | orbitalSim.cpp:147-179 | A tick in which the hole swallows a body ends with strictly fewer live bodies. |
| Simulation.AllAliveCount | orbitalSim.cpp:187-193 | Helper: in an array of live bodies the live count is the length. |
| Simulation.InitialCountIsExact | orbitalSim.cpp:63 | Right after construction `aliveBodies == numBodies` is the true live count. |
| Simulation.ScaleJupiterIn | orbitalSim.cpp:127-132 | The in-place scaling yields exactly `ScaleJupiter` of the old array. |
| Simulation.SeedAsteroids | orbitalSim.cpp:219-226 | Indices systemBodies..systemBodies+count−1 within the array receive their asteroid. Every other index is untouched. |
| Simulation.OrbitalSim.constructor | orbitalSim.cpp:43-79 | A new simulation: no hole, `aliveBodies == numBodies == systemBodies + asteroidCount`, and the bodies are `InitialBodies`. |
| Simulation.OrbitalSim.Construct | orbitalSim.cpp:43-79 | Null exactly when one of the two allocations fails; otherwise as the constructor. |
| Simulation.OrbitalSim.Populate | orbitalSim.cpp:65-76 | The preset's initialiser, then the asteroids, yield exactly `InitialBodies`. |
| Simulation.OrbitalSim.PopulatedMatches | orbitalSim.cpp:65-76 | Helper: table entries followed by seeded asteroids form `InitialBodies`. |
| Simulation.OrbitalSim.InitializeSolarSystem | orbitalSim.cpp:186-195 | Copies the Solar table into the first bodies, marked alive, stopping at `numBodies`. Later bodies are untouched. |
| Simulation.OrbitalSim.InitializeAlphaCentauriSystem | orbitalSim.cpp:200-211 | Copies the whole Alpha Centauri table, marked alive, without a bound check, so the array must hold the table. Later bodies are untouched. |
| Simulation.OrbitalSim.InitializeAsteroids | orbitalSim.cpp:216-227 | Indices systemBodies..systemBodies+count−1 within the array receive the asteroids, seeded around body 0's mass (one solar mass with no system bodies), with the Phi flag from the configuration. Other bodies are untouched. |
| Simulation.OrbitalSim.Reset | orbitalSim.cpp:84-133 | Keeps the time step, deactivates the hole, adopts the new configuration and its counts. A failed allocation leaves `numBodies == 0` and `aliveBodies` stale. Otherwise `aliveBodies == numBodies` and the bodies are `ResetBodies`. |
| Simulation.OrbitalSim.Repopulate | orbitalSim.cpp:112-132 | After a successful allocation, repopulates, then applies the Jupiter-1000x scaling. |
| Simulation.OrbitalSim.Update | orbitalSim.cpp:147-179 | If the buffer allocation fails, nothing changes. Otherwise the hole and bodies become exactly `Tick` of the old state. `aliveBodies` and every count are left unchanged, even when bodies are absorbed. |

## Left out

- Window, camera, drawing and the program's main loop (`view.cpp`, `view.h`, `main.cpp`) are not part of this model.
- `getDispersionName`, `getSystemName` and `getEasterEggName` are display strings and are not modelled.
- `destroyOrbitalSim`, and `malloc`/`free` ownership, are not modelled. Each allocation failure is a boolean input.
- A null simulation passed to reset is not modelled: the model's simulation is always an object.
- Floating point is not modelled: `float` and `double` are `real`, without rounding, NaN, infinities or the float/double narrowing.
- `sqrt`, `sqrtf`, `sinf`, `cosf` and raymath's `Vector3Length` stay abstract functions. Each lemma assumes only the facts about them it needs (`SqrtSound`, `TrigSound`, `LengthSound`).
- `rand()` is a stream of draws in [0, 1], one stream per construction or reset, read in the source's call order. Its generator is not modelled.
- The ephemerides tables are not part of this model. They are a parameter, required to hold at least six Solar and two Alpha Centauri entries.
- Enumeration values outside the declared ones cannot occur in the model, so `getDispersionRange`'s `default` branch (12E11) is not modelled.
- Negative asteroid counts are excluded by a precondition.
- C `int` overflow is not modelled: `systemBodies + asteroidCount` (orbitalSim.cpp:53, 102) and the allocation size `sizeof(OrbitalBody) * numBodies` (orbitalSim.cpp:56, 106) are unbounded integers, so a huge asteroid count cannot wrap around.
- A reset whose allocation fails leaves an empty array instead of a null pointer.
- Ticking after a failed reset is excluded: Update requires a populated simulation. The source would then read system bodies from a null array.
- `centerRadius` is never assigned by the source. The constructor sets it to 0, and nothing else writes it.
- The hole's fields other than `isActive` are uninitialised after construction. The constructor gives them the values of an inactive, massless hole at the origin.
- The source's behaviour is followed where it departs from its comments. None of the following is corrected:
  - the event horizon's factor is 1E6 at creation and 1E3 after absorption;
  - `aliveBodies` is never decremented;
  - below the floor, the hole's reaction is scaled by 0.01;
  - the secondary pulls of body 5 and body 1 do not check whether that body is alive.
- The configureAsteroid easter-egg argument is an `int` used as a flag (declared `index` in the forward declaration). It is modelled as a boolean.
