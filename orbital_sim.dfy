/**
 * The simulation object and its lifecycle: construction, reset, black-hole
 * creation and the tick (`updateOrbitalSim`). The tick is specified by the
 * function `Tick`, built from the specification functions of the force,
 * black-hole and collision passes.
 */
module Simulation {
  import opened Raymath
  import opened OrbitalTypes
  import opened Gravity
  import opened BlackHoles
  import opened Seeding

  // ---------------------------------------------------------------------
  // The tick, as a function of the state before it
  // ---------------------------------------------------------------------

  /** One semi-implicit Euler step: velocity first, then position with the new velocity. */
  function EulerBody(b: OrbitalBody, a: Vector3, dt: real): OrbitalBody {
    var v := Add(b.velocity, Scale(a, dt));
    b.(velocity := v, position := Add(b.position, Scale(v, dt)))
  }

  /** The integration loop: every live body takes one Euler step, dead bodies are skipped. */
  function Integrate(bodies: seq<OrbitalBody>, acc: seq<Vector3>, dt: real): (r: seq<OrbitalBody>)
    requires |acc| == |bodies|
    ensures |r| == |bodies|
  {
    seq(|bodies|, i requires 0 <= i < |bodies| =>
      if bodies[i].isAlive then EulerBody(bodies[i], acc[i], dt) else bodies[i])
  }

  /**
   * The hole phase before collisions: acceleration reset to zero, the pull
   * of every live body accumulated, then the same Euler step as a body.
   */
  function HoleMoved(hole: BlackHole, bodies: seq<OrbitalBody>, dt: real, m: Libm): BlackHole {
    var h0 := hole.(acceleration := Zero);
    var h1 := h0.(acceleration := HoleAcceleration(h0, bodies, |bodies|, m));
    var v := Add(h1.velocity, Scale(h1.acceleration, dt));
    h1.(velocity := v, position := Add(h1.position, Scale(v, dt)))
  }

  /** The accelerations the integration loop applies: gravity, plus the hole's pull when it is active. */
  function TickAccelerations(config: SimConfig, sb: nat, hole: BlackHole, bodies: seq<OrbitalBody>, m: Libm): (acc: seq<Vector3>)
    requires ForceShape(config, |bodies|, sb)
    ensures |acc| == |bodies|
  {
    var acc := Accelerations(config, bodies, sb, m);
    if hole.isActive then WithHolePull(acc, hole.(acceleration := Zero), bodies, m) else acc
  }

  /**
   * updateOrbitalSim: forces, then (with an active hole) the hole's own
   * step and the collision pass against the moved hole, then integration
   * of the bodies still alive.
   */
  function Tick(config: SimConfig, sb: nat, dt: real, hole: BlackHole, bodies: seq<OrbitalBody>, m: Libm)
      : (r: (BlackHole, seq<OrbitalBody>))
    requires ForceShape(config, |bodies|, sb)
    ensures |r.1| == |bodies|
  {
    var acc := TickAccelerations(config, sb, hole, bodies, m);
    if hole.isActive then
      var moved := HoleMoved(hole, bodies, dt, m);
      (HoleAfter(moved, bodies, |bodies|, m), Integrate(BodiesAfter(moved, bodies, m), acc, dt))
    else
      (hole, Integrate(bodies, acc, dt))
  }

  /** The bodies as the integration loop finds them: after collisions when the hole is active. */
  function BeforeIntegration(dt: real, hole: BlackHole, bodies: seq<OrbitalBody>, m: Libm): (r: seq<OrbitalBody>)
    ensures |r| == |bodies|
  {
    if hole.isActive then BodiesAfter(HoleMoved(hole, bodies, dt, m), bodies, m) else bodies
  }

  /**
   * Every body dead at the integration loop keeps its position and velocity;
   * every live one takes v' = v + a·dt and then p' = p + v'·dt with the
   * updated velocity. Collisions never move a body, so p and v are those
   * before the tick.
   */
  lemma TickIntegratesOnlyTheLiving(config: SimConfig, sb: nat, dt: real, hole: BlackHole,
      bodies: seq<OrbitalBody>, k: nat, m: Libm)
    requires ForceShape(config, |bodies|, sb) && k < |bodies|
    ensures var after := Tick(config, sb, dt, hole, bodies, m).1[k];
            var a := TickAccelerations(config, sb, hole, bodies, m)[k];
            && after.isAlive == BeforeIntegration(dt, hole, bodies, m)[k].isAlive
            && (!after.isAlive ==> after.position == bodies[k].position && after.velocity == bodies[k].velocity)
            && (after.isAlive ==>
                  && after.velocity == Add(bodies[k].velocity, Scale(a, dt))
                  && after.position == Add(bodies[k].position, Scale(after.velocity, dt)))
            && after.mass == bodies[k].mass && after.radius == bodies[k].radius && after.color == bodies[k].color
  {
    if hole.isActive {
      CollisionOnlyKills(HoleMoved(hole, bodies, dt, m), bodies, m);
    }
  }

  /** A tick never revives a body, and a body dead before the tick is left exactly as it was. */
  lemma TickNeverRevives(config: SimConfig, sb: nat, dt: real, hole: BlackHole,
      bodies: seq<OrbitalBody>, k: nat, m: Libm)
    requires ForceShape(config, |bodies|, sb) && k < |bodies|
    ensures Tick(config, sb, dt, hole, bodies, m).1[k].isAlive ==> bodies[k].isAlive
    ensures !bodies[k].isAlive ==> Tick(config, sb, dt, hole, bodies, m).1[k] == bodies[k]
  {
    if hole.isActive {
      CollisionOnlyKills(HoleMoved(hole, bodies, dt, m), bodies, m);
    }
  }

  /** An inactive hole is untouched by a tick, and the bodies feel gravity alone. */
  lemma InactiveHoleIsUntouched(config: SimConfig, sb: nat, dt: real, hole: BlackHole,
      bodies: seq<OrbitalBody>, m: Libm)
    requires ForceShape(config, |bodies|, sb) && !hole.isActive
    ensures Tick(config, sb, dt, hole, bodies, m).0 == hole
    ensures Tick(config, sb, dt, hole, bodies, m).1
         == Integrate(bodies, Accelerations(config, bodies, sb, m), dt)
  {
  }

  /**
   * An active hole ends the tick with its acceleration recomputed from zero,
   * its velocity and position advanced by the semi-implicit Euler rule, and
   * still active with the same growth rate.
   */
  lemma ActiveHoleTakesAnEulerStep(config: SimConfig, sb: nat, dt: real, hole: BlackHole,
      bodies: seq<OrbitalBody>, m: Libm)
    requires ForceShape(config, |bodies|, sb) && hole.isActive
    ensures var h := Tick(config, sb, dt, hole, bodies, m).0;
            var a := HoleAcceleration(hole.(acceleration := Zero), bodies, |bodies|, m);
            && h.isActive && h.growthRate == hole.growthRate
            && h.acceleration == a
            && h.velocity == Add(hole.velocity, Scale(a, dt))
            && h.position == Add(hole.position, Scale(h.velocity, dt))
  {
  }

  lemma {:induction false} IntegrateKeepsLiveMass(bodies: seq<OrbitalBody>, acc: seq<Vector3>, dt: real, k: nat)
    requires |acc| == |bodies| && k <= |bodies|
    ensures LiveMass(Integrate(bodies, acc, dt), k) == LiveMass(bodies, k)
    ensures LiveCount(Integrate(bodies, acc, dt), k) == LiveCount(bodies, k)
  {
    if k > 0 {
      IntegrateKeepsLiveMass(bodies, acc, dt, k - 1);
    }
  }

  /**
   * Mass is conserved over a tick: the hole's mass plus the mass of the live
   * bodies is the same before and after.
   */
  lemma TickConservesMass(config: SimConfig, sb: nat, dt: real, hole: BlackHole,
      bodies: seq<OrbitalBody>, m: Libm)
    requires ForceShape(config, |bodies|, sb)
    ensures var r := Tick(config, sb, dt, hole, bodies, m);
            r.0.mass + LiveMass(r.1, |bodies|) == hole.mass + LiveMass(bodies, |bodies|)
  {
    var acc := TickAccelerations(config, sb, hole, bodies, m);
    if hole.isActive {
      var moved := HoleMoved(hole, bodies, dt, m);
      IntegrateKeepsLiveMass(BodiesAfter(moved, bodies, m), acc, dt, |bodies|);
      CollisionConservesMass(moved, bodies, m);
    } else {
      IntegrateKeepsLiveMass(bodies, acc, dt, |bodies|);
    }
  }

  /**
   * With a non-negative growth rate and non-negative live masses, a tick
   * never shrinks the hole's mass or radius.
   */
  lemma TickNeverShrinksTheHole(config: SimConfig, sb: nat, dt: real, hole: BlackHole,
      bodies: seq<OrbitalBody>, m: Libm)
    requires ForceShape(config, |bodies|, sb) && 0.0 <= hole.growthRate
    requires forall t :: 0 <= t < |bodies| && bodies[t].isAlive ==> 0.0 <= bodies[t].mass
    ensures hole.mass <= Tick(config, sb, dt, hole, bodies, m).0.mass
    ensures hole.radius <= Tick(config, sb, dt, hole, bodies, m).0.radius
  {
    if hole.isActive {
      CollisionNeverShrinks(HoleMoved(hole, bodies, dt, m), bodies, |bodies|, m);
    }
  }

  /**
   * A tick in which the hole swallows a body leaves strictly fewer live
   * bodies, while `aliveBodies` (which `Update` leaves alone) stays put.
   */
  lemma TickAbsorptionLowersLiveCount(config: SimConfig, sb: nat, dt: real, hole: BlackHole,
      bodies: seq<OrbitalBody>, k: nat, m: Libm)
    requires ForceShape(config, |bodies|, sb) && k < |bodies| && hole.isActive
    requires var moved := HoleMoved(hole, bodies, dt, m);
             Absorbs(HoleAfter(moved, bodies, k, m), bodies[k], m)
    ensures LiveCount(Tick(config, sb, dt, hole, bodies, m).1, |bodies|) < LiveCount(bodies, |bodies|)
  {
    var moved := HoleMoved(hole, bodies, dt, m);
    AbsorptionLowersLiveCount(moved, bodies, k, m);
    IntegrateKeepsLiveMass(BodiesAfter(moved, bodies, m), TickAccelerations(config, sb, hole, bodies, m), dt, |bodies|);
  }

  lemma {:induction false} AllAliveCount(s: seq<OrbitalBody>, k: nat)
    requires k <= |s| && forall i :: 0 <= i < |s| ==> s[i].isAlive
    ensures LiveCount(s, k) == k
  {
    if k > 0 {
      AllAliveCount(s, k - 1);
    }
  }

  /** Right after construction the counter `aliveBodies` is exact: every body is alive. */
  lemma InitialCountIsExact(config: SimConfig, tables: Ephemerides, rand: RandStream, m: Libm)
    requires config.asteroidCount >= 0
    ensures var s := InitialBodies(config, tables, rand, m);
            LiveCount(s, |s|) == |s|
  {
    var s := InitialBodies(config, tables, rand, m);
    InitialBodiesLayout(config, tables, rand, m);
    AllAliveCount(s, |s|);
  }

  /** The integration loop of `updateOrbitalSim`. */
  method IntegrateBodies(bodies: array<OrbitalBody>, accelerations: array<Vector3>, n: int, dt: real)
    requires bodies.Length == n && accelerations.Length == n
    modifies bodies
    ensures bodies[..] == Integrate(old(bodies[..]), accelerations[..], dt)
  {
    ghost var start := bodies[..];
    var i := 0;
    while i < n
      invariant 0 <= i <= n
      invariant forall k :: 0 <= k < i ==> bodies[k] == Integrate(start, accelerations[..], dt)[k]
      invariant forall k :: i <= k < n ==> bodies[k] == start[k]
    {
      if bodies[i].isAlive {
        bodies[i] := bodies[i].(velocity := Add(bodies[i].velocity, Scale(accelerations[i], dt)));
        bodies[i] := bodies[i].(position := Add(bodies[i].position, Scale(bodies[i].velocity, dt)));
      }
      i := i + 1;
    }
  }

  /**
   * The black-hole block of updateOrbitalSim: the hole's acceleration is
   * reset and accumulated (adding the reactions to the bodies'
   * accelerations), the hole takes its Euler step, and the collision pass
   * runs against the moved hole.
   */
  method BlackHolePhase(hole: BlackHole, bodies: array<OrbitalBody>, accelerations: array<Vector3>,
      n: int, dt: real, m: Libm) returns (h: BlackHole)
    requires bodies.Length == n && accelerations.Length == n
    modifies bodies, accelerations
    ensures h == HoleAfter(HoleMoved(hole, old(bodies[..]), dt, m), old(bodies[..]), n, m)
    ensures bodies[..] == BodiesAfter(HoleMoved(hole, old(bodies[..]), dt, m), old(bodies[..]), m)
    ensures accelerations[..] == WithHolePull(old(accelerations[..]), hole.(acceleration := Zero), old(bodies[..]), m)
  {
    ghost var start := bodies[..];
    h := hole.(acceleration := Zero);
    h := ComputeBlackHoleAcceleration(h, bodies, accelerations, n, m);
    var accBH := h.acceleration;
    h := h.(velocity := Add(h.velocity, Scale(accBH, dt)));
    h := h.(position := Add(h.position, Scale(h.velocity, dt)));
    assert h == HoleMoved(hole, start, dt, m);
    ghost var pulled := accelerations[..];
    h := HandleBlackHoleCollision(h, bodies, n, m);
    assert accelerations[..] == pulled;
  }

  /** The Jupiter-1000x block of resetOrbitalSim, on the freshly populated array. */
  method ScaleJupiterIn(bodies: array<OrbitalBody>, config: SimConfig)
    modifies bodies
    ensures bodies[..] == ScaleJupiter(config, old(bodies[..]))
  {
    if config.easterEgg == Jupiter1000x {
      if config.systemType == Solar && bodies.Length > 5 {
        bodies[5] := bodies[5].(mass := bodies[5].mass * 1000.0);
      }
    }
  }

  /**
   * The loop of initializeAsteroids: bodies `sb` .. `sb + count - 1` that
   * fit in the array become `seed(0)`, `seed(1)`, ... (the configureAsteroid
   * call for each asteroid index); every other body keeps its value.
   */
  method SeedAsteroids(bodies: array<OrbitalBody>, sb: int, count: int, seed: nat -> OrbitalBody)
    requires 0 <= sb
    modifies bodies
    ensures forall i :: sb <= i < bodies.Length && i < sb + count ==> bodies[i] == seed(i - sb)
    ensures forall i :: 0 <= i < bodies.Length && !(sb <= i < sb + count) ==> bodies[i] == old(bodies[i])
  {
    var i := sb;
    while i < sb + count && i < bodies.Length
      invariant sb <= i
      invariant i <= bodies.Length || i == sb
      invariant i <= sb + count || i == sb
      invariant forall k :: sb <= k < i ==> bodies[k] == seed(k - sb)
      invariant forall k :: 0 <= k < bodies.Length && !(sb <= k < i) ==> bodies[k] == old(bodies[k])
    {
      bodies[i] := seed(i - sb);
      i := i + 1;
    }
  }

  /** A black hole that has never been created; only `isActive` is meaningful. */
  const Dormant: BlackHole := BlackHole(Zero, Zero, Zero, 0.0, 0.0, 0.0, false, 0.0)

  // ---------------------------------------------------------------------
  // The simulation object
  // ---------------------------------------------------------------------

  class OrbitalSim {
    var timeStep: real
    var bodies: array<OrbitalBody>
    var numBodies: int
    var systemBodies: int
    var asteroidCount: int
    var centerRadius: real
    var blackHole: BlackHole
    var aliveBodies: int
    var config: SimConfig
    /** The ephemerides tables, fixed for the life of the program. */
    const tables: Ephemerides

    /**
     * The bookkeeping construction and reset establish: `systemBodies`
     * follows the preset, `bodies` has `numBodies` entries, and that is
     * `systemBodies + asteroidCount` unless the last reset could not
     * allocate, in which case it is zero.
     */
    ghost predicate Valid()
      reads this
    {
      && Counts()
      && bodies.Length == numBodies
      && (numBodies == systemBodies + asteroidCount || numBodies == 0)
    }

    /** The body counts agree with the configuration and the tables. */
    ghost predicate Counts()
      reads this
    {
      && WellFormedTables(tables)
      && systemBodies == |PresetTable(tables, config.systemType)|
      && 0 <= asteroidCount == config.asteroidCount
    }

    /** The bodies array is the populated one (not the empty one a failed reset leaves). */
    ghost predicate Populated()
      reads this
    {
      numBodies == systemBodies + asteroidCount
    }

    /**
     * constructOrbitalSim, once both allocations succeed: the preset's
     * bodies and the asteroids, all alive, with no black hole.
     */
    constructor (timeStep: real, config: SimConfig, tables: Ephemerides, rand: RandStream, m: Libm)
      requires WellFormedTables(tables) && config.asteroidCount >= 0
      ensures Valid() && Populated()
      ensures this.timeStep == timeStep && this.config == config && this.tables == tables
      ensures numBodies == |PresetTable(tables, config.systemType)| + config.asteroidCount
      ensures aliveBodies == numBodies && !blackHole.isActive
      ensures fresh(bodies) && bodies[..] == InitialBodies(config, tables, rand, m)
    {
      this.timeStep := timeStep;
      this.config := config;
      this.tables := tables;
      asteroidCount := config.asteroidCount;
      var presetBodies := if config.systemType == Solar then |tables.solar| else |tables.alphaCentauri|;
      systemBodies := presetBodies;
      numBodies := presetBodies + config.asteroidCount;
      bodies := new OrbitalBody[presetBodies + config.asteroidCount];
      blackHole := Dormant;
      aliveBodies := presetBodies + config.asteroidCount;
      centerRadius := 0.0;
      new;
      Populate(rand, m);
    }

    /**
     * constructOrbitalSim with the two allocations modelled as inputs: no
     * simulation when either fails.
     */
    static method Construct(timeStep: real, config: SimConfig, tables: Ephemerides, rand: RandStream, m: Libm,
        simAllocFails: bool, bodiesAllocFails: bool) returns (sim: OrbitalSim?)
      requires WellFormedTables(tables) && config.asteroidCount >= 0
      ensures sim == null <==> simAllocFails || bodiesAllocFails
      ensures sim != null ==> fresh(sim) && fresh(sim.bodies) && sim.Valid() && sim.Populated()
      ensures sim != null ==> sim.timeStep == timeStep && sim.config == config && sim.tables == tables
      ensures sim != null ==> sim.aliveBodies == sim.numBodies && !sim.blackHole.isActive
      ensures sim != null ==> sim.bodies[..] == InitialBodies(config, tables, rand, m)
    {
      if simAllocFails || bodiesAllocFails {
        return null;
      }
      sim := new OrbitalSim(timeStep, config, tables, rand, m);
    }

    /** The shared tail of construction and reset: system bodies, then asteroids. */
    method Populate(rand: RandStream, m: Libm)
      requires Valid() && Populated()
      modifies bodies
      ensures bodies[..] == InitialBodies(config, tables, rand, m)
    {
      if config.systemType == Solar {
        InitializeSolarSystem();
      } else {
        InitializeAlphaCentauriSystem();
      }
      ghost var system := bodies[..];
      if asteroidCount > 0 {
        InitializeAsteroids(asteroidCount, config.dispersion, rand, m);
      }
      PopulatedMatches(system, rand, m);
    }

    lemma PopulatedMatches(system: seq<OrbitalBody>, rand: RandStream, m: Libm)
      requires Valid() && Populated() && |system| == bodies.Length
      requires forall i :: 0 <= i < systemBodies ==>
                 system[i] == Activated(PresetTable(tables, config.systemType)[i])
      requires forall i :: systemBodies <= i < bodies.Length ==>
                 bodies[i] == Seeder(CenterMass(systemBodies, system), config.dispersion,
                                     config.easterEgg == Phi, rand, m)(i - systemBodies)
      requires forall i :: 0 <= i < systemBodies ==> bodies[i] == system[i]
      ensures bodies[..] == InitialBodies(config, tables, rand, m)
    {
      var s := InitialBodies(config, tables, rand, m);
      assert CenterMass(systemBodies, system) == CenterMass(systemBodies, s);
    }

    /** initializeSolarSystem: copies the Solar table into the first bodies and marks them alive. */
    method InitializeSolarSystem()
      requires bodies.Length == numBodies
      modifies bodies
      ensures forall i :: 0 <= i < bodies.Length ==>
                bodies[i] == if i < |tables.solar| then Activated(tables.solar[i]) else old(bodies[i])
    {
      var i := 0;
      while i < |tables.solar| && i < numBodies
        invariant 0 <= i <= bodies.Length && i <= |tables.solar|
        invariant forall k :: 0 <= k < i ==> bodies[k] == Activated(tables.solar[k])
        invariant forall k :: i <= k < bodies.Length ==> bodies[k] == old(bodies[k])
      {
        var entry := tables.solar[i];
        bodies[i] := bodies[i].(mass := entry.mass, radius := entry.radius, position := entry.position,
                                velocity := entry.velocity, color := entry.color, isAlive := true);
        i := i + 1;
      }
    }

    /**
     * initializeAlphaCentauriSystem: the same copy from the Alpha Centauri
     * table; this loop does not check `numBodies`, so the array must hold
     * the whole table.
     */
    method InitializeAlphaCentauriSystem()
      requires |tables.alphaCentauri| <= bodies.Length
      modifies bodies
      ensures forall i :: 0 <= i < bodies.Length ==>
                bodies[i] == if i < |tables.alphaCentauri| then Activated(tables.alphaCentauri[i]) else old(bodies[i])
    {
      var i := 0;
      while i < |tables.alphaCentauri|
        invariant 0 <= i <= |tables.alphaCentauri|
        invariant forall k :: 0 <= k < i ==> bodies[k] == Activated(tables.alphaCentauri[k])
        invariant forall k :: i <= k < bodies.Length ==> bodies[k] == old(bodies[k])
      {
        var entry := tables.alphaCentauri[i];
        bodies[i] := bodies[i].(mass := entry.mass, radius := entry.radius, position := entry.position,
                                velocity := entry.velocity, color := entry.color, isAlive := true);
        i := i + 1;
      }
    }

    /**
     * initializeAsteroids: `count` asteroids from index `systemBodies` on,
     * orbiting body 0's mass (one solar mass when there are no system
     * bodies), asteroid k using draws 4k .. 4k+3.
     */
    method InitializeAsteroids(count: int, dispersion: DispersionType, rand: RandStream, m: Libm)
      requires bodies.Length == numBodies && 0 <= systemBodies
      requires systemBodies > 0 ==> numBodies > 0
      modifies bodies
      ensures forall i :: systemBodies <= i < bodies.Length && i < systemBodies + count ==>
                bodies[i] == Seeder(CenterMass(systemBodies, old(bodies[..])), dispersion,
                                    config.easterEgg == Phi, rand, m)(i - systemBodies)
      ensures forall i :: 0 <= i < bodies.Length && !(systemBodies <= i < systemBodies + count) ==>
                bodies[i] == old(bodies[i])
    {
      var centerMass := if systemBodies > 0 then bodies[0].mass else SolarMass;
      assert centerMass == CenterMass(systemBodies, bodies[..]);
      var phiEgg := config.easterEgg == Phi;
      SeedAsteroids(bodies, systemBodies, count, Seeder(centerMass, dispersion, phiEgg, rand, m));
    }

    /**
     * resetOrbitalSim: keeps the time step, deactivates the black hole,
     * adopts the new configuration and repopulates; when the new array
     * cannot be allocated the simulation is left with no bodies. A
     * successful reset then applies the Jupiter-1000x scaling.
     */
    method Reset(newConfig: SimConfig, rand: RandStream, m: Libm, allocFails: bool)
      requires Valid() && newConfig.asteroidCount >= 0
      modifies this
      ensures Valid() && fresh(bodies)
      ensures timeStep == old(timeStep) && centerRadius == old(centerRadius)
      ensures blackHole == old(blackHole).(isActive := false)
      ensures config == newConfig && asteroidCount == newConfig.asteroidCount
      ensures systemBodies == |PresetTable(tables, newConfig.systemType)|
      ensures allocFails ==> numBodies == 0 && aliveBodies == old(aliveBodies)
      ensures !allocFails ==> Populated() && aliveBodies == numBodies
      ensures !allocFails ==> bodies[..] == ResetBodies(newConfig, tables, rand, m)
    {
      var savedTimeStep := timeStep;
      blackHole := blackHole.(isActive := false);
      config := newConfig;
      asteroidCount := newConfig.asteroidCount;
      systemBodies := if newConfig.systemType == Solar then |tables.solar| else |tables.alphaCentauri|;
      numBodies := systemBodies + asteroidCount;
      timeStep := savedTimeStep;
      if allocFails {
        bodies := new OrbitalBody[0];
        numBodies := 0;
        return;
      }
      Repopulate(rand, m);
    }

    /**
     * The successful-allocation half of resetOrbitalSim: a fresh array,
     * all bodies counted alive, populated, then the Jupiter-1000x scaling.
     */
    method Repopulate(rand: RandStream, m: Libm)
      requires Counts() && Populated()
      modifies this
      ensures Valid() && Populated() && fresh(bodies)
      ensures timeStep == old(timeStep) && centerRadius == old(centerRadius) && blackHole == old(blackHole)
      ensures config == old(config) && asteroidCount == old(asteroidCount)
      ensures systemBodies == old(systemBodies) && numBodies == old(numBodies)
      ensures aliveBodies == numBodies
      ensures bodies[..] == ResetBodies(config, tables, rand, m)
    {
      bodies := new OrbitalBody[numBodies];
      aliveBodies := numBodies;
      Populate(rand, m);
      ScaleJupiterIn(bodies, config);
    }

    /**
     * createBlackHole: installs a fresh black hole at `position`, unless one
     * is already active, in which case nothing changes.
     */
    method CreateBlackHole(position: Vector3)
      modifies this`blackHole
      ensures old(blackHole.isActive) ==> blackHole == old(blackHole)
      ensures !old(blackHole.isActive) ==> blackHole == NewBlackHole(position)
      ensures old(Valid()) ==> Valid()
      ensures old(Populated()) ==> Populated()
    {
      if blackHole.isActive {
        return;
      }
      blackHole := blackHole.(position := position, velocity := Zero);
      blackHole := blackHole.(mass := 10.0 * SolarMass);
      blackHole := blackHole.(eventHorizonRadius := 2.95 * (blackHole.mass / SolarMass) * 1e6);
      blackHole := blackHole.(radius := 200.0 * blackHole.eventHorizonRadius);
      blackHole := blackHole.(isActive := true, growthRate := 1e3, acceleration := Zero);
    }

    /**
     * updateOrbitalSim: one tick, exactly as `Tick` describes it; nothing
     * happens when the scratch acceleration buffer cannot be allocated.
     * `aliveBodies` is not touched even when bodies are absorbed.
     */
    method Update(m: Libm, allocFails: bool)
      requires Valid() && Populated()
      modifies this, bodies
      ensures Valid() && Populated()
      ensures bodies == old(bodies) && numBodies == old(numBodies) && systemBodies == old(systemBodies)
      ensures timeStep == old(timeStep) && asteroidCount == old(asteroidCount) && config == old(config)
      ensures centerRadius == old(centerRadius) && aliveBodies == old(aliveBodies)
      ensures allocFails ==> blackHole == old(blackHole) && bodies[..] == old(bodies[..])
      ensures !allocFails ==>
                (blackHole, bodies[..]) == Tick(config, systemBodies, timeStep, old(blackHole), old(bodies[..]), m)
    {
      if allocFails {
        return;
      }
      var n := numBodies;
      var dt := timeStep;
      ghost var start := bodies[..];
      ghost var hole := blackHole;
      var accelerations := new Vector3[n];
      ComputeGravitationalAccelerations(config, systemBodies, bodies, accelerations, n, m);
      if blackHole.isActive {
        blackHole := BlackHolePhase(blackHole, bodies, accelerations, n, dt, m);
      }
      assert accelerations[..] == TickAccelerations(config, systemBodies, hole, start, m);
      IntegrateBodies(bodies, accelerations, n, dt);
    }
  }
}
