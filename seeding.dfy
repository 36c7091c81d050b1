/**
 * How a simulation is populated: the system bodies copied from the
 * ephemerides tables, the asteroids placed on randomised orbits around the
 * primary star, and the Jupiter-1000x mass scaling applied on reset.
 *
 * `rand()` is modelled as a stream of unit fractions: the k-th call of
 * `rand() / RAND_MAX` in a construction or reset yields `rand(k)`.
 */
module Seeding {
  import opened Raymath
  import opened OrbitalTypes

  /** A value of `rand() / RAND_MAX`. */
  type Unit = u: real | 0.0 <= u <= 1.0

  /** The `rand()` calls of one construction or reset, in order. */
  type RandStream = nat -> Unit

  /** The asteroid constants of `configureAsteroid`. */
  const MinAsteroidDistance: real := 2e11
  const AsteroidMass: real := 1e12
  const AsteroidRadius: real := 2e3
  const MaxVerticalSpeed: real := 25.0

  /** `M_PI` */
  const Pi: real := 3.141592653589793

  /** getRandomFloat: a value between `min` and `max` for the draw `u`. */
  function RandomFloat(min: real, max: real, u: Unit): (r: real)
    ensures min <= max ==> min <= r <= max
  {
    var d := max - min;
    FractionOf(d, u);
    min + d * u
  }

  lemma FractionOf(d: real, u: Unit)
    ensures 0.0 <= d ==> 0.0 <= d * u <= d
  {
    if 0.0 <= d {
      assert d * u <= d * 1.0;
    }
  }

  /** getDispersionRange: the outer orbital radius of each dispersion tier. */
  function DispersionRange(d: DispersionType): (r: real)
    ensures MinAsteroidDistance < r
  {
    match d
    case Tight => 6e11
    case Normal => 12e11
    case Wide => 18e11
    case Extreme => 20e12
  }

  /** The tiers widen strictly from Tight to Extreme. */
  lemma DispersionTiersWiden()
    ensures DispersionRange(Tight) < DispersionRange(Normal)
    ensures DispersionRange(Normal) < DispersionRange(Wide)
    ensures DispersionRange(Wide) < DispersionRange(Extreme)
  {
  }

  /** The orbital radius drawn for an asteroid. */
  function OrbitRadius(dispersion: DispersionType, uR: Unit): (r: real)
    ensures MinAsteroidDistance <= r <= DispersionRange(dispersion)
  {
    RandomFloat(MinAsteroidDistance, DispersionRange(dispersion), uR)
  }

  /** The angle of an asteroid on its orbit: drawn, then overridden by zero under the Phi easter egg. */
  function AsteroidAngle(phiEgg: bool, uPhi: Unit): real {
    var drawnPhi := RandomFloat(0.0, 2.0 * Pi, uPhi);
    if phiEgg then 0.0 else drawnPhi
  }

  /** The point at distance `r` and angle `phi` in the ecliptic (x-z) plane. */
  function Polar(r: real, phi: real, m: Libm): Vector3 {
    Vector3(r * m.cos(phi), 0.0, r * m.sin(phi))
  }

  /** Speed `v` along the orbit at angle `phi`, plus the vertical speed `vy`. */
  function Tangent(v: real, vy: real, phi: real, m: Libm): Vector3 {
    Vector3(-v * m.sin(phi), vy, v * m.cos(phi))
  }

  /** The circular orbital speed at radius `r`, scaled by the eccentricity factor. */
  function OrbitSpeed(centerMass: real, r: real, eccentricity: real, m: Libm): real
    requires 0.0 < r && 0.0 <= eccentricity
  {
    var vCircular := m.sqrt(G * centerMass / r);
    vCircular * m.sqrt((1.0 - eccentricity) / (1.0 + eccentricity))
  }

  /**
   * configureAsteroid: one asteroid on an elliptical orbit in the ecliptic
   * plane around a centre of mass `centerMass`, from four consecutive draws
   * (radius, angle, eccentricity, vertical speed).
   */
  function ConfigureAsteroid(centerMass: real, dispersion: DispersionType, phiEgg: bool,
      uR: Unit, uPhi: Unit, uE: Unit, uVy: Unit, m: Libm): (b: OrbitalBody)
    ensures b.mass == AsteroidMass && b.radius == AsteroidRadius
    ensures b.isAlive && b.color == Gray && b.position.y == 0.0
    ensures -MaxVerticalSpeed <= b.velocity.y <= MaxVerticalSpeed
  {
    var r := OrbitRadius(dispersion, uR);
    var phi := AsteroidAngle(phiEgg, uPhi);
    var v := OrbitSpeed(centerMass, r, RandomFloat(0.1, 0.8, uE), m);
    var vy := RandomFloat(-MaxVerticalSpeed, MaxVerticalSpeed, uVy);
    OrbitalBody(Polar(r, phi, m), Tangent(v, vy, phi, m), AsteroidMass, AsteroidRadius, Gray, true)
  }

  /** The asteroid seeded from draws 4k .. 4k+3 of the stream. */
  function AsteroidFrom(centerMass: real, dispersion: DispersionType, phiEgg: bool,
      rand: RandStream, k: nat, m: Libm): OrbitalBody
  {
    ConfigureAsteroid(centerMass, dispersion, phiEgg,
      rand(4 * k), rand(4 * k + 1), rand(4 * k + 2), rand(4 * k + 3), m)
  }

  /** The configureAsteroid call for each asteroid index of one population. */
  function Seeder(centerMass: real, dispersion: DispersionType, phiEgg: bool, rand: RandStream, m: Libm)
    : nat -> OrbitalBody
  {
    (k: nat) => AsteroidFrom(centerMass, dispersion, phiEgg, rand, k, m)
  }

  /**
   * An asteroid's distance from the centre is its drawn orbital radius, so
   * it lies between 2E11 and the dispersion range (squared here, as the
   * simulation compares squared lengths).
   */
  lemma AsteroidOrbitsWithinTier(centerMass: real, dispersion: DispersionType, phiEgg: bool,
      uR: Unit, uPhi: Unit, uE: Unit, uVy: Unit, m: Libm)
    requires TrigSound(m)
    ensures var b := ConfigureAsteroid(centerMass, dispersion, phiEgg, uR, uPhi, uE, uVy, m);
            var r := OrbitRadius(dispersion, uR);
            && LengthSqr(b.position) == r * r
            && MinAsteroidDistance * MinAsteroidDistance <= LengthSqr(b.position)
            && LengthSqr(b.position) <= DispersionRange(dispersion) * DispersionRange(dispersion)
  {
    var r := OrbitRadius(dispersion, uR);
    OnCircle(r, AsteroidAngle(phiEgg, uPhi), m);
    SquareMonotone(MinAsteroidDistance, r);
    SquareMonotone(r, DispersionRange(dispersion));
  }

  lemma OnCircle(r: real, phi: real, m: Libm)
    requires TrigSound(m)
    ensures LengthSqr(Polar(r, phi, m)) == r * r
  {
    var c, s := m.cos(phi), m.sin(phi);
    assert s * s + c * c == 1.0;
    assert (r * c) * (r * c) + (r * s) * (r * s) == r * r * (c * c + s * s);
  }

  lemma SquareMonotone(a: real, b: real)
    requires 0.0 <= a <= b
    ensures a * a <= b * b
  {
    assert a * a <= a * b;
    assert a * b <= b * b;
  }

  /** The asteroid's horizontal velocity is perpendicular to its position: the orbit starts tangentially. */
  lemma AsteroidStartsTangential(centerMass: real, dispersion: DispersionType, phiEgg: bool,
      uR: Unit, uPhi: Unit, uE: Unit, uVy: Unit, m: Libm)
    ensures var b := ConfigureAsteroid(centerMass, dispersion, phiEgg, uR, uPhi, uE, uVy, m);
            b.position.x * b.velocity.x + b.position.z * b.velocity.z == 0.0
  {
    var phi := AsteroidAngle(phiEgg, uPhi);
    Perpendicular(OrbitRadius(dispersion, uR), OrbitSpeed(centerMass, OrbitRadius(dispersion, uR), RandomFloat(0.1, 0.8, uE), m),
                  m.cos(phi), m.sin(phi));
  }

  lemma Perpendicular(r: real, v: real, c: real, s: real)
    ensures (r * c) * (-v * s) + (r * s) * (v * c) == 0.0
  {
    assert (r * c) * (-v * s) == -(r * v * c * s);
    assert (r * s) * (v * c) == r * v * c * s;
  }

  /**
   * Under the Phi easter egg every asteroid starts on the positive x axis at
   * its drawn radius, moving parallel to the z axis.
   */
  lemma PhiAsteroidsStartOnTheXAxis(centerMass: real, dispersion: DispersionType,
      uR: Unit, uPhi: Unit, uE: Unit, uVy: Unit, m: Libm)
    requires TrigSound(m)
    ensures var b := ConfigureAsteroid(centerMass, dispersion, true, uR, uPhi, uE, uVy, m);
            && b.position == Vector3(OrbitRadius(dispersion, uR), 0.0, 0.0)
            && b.velocity.x == 0.0
  {
  }

  // ---------------------------------------------------------------------
  // The populated body array
  // ---------------------------------------------------------------------

  /** A table entry as `initialize*System` copies it: every field, and alive. */
  function Activated(entry: OrbitalBody): (b: OrbitalBody)
    ensures b.isAlive && b.(isAlive := entry.isAlive) == entry
  {
    entry.(isAlive := true)
  }

  /** The centre mass the asteroids orbit: body 0, or one solar mass without system bodies. */
  function CenterMass(systemBodies: int, bodies: seq<OrbitalBody>): real
    requires systemBodies > 0 ==> |bodies| > 0
  {
    if systemBodies > 0 then bodies[0].mass else SolarMass
  }

  /**
   * The body array construction produces: the preset's table entries,
   * activated, followed by `asteroidCount` asteroids seeded around body 0.
   */
  function InitialBodies(config: SimConfig, tables: Ephemerides, rand: RandStream, m: Libm): (s: seq<OrbitalBody>)
    requires config.asteroidCount >= 0
    ensures |s| == |PresetTable(tables, config.systemType)| + config.asteroidCount
  {
    var table := PresetTable(tables, config.systemType);
    var system := seq(|table|, i requires 0 <= i < |table| => Activated(table[i]));
    var centerMass := CenterMass(|table|, system);
    system + seq(config.asteroidCount, k requires 0 <= k < config.asteroidCount =>
      AsteroidFrom(centerMass, config.dispersion, config.easterEgg == Phi, rand, k, m))
  }

  /** The Jupiter-1000x scaling that reset applies after populating. */
  function ScaleJupiter(config: SimConfig, bodies: seq<OrbitalBody>): seq<OrbitalBody> {
    if config.easterEgg == Jupiter1000x && config.systemType == Solar && |bodies| > 5
    then bodies[5 := bodies[5].(mass := bodies[5].mass * 1000.0)]
    else bodies
  }

  /** The body array a successful reset produces. */
  function ResetBodies(config: SimConfig, tables: Ephemerides, rand: RandStream, m: Libm): seq<OrbitalBody>
    requires config.asteroidCount >= 0
  {
    ScaleJupiter(config, InitialBodies(config, tables, rand, m))
  }

  /**
   * Every body of a freshly populated array is alive; the first
   * `systemBodies` are the preset's table entries and the rest are
   * asteroids with the asteroid constants, centred on body 0's mass.
   */
  lemma InitialBodiesLayout(config: SimConfig, tables: Ephemerides, rand: RandStream, m: Libm)
    requires config.asteroidCount >= 0
    ensures var s := InitialBodies(config, tables, rand, m);
            var table := PresetTable(tables, config.systemType);
            && (forall i :: 0 <= i < |s| ==> s[i].isAlive)
            && (forall i :: 0 <= i < |table| ==> s[i] == table[i].(isAlive := true))
            && (forall i :: |table| <= i < |s| ==>
                  && s[i].mass == AsteroidMass && s[i].radius == AsteroidRadius
                  && s[i].position.y == 0.0 && s[i].color == Gray
                  && s[i] == AsteroidFrom(CenterMass(|table|, s), config.dispersion,
                                          config.easterEgg == Phi, rand, i - |table|, m))
  {
  }

  /**
   * Reset differs from construction only in body 5's mass, which is
   * multiplied by 1000 exactly for Jupiter-1000x on the Solar preset with
   * more than five bodies.
   */
  lemma ResetScalesOnlyJupiter(config: SimConfig, tables: Ephemerides, rand: RandStream, m: Libm)
    requires config.asteroidCount >= 0
    ensures var before := InitialBodies(config, tables, rand, m);
            var after := ResetBodies(config, tables, rand, m);
            var scaled := config.easterEgg == Jupiter1000x && config.systemType == Solar && |before| > 5;
            && |after| == |before|
            && (forall i :: 0 <= i < |before| && (i != 5 || !scaled) ==> after[i] == before[i])
            && (scaled ==> after[5] == before[5].(mass := 1000.0 * before[5].mass))
  {
  }
}
