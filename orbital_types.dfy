/**
 * The data shapes of the orbital simulation: the three configuration
 * enumerations, the body and black-hole records, the configuration record,
 * the physical constants, and the fixed ephemerides tables the system
 * bodies are copied from.
 */
module OrbitalTypes {
  import opened Raymath

  datatype Option<T> = None | Some(value: T)

  datatype SystemType = Solar | AlphaCentauri

  datatype EasterEggType = NoEasterEgg | Phi | Jupiter1000x

  datatype DispersionType = Tight | Normal | Wide | Extreme

  /** A display colour; the simulation copies it and never inspects it. */
  datatype Color = Color(r: nat, g: nat, b: nat, a: nat)

  /** raylib's GRAY, the colour of every asteroid. */
  const Gray: Color := Color(130, 130, 130, 255)

  /** One simulated mass point: a star, a planet or an asteroid. */
  datatype OrbitalBody = OrbitalBody(
    position: Vector3,
    velocity: Vector3,
    mass: real,
    radius: real,
    color: Color,
    isAlive: bool)

  /** The optional black hole, embedded by value in the simulation. */
  datatype BlackHole = BlackHole(
    position: Vector3,
    velocity: Vector3,
    acceleration: Vector3,
    mass: real,
    radius: real,
    eventHorizonRadius: real,
    isActive: bool,
    growthRate: real)

  datatype SimConfig = SimConfig(
    systemType: SystemType,
    easterEgg: EasterEggType,
    dispersion: DispersionType,
    asteroidCount: int)

  /** GRAVITATIONAL_CONSTANT */
  const G: real := 6.6743e-11

  /** MIN_DISTANCE_CUBED: the regularisation floor on the cubed distance. */
  const MinDistanceCubed: real := 1e29

  /** INFLUENCE_DISTANCE_SQ: squared reach of a planet's pull on an asteroid. */
  const InfluenceDistanceSq: real := 1e15

  /** The reference solar mass used by the black hole and as fallback centre mass. */
  const SolarMass: real := 1.989e30

  /**
   * The two ephemerides tables (`solarSystem`, `alphaCentauriSystem`); their
   * lengths are SOLARSYSTEM_BODYNUM and ALPHACENTAURISYSTEM_BODYNUM.
   */
  datatype Ephemerides = Ephemerides(solar: seq<OrbitalBody>, alphaCentauri: seq<OrbitalBody>)

  /**
   * The layout the force code relies on: index 0 is the primary star of both
   * presets, Jupiter sits at index 5 of the Solar table and the companion
   * star at index 1 of the Alpha Centauri table.
   */
  predicate WellFormedTables(t: Ephemerides) {
    |t.solar| > 5 && |t.alphaCentauri| > 1
  }

  /** The table a preset copies its system bodies from. */
  function PresetTable(t: Ephemerides, s: SystemType): seq<OrbitalBody> {
    if s == Solar then t.solar else t.alphaCentauri
  }

  /**
   * What a simulation built from well-formed tables knows of its own
   * `systemBodies` count: it covers the bodies that the secondary pulls and
   * the Jupiter easter egg index.
   */
  predicate PresetShape(s: SystemType, systemBodies: int) {
    if s == Solar then systemBodies > 5 else systemBodies > 1
  }
}
