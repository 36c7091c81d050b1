/**
 * The tiered gravitational force accumulator (`ComputeGravitationalAccelerations`).
 *
 * One acceleration per body is accumulated in four passes:
 *   1. every entry is zeroed;
 *   2. the system bodies (stars and planets, indices below `systemBodies`)
 *      pull each other pairwise, each pair once, by Newton's third law;
 *   3. every live asteroid is pulled by body 0, and additionally by body 5
 *      under the Jupiter-1000x easter egg of the Solar preset and by body 1
 *      under the Alpha Centauri preset;
 *   4. every live planet (index 1 up) pulls every live asteroid that lies
 *      within the influence distance.
 * Asteroids never pull anything.
 *
 * The passes are specified by functions that replay them over sequences;
 * the lemmas state what the passes mean: the regularisation floor, the
 * third law and its consequence that the system bodies' momentum change
 * vanishes, dead bodies feeling nothing, and the independence of an
 * asteroid's acceleration from every other asteroid.
 */
module Gravity {
  import opened Raymath
  import opened OrbitalTypes

  // ---------------------------------------------------------------------
  // The inverse-cube law and its regularisation
  // ---------------------------------------------------------------------

  /**
   * The scalar factor of the inverse-cube law for squared distance `r2`:
   * G / r³ when r³ lies above the floor, otherwise G / floor. It never
   * exceeds G / MIN_DISTANCE_CUBED.
   */
  function Coefficient(r2: real, m: Libm): (c: real)
    ensures 0.0 < c <= G / MinDistanceCubed
  {
    var rc := r2 * m.sqrt(r2);
    if rc > MinDistanceCubed then
      assert G / rc < G / MinDistanceCubed by { DivideByLarger(G, MinDistanceCubed, rc); }
      G / rc
    else G / MinDistanceCubed
  }

  /** The coefficient is G divided by the larger of r³ and the floor. */
  lemma CoefficientIsInverseCube(r2: real, m: Libm)
    ensures Coefficient(r2, m) * Max(r2 * m.sqrt(r2), MinDistanceCubed) == G
  {
    var rc := r2 * m.sqrt(r2);
    if rc > MinDistanceCubed {
      assert Max(rc, MinDistanceCubed) == rc;
      assert (G / rc) * rc == G;
    } else {
      assert Max(rc, MinDistanceCubed) == MinDistanceCubed;
    }
  }

  lemma DivideByLarger(a: real, small: real, large: real)
    requires 0.0 < a && 0.0 < small < large
    ensures a / large < a / small
  {
  }

  /** The pull of `source` on `target` under the regularised inverse-cube law. */
  function Pull(source: OrbitalBody, target: OrbitalBody, m: Libm): Vector3 {
    var r := Subtract(target.position, source.position);
    Scale(r, -(Coefficient(LengthSqr(r), m) * source.mass))
  }

  /**
   * The two contributions of one pair of system bodies i < j: the first
   * goes to i, the second to j. Each body's mass times its contribution
   * cancels the other's (Newton's third law), and both lie along the
   * separation with a coefficient capped by the floor.
   */
  function PairTerms(bi: OrbitalBody, bj: OrbitalBody, m: Libm): (t: (Vector3, Vector3))
    ensures Add(Scale(t.0, bi.mass), Scale(t.1, bj.mass)) == Zero
    ensures var r := Subtract(bj.position, bi.position);
            var c := Coefficient(LengthSqr(r), m);
            t.0 == Scale(r, c * bj.mass) && t.1 == Scale(r, -c * bi.mass)
  {
    var r := Subtract(bj.position, bi.position);
    var c := Coefficient(LengthSqr(r), m);
    var t := (Scale(r, c * bj.mass), Scale(r, -c * bi.mass));
    ThirdLaw(r, c, bi.mass, bj.mass);
    t
  }

  /** The weighted contributions of a pair cancel, componentwise. */
  lemma ThirdLaw(r: Vector3, c: real, mi: real, mj: real)
    ensures Add(Scale(Scale(r, c * mj), mi), Scale(Scale(r, -c * mi), mj)) == Zero
  {
    assert r.x * (c * mj) * mi + r.x * (-c * mi) * mj == 0.0;
    assert r.y * (c * mj) * mi + r.y * (-c * mi) * mj == 0.0;
    assert r.z * (c * mj) * mi + r.z * (-c * mi) * mj == 0.0;
  }

  /**
   * The pull of planet `planet` on `asteroid` in pass 4, or None when the
   * asteroid lies outside the influence distance. The source's first,
   * unregularised branch needs r² above 1E29 and below 1E15 at once, so it
   * is never taken.
   */
  function PlanetPull(planet: OrbitalBody, asteroid: OrbitalBody): (p: Option<Vector3>)
    ensures p.Some? <==> LengthSqr(Subtract(asteroid.position, planet.position)) < InfluenceDistanceSq
  {
    var r := Subtract(asteroid.position, planet.position);
    var r2 := LengthSqr(r);
    if r2 < InfluenceDistanceSq && r2 > MinDistanceCubed then
      assert false; None
    else if r2 < InfluenceDistanceSq then
      Some(Scale(r, -(G / MinDistanceCubed) * planet.mass))
    else
      None
  }

  /**
   * Every planet pull that is applied is the regularised inverse-cube pull
   * of `Pull`, and it always sits on the floor: within the influence
   * distance r³ stays below 1E29.
   */
  lemma PlanetPullIsFloored(planet: OrbitalBody, asteroid: OrbitalBody, m: Libm)
    requires SqrtSound(m)
    requires PlanetPull(planet, asteroid).Some?
    ensures PlanetPull(planet, asteroid).value == Pull(planet, asteroid, m)
    ensures var r2 := LengthSqr(Subtract(asteroid.position, planet.position));
            Coefficient(r2, m) == G / MinDistanceCubed
  {
    var r := Subtract(asteroid.position, planet.position);
    var r2 := LengthSqr(r);
    LengthSqrNonNegative(r);
    var s := m.sqrt(r2);
    assert 0.0 <= s && s * s == r2;
    assert s < 1e8;
    assert r2 < InfluenceDistanceSq;
    assert r2 * s <= r2 * 1e8;
    assert r2 * 1e8 <= 1e15 * 1e8;
    assert r2 * s < MinDistanceCubed;
    assert Coefficient(r2, m) == G / MinDistanceCubed;
    assert -(G / MinDistanceCubed) * planet.mass == -(G / MinDistanceCubed * planet.mass);
  }

  // ---------------------------------------------------------------------
  // The passes, replayed over sequences
  // ---------------------------------------------------------------------

  function Zeros(n: nat): (z: seq<Vector3>)
    ensures |z| == n && forall k :: 0 <= k < n ==> z[k] == Zero
  {
    seq(n, _ => Zero)
  }

  /** Pass 2, one inner step: the pair (i, j), when both are alive. */
  function PairUpdate(acc: seq<Vector3>, bodies: seq<OrbitalBody>, i: nat, j: nat, m: Libm): (r: seq<Vector3>)
    requires |acc| == |bodies| && i < j < |bodies|
    ensures |r| == |acc|
  {
    if bodies[i].isAlive && bodies[j].isAlive then
      var t := PairTerms(bodies[i], bodies[j], m);
      acc[j := Add(acc[j], t.1)][i := Add(acc[i], t.0)]
    else
      acc
  }

  /** Pass 2, row i, after the inner iterations i+1 .. j-1. */
  function PairRow(acc: seq<Vector3>, bodies: seq<OrbitalBody>, i: nat, j: nat, m: Libm): (r: seq<Vector3>)
    requires |acc| == |bodies| && i < j <= |bodies|
    ensures |r| == |acc|
    decreases j
  {
    if j == i + 1 then acc else PairUpdate(PairRow(acc, bodies, i, j - 1, m), bodies, i, j - 1, m)
  }

  /** Pass 2 over the first `sb` bodies, after the outer iterations 0 .. i-1. */
  function PairPass(acc: seq<Vector3>, bodies: seq<OrbitalBody>, sb: nat, i: nat, m: Libm): (r: seq<Vector3>)
    requires |acc| == |bodies| && i <= sb <= |bodies|
    ensures |r| == |acc|
  {
    if i == 0 then acc else PairRow(PairPass(acc, bodies, sb, i - 1, m), bodies, i - 1, sb, m)
  }

  /**
   * Pass 3 for asteroid k: the pull of body 0, then of body 5 under the
   * Jupiter-1000x easter egg of the Solar preset (when more than five bodies
   * exist), then of body 1 under the Alpha Centauri preset. Neither
   * secondary source is checked for being alive.
   */
  function PrimaryPull(config: SimConfig, bodies: seq<OrbitalBody>, k: nat, m: Libm): Vector3
    requires k < |bodies|
    requires config.systemType == AlphaCentauri ==> 1 < |bodies|
  {
    if bodies[0].isAlive && bodies[k].isAlive then
      var a1 := Add(Zero, Pull(bodies[0], bodies[k], m));
      var a2 := if config.easterEgg == Jupiter1000x && config.systemType == Solar && |bodies| > 5
                then Add(a1, Pull(bodies[5], bodies[k], m)) else a1;
      if config.systemType == AlphaCentauri then Add(a2, Pull(bodies[1], bodies[k], m)) else a2
    else
      Zero
  }

  /** Pass 4, one inner step: `planet` adds its pull to `asteroid`'s acceleration `prev`, when both are alive and close. */
  function PlanetStep(prev: Vector3, planet: OrbitalBody, asteroid: OrbitalBody): Vector3 {
    var p := PlanetPull(planet, asteroid);
    if planet.isAlive && asteroid.isAlive && p.Some? then Add(prev, p.value) else prev
  }

  /** Pass 4 for asteroid k: `base` plus the pulls of live planets 1 .. upto-1. */
  function PlanetPulls(base: Vector3, bodies: seq<OrbitalBody>, k: nat, upto: nat): Vector3
    requires k < |bodies| && upto <= |bodies|
  {
    if upto <= 1 then base
    else PlanetStep(PlanetPulls(base, bodies, k, upto - 1), bodies[upto - 1], bodies[k])
  }

  /** What the accumulator needs of its arguments to stay within the array. */
  predicate ForceShape(config: SimConfig, n: int, sb: int) {
    0 <= sb <= n && (config.systemType == AlphaCentauri && sb < n ==> 1 < n)
  }

  /** The acceleration of asteroid k (index at least `sb`) after passes 3 and 4. */
  function AsteroidAcceleration(config: SimConfig, bodies: seq<OrbitalBody>, sb: nat, k: nat, m: Libm): Vector3
    requires ForceShape(config, |bodies|, sb) && sb <= k < |bodies|
  {
    PlanetPulls(PrimaryPull(config, bodies, k, m), bodies, k, sb)
  }

  /** The acceleration buffer after all four passes. */
  function Accelerations(config: SimConfig, bodies: seq<OrbitalBody>, sb: nat, m: Libm): (acc: seq<Vector3>)
    requires ForceShape(config, |bodies|, sb)
    ensures |acc| == |bodies|
  {
    var pairs := PairPass(Zeros(|bodies|), bodies, sb, sb, m);
    seq(|bodies|, k requires 0 <= k < |bodies| =>
      if k < sb then pairs[k] else AsteroidAcceleration(config, bodies, sb, k, m))
  }

  // ---------------------------------------------------------------------
  // The accumulator itself
  // ---------------------------------------------------------------------

  /**
   * ComputeGravitationalAccelerations: fills `accelerations` with one
   * acceleration per body, reading `bodies` only. Its four numbered
   * passes are the four methods below.
   */
  method ComputeGravitationalAccelerations(config: SimConfig, systemBodies: int,
      bodies: array<OrbitalBody>, accelerations: array<Vector3>, n: int, m: Libm)
    requires bodies.Length == n && accelerations.Length == n
    requires ForceShape(config, n, systemBodies)
    modifies accelerations
    ensures accelerations[..] == Accelerations(config, bodies[..], systemBodies, m)
  {
    ZeroAccelerations(accelerations, n);
    ghost var zeros := accelerations[..];
    assert zeros == Zeros(n);
    SystemPairs(systemBodies, bodies, accelerations, n, m);
    ghost var pairs := accelerations[..];
    forall k | systemBodies <= k < n ensures pairs[k] == Zero {
      PairPassFrame(zeros, bodies[..], systemBodies, systemBodies, k, m);
    }
    StarToAsteroids(config, systemBodies, bodies, accelerations, n, m);
    PlanetsToAsteroids(config, systemBodies, bodies, accelerations, n, m);
  }

  /** Pass 1: every entry starts at zero. */
  method ZeroAccelerations(accelerations: array<Vector3>, n: int)
    requires accelerations.Length == n
    modifies accelerations
    ensures accelerations[..] == Zeros(n)
  {
    var i := 0;
    while i < n
      invariant 0 <= i <= n
      invariant forall k :: 0 <= k < i ==> accelerations[k] == Zero
    {
      accelerations[i] := Zero;
      i := i + 1;
    }
  }

  /** Pass 2: the system bodies pull each other, each live pair once. */
  method SystemPairs(systemBodies: int, bodies: array<OrbitalBody>, accelerations: array<Vector3>, n: int, m: Libm)
    requires bodies.Length == n && accelerations.Length == n && 0 <= systemBodies <= n
    modifies accelerations
    ensures accelerations[..] == PairPass(old(accelerations[..]), bodies[..], systemBodies, systemBodies, m)
  {
    ghost var bs := bodies[..];
    ghost var start := accelerations[..];
    var i := 0;
    while i < systemBodies
      invariant 0 <= i <= systemBodies
      invariant accelerations[..] == PairPass(start, bs, systemBodies, i, m)
    {
      ghost var rowStart := accelerations[..];
      if bodies[i].isAlive {
        var j := i + 1;
        while j < systemBodies
          invariant i + 1 <= j <= systemBodies
          invariant accelerations[..] == PairRow(rowStart, bs, i, j, m)
        {
          if bodies[j].isAlive {
            ghost var before := accelerations[..];
            var accelI, accelJ := PairContribution(bodies, i, j, m);
            accelerations[j] := Add(accelerations[j], accelJ);
            accelerations[i] := Add(accelerations[i], accelI);
            assert accelerations[..] == before[j := Add(before[j], accelJ)][i := Add(before[i], accelI)];
          }
          j := j + 1;
        }
      } else {
        PairRowOfDeadBody(rowStart, bs, i, systemBodies, m);
      }
      i := i + 1;
    }
  }

  /** The contributions of the pair (i, j) to i and to j, as the source computes them in pass 2. */
  method PairContribution(bodies: array<OrbitalBody>, i: int, j: int, m: Libm) returns (accelI: Vector3, accelJ: Vector3)
    requires 0 <= i < bodies.Length && 0 <= j < bodies.Length
    ensures (accelI, accelJ) == PairTerms(bodies[i], bodies[j], m)
  {
    var rVec := Subtract(bodies[j].position, bodies[i].position);
    var r2 := LengthSqr(rVec);
    var rc := r2 * m.sqrt(r2);
    var force: real;
    if rc > MinDistanceCubed {
      force := G / rc;
    } else {
      force := G / MinDistanceCubed;
    }
    assert force == Coefficient(r2, m);
    accelJ := Scale(rVec, -force * bodies[i].mass);
    accelI := Scale(rVec, force * bodies[j].mass);
    ghost var t := PairTerms(bodies[i], bodies[j], m);
    assert t.0 == accelI;
    assert t.1 == accelJ;
  }

  /** The pull of `bodies[s]` on asteroid `i`, as the source computes it in pass 3. */
  method SourcePull(bodies: array<OrbitalBody>, s: int, i: int, m: Libm) returns (a: Vector3)
    requires 0 <= s < bodies.Length && 0 <= i < bodies.Length
    ensures a == Pull(bodies[s], bodies[i], m)
  {
    var rVec := Subtract(bodies[i].position, bodies[s].position);
    var r2 := LengthSqr(rVec);
    var rc := r2 * m.sqrt(r2);
    var force: real;
    if rc > MinDistanceCubed {
      force := G * bodies[s].mass / rc;
    } else {
      force := G * bodies[s].mass / MinDistanceCubed;
    }
    assert force == Coefficient(r2, m) * bodies[s].mass;
    a := Scale(rVec, -force);
  }

  /**
   * Pass 3: body 0 pulls every live asteroid, followed by body 5 under the
   * Jupiter-1000x easter egg and body 1 under the Alpha Centauri preset.
   */
  method StarToAsteroids(config: SimConfig, systemBodies: int,
      bodies: array<OrbitalBody>, accelerations: array<Vector3>, n: int, m: Libm)
    requires bodies.Length == n && accelerations.Length == n
    requires ForceShape(config, n, systemBodies)
    requires forall k :: systemBodies <= k < n ==> accelerations[k] == Zero
    modifies accelerations
    ensures forall k :: 0 <= k < systemBodies ==> accelerations[k] == old(accelerations[k])
    ensures forall k :: systemBodies <= k < n ==> accelerations[k] == PrimaryPull(config, bodies[..], k, m)
  {
    ghost var bs := bodies[..];
    if n > systemBodies && bodies[0].isAlive {
      var i := systemBodies;
      while i < n
        invariant systemBodies <= i <= n
        invariant forall k :: 0 <= k < systemBodies ==> accelerations[k] == old(accelerations[k])
        invariant forall k :: systemBodies <= k < i ==> accelerations[k] == PrimaryPull(config, bs, k, m)
        invariant forall k :: i <= k < n ==> accelerations[k] == Zero
      {
        if bodies[i].isAlive {
          var a := PrimaryPullOn(config, bodies, i, accelerations[i], m);
          accelerations[i] := a;
        } else {
          assert PrimaryPull(config, bs, i, m) == Zero;
        }
        i := i + 1;
      }
    } else {
      assert forall k :: systemBodies <= k < n ==> PrimaryPull(config, bs, k, m) == Zero;
    }
    assert bodies[..] == bs;
  }

  /** The pass-3 accumulation for one live asteroid, starting from its zeroed acceleration. */
  method PrimaryPullOn(config: SimConfig, bodies: array<OrbitalBody>, i: int, start: Vector3, m: Libm)
      returns (acc: Vector3)
    requires 0 <= i < bodies.Length && start == Zero
    requires config.systemType == AlphaCentauri ==> 1 < bodies.Length
    requires bodies[0].isAlive && bodies[i].isAlive
    ensures acc == PrimaryPull(config, bodies[..], i, m)
  {
    var a := SourcePull(bodies, 0, i, m);
    acc := Add(start, a);
    if config.easterEgg == Jupiter1000x {
      if config.systemType == Solar && bodies.Length > 5 {
        a := SourcePull(bodies, 5, i, m);
        acc := Add(acc, a);
      }
    }
    if config.systemType == AlphaCentauri {
      a := SourcePull(bodies, 1, i, m);
      acc := Add(acc, a);
    }
  }

  /** Pass 4: every live planet pulls the live asteroids within its influence distance. */
  method PlanetsToAsteroids(config: SimConfig, systemBodies: int,
      bodies: array<OrbitalBody>, accelerations: array<Vector3>, n: int, m: Libm)
    requires bodies.Length == n && accelerations.Length == n
    requires ForceShape(config, n, systemBodies)
    modifies accelerations
    ensures forall k :: 0 <= k < systemBodies ==> accelerations[k] == old(accelerations[k])
    ensures forall k :: systemBodies <= k < n ==> accelerations[k] == PlanetPulls(old(accelerations[k]), bodies[..], k, systemBodies)
  {
    ghost var bs := bodies[..];
    ghost var start := accelerations[..];
    var i := 1;
    while i < systemBodies
      invariant 1 <= i && (i <= systemBodies || systemBodies == 0)
      invariant forall k :: 0 <= k < systemBodies ==> accelerations[k] == start[k]
      invariant forall k :: systemBodies <= k < n ==>
                  accelerations[k] == PlanetPulls(start[k], bs, k, if i <= systemBodies then i else 0)
    {
      if bodies[i].isAlive {
        var j := systemBodies;
        while j < n
          invariant systemBodies <= j <= n
          invariant forall k :: 0 <= k < systemBodies ==> accelerations[k] == start[k]
          invariant forall k :: systemBodies <= k < j ==> accelerations[k] == PlanetPulls(start[k], bs, k, i + 1)
          invariant forall k :: j <= k < n ==> accelerations[k] == PlanetPulls(start[k], bs, k, i)
        {
          var a := PlanetPullOn(bodies, i, j, accelerations[j]);
          accelerations[j] := a;
          j := j + 1;
        }
      }
      i := i + 1;
    }
  }

  /** The pass-4 body for live planet `i` and body `j`, from `j`'s acceleration `acc`. */
  method PlanetPullOn(bodies: array<OrbitalBody>, i: int, j: int, acc: Vector3) returns (a: Vector3)
    requires 0 <= i < bodies.Length && 0 <= j < bodies.Length && bodies[i].isAlive
    ensures a == PlanetStep(acc, bodies[i], bodies[j])
  {
    a := acc;
    if bodies[j].isAlive {
      var rVec := Subtract(bodies[j].position, bodies[i].position);
      var r2 := LengthSqr(rVec);
      if r2 < InfluenceDistanceSq && r2 > MinDistanceCubed {
        // G / r³ in the source; unreachable, since 1E15 < 1E29
        assert false;
      } else if r2 < InfluenceDistanceSq {
        var force := G / MinDistanceCubed;
        a := Add(acc, Scale(rVec, -force * bodies[i].mass));
      }
    }
  }

  // ---------------------------------------------------------------------
  // Frames of the passes
  // ---------------------------------------------------------------------

  /** A dead body's row of pass 2 changes nothing. */
  lemma {:induction false} PairRowOfDeadBody(acc: seq<Vector3>, bodies: seq<OrbitalBody>, i: nat, j: nat, m: Libm)
    requires |acc| == |bodies| && i < j <= |bodies|
    requires !bodies[i].isAlive
    ensures PairRow(acc, bodies, i, j, m) == acc
    decreases j
  {
    if j > i + 1 {
      PairRowOfDeadBody(acc, bodies, i, j - 1, m);
    }
  }

  /**
   * Pass 2 leaves untouched every entry at or beyond `sb` and every entry of
   * a dead body.
   */
  lemma {:induction false} PairRowFrame(acc: seq<Vector3>, bodies: seq<OrbitalBody>, i: nat, j: nat, k: nat, m: Libm)
    requires |acc| == |bodies| && i < j <= |bodies| && k < |bodies|
    requires j <= k || !bodies[k].isAlive
    ensures PairRow(acc, bodies, i, j, m)[k] == acc[k]
    decreases j
  {
    if j > i + 1 {
      PairRowFrame(acc, bodies, i, j - 1, k, m);
    }
  }

  lemma {:induction false} PairPassFrame(acc: seq<Vector3>, bodies: seq<OrbitalBody>, sb: nat, i: nat, k: nat, m: Libm)
    requires |acc| == |bodies| && i <= sb <= |bodies| && k < |bodies|
    requires sb <= k || !bodies[k].isAlive
    ensures PairPass(acc, bodies, sb, i, m)[k] == acc[k]
  {
    if i > 0 {
      PairPassFrame(acc, bodies, sb, i - 1, k, m);
      PairRowFrame(PairPass(acc, bodies, sb, i - 1, m), bodies, i - 1, sb, k, m);
    }
  }

  /** A dead asteroid gains nothing from the planets. */
  lemma {:induction false} PlanetPullsOfDeadAsteroid(base: Vector3, bodies: seq<OrbitalBody>, k: nat, upto: nat)
    requires k < |bodies| && upto <= |bodies| && !bodies[k].isAlive
    ensures PlanetPulls(base, bodies, k, upto) == base
  {
    if upto > 1 {
      PlanetPullsOfDeadAsteroid(base, bodies, k, upto - 1);
    }
  }

  /** Dead bodies feel no gravity: their entry of the buffer stays zero. */
  lemma DeadBodiesFeelNothing(config: SimConfig, bodies: seq<OrbitalBody>, sb: nat, k: nat, m: Libm)
    requires ForceShape(config, |bodies|, sb) && k < |bodies|
    requires !bodies[k].isAlive
    ensures Accelerations(config, bodies, sb, m)[k] == Zero
  {
    if k < sb {
      PairPassFrame(Zeros(|bodies|), bodies, sb, sb, k, m);
    } else {
      PlanetPullsOfDeadAsteroid(Zero, bodies, k, sb);
    }
  }

  // ---------------------------------------------------------------------
  // Dead bodies pull nothing, except the unchecked secondary sources
  // ---------------------------------------------------------------------

  /** Two body arrays that differ at most at index d, where both hold a dead body. */
  predicate AgreeExceptDead(b1: seq<OrbitalBody>, b2: seq<OrbitalBody>, d: nat) {
    && |b1| == |b2| && d < |b1|
    && !b1[d].isAlive && !b2[d].isAlive
    && forall t :: 0 <= t < |b1| && t != d ==> b1[t] == b2[t]
  }

  lemma {:induction false} PairRowIgnoresDeadBody(acc: seq<Vector3>, b1: seq<OrbitalBody>, b2: seq<OrbitalBody>,
      d: nat, i: nat, j: nat, m: Libm)
    requires |acc| == |b1| && i < j <= |b1| && AgreeExceptDead(b1, b2, d)
    ensures PairRow(acc, b1, i, j, m) == PairRow(acc, b2, i, j, m)
    decreases j
  {
    if j > i + 1 {
      PairRowIgnoresDeadBody(acc, b1, b2, d, i, j - 1, m);
    }
  }

  lemma {:induction false} PairPassIgnoresDeadBody(acc: seq<Vector3>, b1: seq<OrbitalBody>, b2: seq<OrbitalBody>,
      d: nat, sb: nat, i: nat, m: Libm)
    requires |acc| == |b1| && i <= sb <= |b1| && AgreeExceptDead(b1, b2, d)
    ensures PairPass(acc, b1, sb, i, m) == PairPass(acc, b2, sb, i, m)
  {
    if i > 0 {
      PairPassIgnoresDeadBody(acc, b1, b2, d, sb, i - 1, m);
      PairRowIgnoresDeadBody(PairPass(acc, b1, sb, i - 1, m), b1, b2, d, i - 1, sb, m);
    }
  }

  lemma {:induction false} PlanetPullsIgnoreDeadBody(base: Vector3, b1: seq<OrbitalBody>, b2: seq<OrbitalBody>,
      d: nat, k: nat, upto: nat)
    requires k < |b1| && upto <= |b1| && AgreeExceptDead(b1, b2, d) && k != d
    ensures PlanetPulls(base, b1, k, upto) == PlanetPulls(base, b2, k, upto)
  {
    if upto > 1 {
      PlanetPullsIgnoreDeadBody(base, b1, b2, d, k, upto - 1);
    }
  }

  /**
   * A dead body pulls nothing: replacing it by any other dead body leaves
   * every other entry of the buffer unchanged. The exceptions are the
   * secondary sources of pass 3, which are not checked for being alive:
   * body 1 under the Alpha Centauri preset and body 5 under the
   * Jupiter-1000x easter egg of the Solar preset.
   */
  lemma DeadBodyPullsNothing(config: SimConfig, b1: seq<OrbitalBody>, b2: seq<OrbitalBody>, sb: nat, d: nat, k: nat, m: Libm)
    requires ForceShape(config, |b1|, sb) && AgreeExceptDead(b1, b2, d) && k < |b1| && k != d
    requires config.systemType == AlphaCentauri ==> d != 1
    requires config.easterEgg == Jupiter1000x && config.systemType == Solar ==> d != 5
    ensures Accelerations(config, b1, sb, m)[k] == Accelerations(config, b2, sb, m)[k]
  {
    PairPassIgnoresDeadBody(Zeros(|b1|), b1, b2, d, sb, sb, m);
    if sb <= k {
      assert PrimaryPull(config, b1, k, m) == PrimaryPull(config, b2, k, m);
      PlanetPullsIgnoreDeadBody(PrimaryPull(config, b1, k, m), b1, b2, d, k, sb);
    }
  }

  /**
   * The secondary sources pull although dead: when body 1 (Alpha Centauri)
   * or body 5 (Jupiter-1000x, Solar) is dead but keeps a non-zero mass, its
   * mass still changes the acceleration of every live asteroid it does not
   * coincide with, as long as body 0 is alive.
   */
  lemma DeadSecondaryStillPulls(config: SimConfig, bodies: seq<OrbitalBody>, k: nat, s: nat, m: Libm)
    requires k < |bodies| && (config.systemType == AlphaCentauri ==> 1 < |bodies|)
    requires || (s == 1 && config.systemType == AlphaCentauri)
             || (s == 5 && config.easterEgg == Jupiter1000x && config.systemType == Solar && |bodies| > 5)
    requires bodies[0].isAlive && bodies[k].isAlive && !bodies[s].isAlive
    requires bodies[s].mass != 0.0 && bodies[s].position != bodies[k].position
    ensures PrimaryPull(config, bodies, k, m) != PrimaryPull(config, bodies[s := bodies[s].(mass := 0.0)], k, m)
  {
    var massless := bodies[s := bodies[s].(mass := 0.0)];
    var r := Subtract(bodies[k].position, bodies[s].position);
    var c := Coefficient(LengthSqr(r), m);
    assert r != Zero;
    NonzeroScale(r, -(c * bodies[s].mass));
    assert Pull(massless[s], massless[k], m) == Zero;
    var a1 := Add(Zero, Pull(bodies[0], bodies[k], m));
    if s == 1 {
      assert PrimaryPull(config, bodies, k, m) == Add(a1, Pull(bodies[1], bodies[k], m));
      assert PrimaryPull(config, massless, k, m) == Add(a1, Zero);
    } else {
      assert PrimaryPull(config, bodies, k, m) == Add(a1, Pull(bodies[5], bodies[k], m));
      assert PrimaryPull(config, massless, k, m) == Add(a1, Zero);
    }
  }

  lemma NonzeroScale(r: Vector3, f: real)
    requires r != Zero && f != 0.0
    ensures Scale(r, f) != Zero
  {
    if r.x != 0.0 {
      assert r.x * f != 0.0;
    } else if r.y != 0.0 {
      assert r.y * f != 0.0;
    } else {
      assert r.z * f != 0.0;
    }
  }

  // ---------------------------------------------------------------------
  // Newton's third law over the whole pairwise pass
  // ---------------------------------------------------------------------

  /** The mass-weighted sum of the first k accelerations. */
  function Momentum(acc: seq<Vector3>, bodies: seq<OrbitalBody>, k: nat): Vector3
    requires k <= |acc| && |acc| == |bodies|
  {
    if k == 0 then Zero else Add(Momentum(acc, bodies, k - 1), Scale(acc[k - 1], bodies[k - 1].mass))
  }

  /** Replacing one entry changes the weighted sum by the weighted difference. */
  lemma {:induction false} MomentumOfUpdate(acc: seq<Vector3>, bodies: seq<OrbitalBody>, k: nat, idx: nat, d: Vector3)
    requires k <= |acc| && |acc| == |bodies| && idx < |acc|
    ensures Momentum(acc[idx := Add(acc[idx], d)], bodies, k)
         == if idx < k then Add(Momentum(acc, bodies, k), Scale(d, bodies[idx].mass)) else Momentum(acc, bodies, k)
  {
    if k > 0 {
      MomentumOfUpdate(acc, bodies, k - 1, idx, d);
    }
  }

  /** One pair update keeps the weighted sum of the first sb entries. */
  lemma PairUpdateKeepsMomentum(acc: seq<Vector3>, bodies: seq<OrbitalBody>, sb: nat, i: nat, j: nat, m: Libm)
    requires |acc| == |bodies| && i < j < sb <= |bodies|
    ensures Momentum(PairUpdate(acc, bodies, i, j, m), bodies, sb) == Momentum(acc, bodies, sb)
  {
    if bodies[i].isAlive && bodies[j].isAlive {
      var t := PairTerms(bodies[i], bodies[j], m);
      var acc1 := acc[j := Add(acc[j], t.1)];
      MomentumOfUpdate(acc, bodies, sb, j, t.1);
      MomentumOfUpdate(acc1, bodies, sb, i, t.0);
      assert acc1[i] == acc[i];
    }
  }

  lemma {:induction false} PairRowKeepsMomentum(acc: seq<Vector3>, bodies: seq<OrbitalBody>, sb: nat, i: nat, j: nat, m: Libm)
    requires |acc| == |bodies| && i < j <= sb <= |bodies|
    ensures Momentum(PairRow(acc, bodies, i, j, m), bodies, sb) == Momentum(acc, bodies, sb)
    decreases j
  {
    if j > i + 1 {
      PairRowKeepsMomentum(acc, bodies, sb, i, j - 1, m);
      PairUpdateKeepsMomentum(PairRow(acc, bodies, i, j - 1, m), bodies, sb, i, j - 1, m);
    }
  }

  lemma {:induction false} PairPassKeepsMomentum(acc: seq<Vector3>, bodies: seq<OrbitalBody>, sb: nat, i: nat, m: Libm)
    requires |acc| == |bodies| && i <= sb <= |bodies|
    ensures Momentum(PairPass(acc, bodies, sb, i, m), bodies, sb) == Momentum(acc, bodies, sb)
  {
    if i > 0 {
      PairPassKeepsMomentum(acc, bodies, sb, i - 1, m);
      PairRowKeepsMomentum(PairPass(acc, bodies, sb, i - 1, m), bodies, sb, i - 1, sb, m);
    }
  }

  lemma {:induction false} MomentumOfZeros(bodies: seq<OrbitalBody>, k: nat)
    requires k <= |bodies|
    ensures Momentum(Zeros(|bodies|), bodies, k) == Zero
  {
    if k > 0 {
      MomentumOfZeros(bodies, k - 1);
    }
  }

  lemma {:induction false} MomentumOfAgreeing(a: seq<Vector3>, b: seq<Vector3>, bodies: seq<OrbitalBody>, k: nat)
    requires k <= |a| && |a| == |b| == |bodies|
    requires forall t :: 0 <= t < k ==> a[t] == b[t]
    ensures Momentum(a, bodies, k) == Momentum(b, bodies, k)
  {
    if k > 0 {
      MomentumOfAgreeing(a, b, bodies, k - 1);
    }
  }

  /**
   * Newton's third law over the whole system: the mass-weighted sum of the
   * system bodies' accelerations is zero, whatever the asteroids do.
   */
  lemma SystemMomentumVanishes(config: SimConfig, bodies: seq<OrbitalBody>, sb: nat, m: Libm)
    requires ForceShape(config, |bodies|, sb)
    ensures Momentum(Accelerations(config, bodies, sb, m), bodies, sb) == Zero
  {
    var zeros := Zeros(|bodies|);
    var pairs := PairPass(zeros, bodies, sb, sb, m);
    PairPassKeepsMomentum(zeros, bodies, sb, sb, m);
    MomentumOfZeros(bodies, sb);
    MomentumOfAgreeing(Accelerations(config, bodies, sb, m), pairs, bodies, sb);
  }

  // ---------------------------------------------------------------------
  // No asteroid pulls anything
  // ---------------------------------------------------------------------

  lemma {:induction false} PairRowReadsOnlySystemBodies(acc: seq<Vector3>, b1: seq<OrbitalBody>, b2: seq<OrbitalBody>,
      sb: nat, i: nat, j: nat, m: Libm)
    requires |acc| == |b1| == |b2| && i < j <= sb <= |b1|
    requires forall t :: 0 <= t < sb ==> b1[t] == b2[t]
    ensures PairRow(acc, b1, i, j, m) == PairRow(acc, b2, i, j, m)
    decreases j
  {
    if j > i + 1 {
      PairRowReadsOnlySystemBodies(acc, b1, b2, sb, i, j - 1, m);
    }
  }

  lemma {:induction false} PairPassReadsOnlySystemBodies(acc: seq<Vector3>, b1: seq<OrbitalBody>, b2: seq<OrbitalBody>,
      sb: nat, i: nat, m: Libm)
    requires |acc| == |b1| == |b2| && i <= sb <= |b1|
    requires forall t :: 0 <= t < sb ==> b1[t] == b2[t]
    ensures PairPass(acc, b1, sb, i, m) == PairPass(acc, b2, sb, i, m)
  {
    if i > 0 {
      PairPassReadsOnlySystemBodies(acc, b1, b2, sb, i - 1, m);
      PairRowReadsOnlySystemBodies(PairPass(acc, b1, sb, i - 1, m), b1, b2, sb, i - 1, sb, m);
    }
  }

  lemma {:induction false} PlanetPullsReadOnlyPlanets(base: Vector3, b1: seq<OrbitalBody>, b2: seq<OrbitalBody>,
      k: nat, upto: nat)
    requires |b1| == |b2| && k < |b1| && upto <= |b1|
    requires b1[k] == b2[k]
    requires forall t :: 0 <= t < upto ==> b1[t] == b2[t]
    ensures PlanetPulls(base, b1, k, upto) == PlanetPulls(base, b2, k, upto)
  {
    if upto > 1 {
      PlanetPullsReadOnlyPlanets(base, b1, b2, k, upto - 1);
    }
  }

  /**
   * The tiers never let an asteroid pull: when the secondary sources of
   * pass 3 are system bodies, every entry of the buffer is determined by
   * the system bodies and by the body itself. Two body arrays that agree on
   * the system bodies give the same acceleration to every system body and
   * to every asteroid they agree on, however the other asteroids differ.
   */
  lemma AsteroidsPullNothing(config: SimConfig, b1: seq<OrbitalBody>, b2: seq<OrbitalBody>, sb: nat, k: nat, m: Libm)
    requires |b1| == |b2| && ForceShape(config, |b1|, sb) && k < |b1|
    requires 1 <= sb && PresetShape(config.systemType, sb)
    requires forall t :: 0 <= t < sb ==> b1[t] == b2[t]
    requires sb <= k ==> b1[k] == b2[k]
    ensures Accelerations(config, b1, sb, m)[k] == Accelerations(config, b2, sb, m)[k]
  {
    PairPassReadsOnlySystemBodies(Zeros(|b1|), b1, b2, sb, sb, m);
    if sb <= k {
      assert PrimaryPull(config, b1, k, m) == PrimaryPull(config, b2, k, m);
      PlanetPullsReadOnlyPlanets(PrimaryPull(config, b1, k, m), b1, b2, k, sb);
    }
  }
}
