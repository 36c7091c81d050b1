/**
 * The black hole: its creation state, its two-way pull with every live
 * body (`ComputeBlackHoleAcceleration`), and absorption
 * (`HandleBlackHoleCollision`), which kills bodies and grows the hole.
 */
module BlackHoles {
  import opened Raymath
  import opened OrbitalTypes
  import opened Gravity
  import opened HolePull

  /** The black hole that `createBlackHole` installs at `position`. */
  function NewBlackHole(position: Vector3): (h: BlackHole)
    ensures h.isActive && h.position == position && h.velocity == Zero && h.acceleration == Zero
    ensures h.mass == 10.0 * SolarMass && h.growthRate == 1e3
    ensures h.eventHorizonRadius == 2.95 * 10.0 * 1e6 && h.radius == 200.0 * h.eventHorizonRadius
  {
    var mass := 10.0 * SolarMass;
    var horizon := 2.95 * (mass / SolarMass) * 1e6;
    BlackHole(position, Zero, Zero, mass, 200.0 * horizon, horizon, true, 1e3)
  }

  // ---------------------------------------------------------------------
  // The two-way pull
  // ---------------------------------------------------------------------

  /**
   * The pull between the hole and one body: the first component is added to
   * the body's acceleration, the second to the hole's.
   */
  function BlackHoleTerms(hole: BlackHole, body: OrbitalBody, m: Libm): (Vector3, Vector3) {
    var r := Subtract(body.position, hole.position);
    PullTerms(r, LengthSqr(r), hole.mass, body.mass, m)
  }

  /**
   * For non-negative masses the body is pulled towards the hole and the
   * hole towards the body, strictly for a massive hole at a different
   * position, and neither pull exceeds the floor's cap G·M / 1E29 times
   * their distance, M being the mass of the other party.
   */
  lemma HoleAndBodyAttract(hole: BlackHole, body: OrbitalBody, m: Libm)
    requires 0.0 <= hole.mass && 0.0 <= body.mass
    ensures var r := Subtract(body.position, hole.position);
            var t := BlackHoleTerms(hole, body, m);
            && Dot(t.0, r) <= 0.0
            && (0.0 < LengthSqr(r) && 0.0 < hole.mass ==> Dot(t.0, r) < 0.0)
            && 0.0 <= Dot(t.1, r)
            && LengthSqr(t.0) <= (G / MinDistanceCubed * hole.mass) * (G / MinDistanceCubed * hole.mass) * LengthSqr(r)
            && LengthSqr(t.1) <= (G / MinDistanceCubed * body.mass) * (G / MinDistanceCubed * body.mass) * LengthSqr(r)
  {
    var r := Subtract(body.position, hole.position);
    HolePullIsRegularised(r, LengthSqr(r), hole.mass, body.mass, m);
  }

  /** The hole's accumulated acceleration after the bodies before index k. */
  function HoleAcceleration(hole: BlackHole, bodies: seq<OrbitalBody>, k: nat, m: Libm): Vector3
    requires k <= |bodies|
  {
    if k == 0 then hole.acceleration
    else
      var prev := HoleAcceleration(hole, bodies, k - 1, m);
      if bodies[k - 1].isAlive then Add(prev, BlackHoleTerms(hole, bodies[k - 1], m).1) else prev
  }

  /** A dead body does not pull the hole: replacing it by any other dead body leaves the hole's acceleration unchanged. */
  lemma {:induction false} DeadBodyDoesNotPullTheHole(hole: BlackHole, b1: seq<OrbitalBody>, b2: seq<OrbitalBody>,
      d: nat, k: nat, m: Libm)
    requires k <= |b1| && AgreeExceptDead(b1, b2, d)
    ensures HoleAcceleration(hole, b1, k, m) == HoleAcceleration(hole, b2, k, m)
  {
    if k > 0 {
      DeadBodyDoesNotPullTheHole(hole, b1, b2, d, k - 1, m);
    }
  }

  /** The weighted pulls of the hole on the live bodies before index k. */
  function HolePullMomentum(hole: BlackHole, bodies: seq<OrbitalBody>, k: nat, m: Libm): Vector3
    requires k <= |bodies|
  {
    if k == 0 then Zero
    else
      var prev := HolePullMomentum(hole, bodies, k - 1, m);
      var body := bodies[k - 1];
      if body.isAlive
      then
        var w := ReactionWeight(LengthSqr(Subtract(body.position, hole.position)), body.mass, m);
        Add(prev, Scale(BlackHoleTerms(hole, body, m).0, w))
      else prev
  }

  /**
   * The hole's reaction over the whole pass: starting from a zeroed
   * acceleration, the hole's mass times its accumulated acceleration
   * cancels the weighted pulls it exerts on the live bodies, so above the
   * floor the pass as a whole obeys Newton's third law.
   */
  lemma {:induction false} HoleReactionBalances(hole: BlackHole, bodies: seq<OrbitalBody>, k: nat, m: Libm)
    requires k <= |bodies| && hole.acceleration == Zero
    ensures Add(Scale(HoleAcceleration(hole, bodies, k, m), hole.mass), HolePullMomentum(hole, bodies, k, m)) == Zero
  {
    if k > 0 {
      HoleReactionBalances(hole, bodies, k - 1, m);
      var body := bodies[k - 1];
      if body.isAlive {
        var t := BlackHoleTerms(hole, body, m);
        var r := Subtract(body.position, hole.position);
        var w := ReactionWeight(LengthSqr(r), body.mass, m);
        HoleThirdLaw(r, LengthSqr(r), hole.mass, body.mass, m);
        BalanceStep(HoleAcceleration(hole, bodies, k - 1, m), HolePullMomentum(hole, bodies, k - 1, m),
                    t.0, t.1, hole.mass, w);
      }
    }
  }

  /** Adding a balanced pair of terms to a balanced sum keeps it balanced. */
  lemma BalanceStep(a: Vector3, p: Vector3, onBody: Vector3, onHole: Vector3, mass: real, w: real)
    requires Add(Scale(a, mass), p) == Zero
    requires Add(Scale(onBody, w), Scale(onHole, mass)) == Zero
    ensures Add(Scale(Add(a, onHole), mass), Add(p, Scale(onBody, w))) == Zero
  {
    assert (a.x + onHole.x) * mass == a.x * mass + onHole.x * mass;
    assert (a.y + onHole.y) * mass == a.y * mass + onHole.y * mass;
    assert (a.z + onHole.z) * mass == a.z * mass + onHole.z * mass;
  }

  /** The body accelerations after the hole's pull has been added to every live body. */
  function WithHolePull(acc: seq<Vector3>, hole: BlackHole, bodies: seq<OrbitalBody>, m: Libm): (r: seq<Vector3>)
    requires |acc| == |bodies|
    ensures |r| == |acc|
    ensures forall k :: 0 <= k < |r| && !bodies[k].isAlive ==> r[k] == acc[k]
  {
    seq(|acc|, k requires 0 <= k < |acc| =>
      if bodies[k].isAlive then Add(acc[k], BlackHoleTerms(hole, bodies[k], m).0) else acc[k])
  }

  /** The two terms for `bodies[i]`, as the source computes them. */
  method HoleContribution(hole: BlackHole, bodies: array<OrbitalBody>, i: int, m: Libm) returns (onBody: Vector3, onHole: Vector3)
    requires 0 <= i < bodies.Length
    ensures onBody == BlackHoleTerms(hole, bodies[i], m).0
    ensures onHole == BlackHoleTerms(hole, bodies[i], m).1
  {
    var body := bodies[i];
    var rVec := Subtract(body.position, hole.position);
    var r2 := LengthSqr(rVec);
    var rc := Cubed(r2, m);
    if rc > MinDistanceCubed {
      onBody := Scale(rVec, -(G * hole.mass / rc));
      onHole := Scale(rVec, G * body.mass / rc);
      TermsAboveFloor(rVec, r2, hole.mass, body.mass, m);
    } else {
      onBody := Scale(rVec, -(G * hole.mass / MinDistanceCubed));
      onHole := Scale(rVec, 0.01 * G * body.mass / MinDistanceCubed);
      TermsOnFloor(rVec, r2, hole.mass, body.mass, m);
    }
  }

  /**
   * ComputeBlackHoleAcceleration: adds the hole's pull to every live body's
   * acceleration and accumulates the bodies' pull into the hole's own.
   */
  method ComputeBlackHoleAcceleration(hole: BlackHole, bodies: array<OrbitalBody>,
      accelerations: array<Vector3>, n: int, m: Libm) returns (h: BlackHole)
    requires bodies.Length == n && accelerations.Length == n
    modifies accelerations
    ensures h == hole.(acceleration := HoleAcceleration(hole, bodies[..], n, m))
    ensures accelerations[..] == WithHolePull(old(accelerations[..]), hole, bodies[..], m)
  {
    h := hole;
    var i := 0;
    while i < n
      invariant 0 <= i <= n
      invariant h == hole.(acceleration := HoleAcceleration(hole, bodies[..], i, m))
      invariant forall k :: 0 <= k < i ==> accelerations[k] == WithHolePull(old(accelerations[..]), hole, bodies[..], m)[k]
      invariant forall k :: i <= k < n ==> accelerations[k] == old(accelerations[k])
    {
      if bodies[i].isAlive {
        var onBody, onHole := HoleContribution(hole, bodies, i, m);
        accelerations[i] := Add(accelerations[i], onBody);
        h := h.(acceleration := Add(h.acceleration, onHole));
      }
      i := i + 1;
    }
  }

  // ---------------------------------------------------------------------
  // Absorption
  // ---------------------------------------------------------------------

  /**
   * The capture radius for `body`: the hole's radius, or 5% of the body's
   * distance from the origin when that is larger.
   */
  function AccretionRadius(hole: BlackHole, body: OrbitalBody, m: Libm): real {
    Max(hole.radius, 0.05 * Length(body.position, m))
  }

  /** Whether the hole, in its current state, swallows `body`. */
  predicate Absorbs(hole: BlackHole, body: OrbitalBody, m: Libm) {
    body.isAlive && Length(Subtract(body.position, hole.position), m) < AccretionRadius(hole, body, m)
  }

  /** The hole after swallowing `body`. */
  function Absorb(hole: BlackHole, body: OrbitalBody): BlackHole {
    var mass := hole.mass + body.mass;
    hole.(mass := mass,
          radius := hole.radius + hole.growthRate,
          eventHorizonRadius := 2.95 * (mass / SolarMass) * 1e3)
  }

  /**
   * The hole after the collision loop has visited the bodies before index
   * k; later bodies see the hole grown by earlier ones. Only mass, radius
   * and event-horizon radius ever change.
   */
  function HoleAfter(hole: BlackHole, bodies: seq<OrbitalBody>, k: nat, m: Libm): (h: BlackHole)
    requires k <= |bodies|
    ensures h.position == hole.position && h.velocity == hole.velocity
    ensures h.acceleration == hole.acceleration && h.isActive == hole.isActive
    ensures h.growthRate == hole.growthRate
  {
    if k == 0 then hole
    else
      var prev := HoleAfter(hole, bodies, k - 1, m);
      if Absorbs(prev, bodies[k - 1], m) then Absorb(prev, bodies[k - 1]) else prev
  }

  /** The bodies after the collision loop, each judged against the hole as grown so far. */
  function BodiesAfter(hole: BlackHole, bodies: seq<OrbitalBody>, m: Libm): (r: seq<OrbitalBody>)
    ensures |r| == |bodies|
  {
    seq(|bodies|, k requires 0 <= k < |bodies| =>
      if Absorbs(HoleAfter(hole, bodies, k, m), bodies[k], m) then bodies[k].(isAlive := false) else bodies[k])
  }

  /**
   * HandleBlackHoleCollision: visits every live body once, killing it and
   * growing the hole when it lies within the accretion radius.
   */
  method HandleBlackHoleCollision(hole: BlackHole, bodies: array<OrbitalBody>, n: int, m: Libm) returns (h: BlackHole)
    requires bodies.Length == n
    modifies bodies
    ensures h == HoleAfter(hole, old(bodies[..]), n, m)
    ensures bodies[..] == BodiesAfter(hole, old(bodies[..]), m)
  {
    ghost var bs := bodies[..];
    ghost var after := BodiesAfter(hole, bs, m);
    h := hole;
    var i := 0;
    while i < n
      invariant 0 <= i <= n
      invariant h == HoleAfter(hole, bs, i, m)
      invariant bodies[..i] == after[..i]
      invariant bodies[i..] == bs[i..]
    {
      var body;
      h, body := Collide(h, bodies[i], m);
      CollisionStep(hole, bs, i, m);
      assert bodies[i] == bs[i];
      bodies[i] := body;
      assert bodies[..i + 1] == after[..i + 1];
      i := i + 1;
    }
    assert bodies[..] == bodies[..n];
  }

  lemma CollisionStep(hole: BlackHole, bodies: seq<OrbitalBody>, i: nat, m: Libm)
    requires i < |bodies|
    ensures var prev := HoleAfter(hole, bodies, i, m);
            && HoleAfter(hole, bodies, i + 1, m)
               == (if Absorbs(prev, bodies[i], m) then Absorb(prev, bodies[i]) else prev)
            && BodiesAfter(hole, bodies, m)[i]
               == (if Absorbs(prev, bodies[i], m) then bodies[i].(isAlive := false) else bodies[i])
  {
  }

  /** One iteration of the collision loop, for one body. */
  method Collide(hole: BlackHole, body: OrbitalBody, m: Libm) returns (h: BlackHole, b: OrbitalBody)
    ensures h == (if Absorbs(hole, body, m) then Absorb(hole, body) else hole)
    ensures b == (if Absorbs(hole, body, m) then body.(isAlive := false) else body)
  {
    h, b := hole, body;
    if b.isAlive {
      var accretionRadius := Max(h.radius, 0.05 * Length(b.position, m));
      var distance := Length(Subtract(b.position, h.position), m);
      if distance < accretionRadius {
        b := b.(isAlive := false);
        h := h.(mass := h.mass + b.mass);
        h := h.(radius := h.radius + h.growthRate);
        h := h.(eventHorizonRadius := 2.95 * (h.mass / SolarMass) * 1e3);
      }
    }
  }

  // ---------------------------------------------------------------------
  // What absorption guarantees
  // ---------------------------------------------------------------------

  /** The total mass of the live bodies among the first k. */
  function LiveMass(s: seq<OrbitalBody>, k: nat): real
    requires k <= |s|
  {
    if k == 0 then 0.0 else LiveMass(s, k - 1) + (if s[k - 1].isAlive then s[k - 1].mass else 0.0)
  }

  /** The number of live bodies among the first k. */
  function LiveCount(s: seq<OrbitalBody>, k: nat): nat
    requires k <= |s|
  {
    if k == 0 then 0 else LiveCount(s, k - 1) + (if s[k - 1].isAlive then 1 else 0)
  }

  /**
   * A collision pass only kills: every body is either untouched or was alive
   * and is now dead with nothing else changed. No body is revived.
   */
  lemma CollisionOnlyKills(hole: BlackHole, bodies: seq<OrbitalBody>, m: Libm)
    ensures forall k :: 0 <= k < |bodies| ==>
              || BodiesAfter(hole, bodies, m)[k] == bodies[k]
              || (bodies[k].isAlive && BodiesAfter(hole, bodies, m)[k] == bodies[k].(isAlive := false))
  {
  }

  /** How many bodies the collision loop swallows among the first k. */
  function AbsorbedCount(hole: BlackHole, bodies: seq<OrbitalBody>, k: nat, m: Libm): nat
    requires k <= |bodies|
  {
    if k == 0 then 0
    else AbsorbedCount(hole, bodies, k - 1, m)
         + (if Absorbs(HoleAfter(hole, bodies, k - 1, m), bodies[k - 1], m) then 1 else 0)
  }

  lemma {:induction false} HoleMassAfter(hole: BlackHole, bodies: seq<OrbitalBody>, k: nat, m: Libm)
    requires k <= |bodies|
    ensures HoleAfter(hole, bodies, k, m).mass + LiveMass(BodiesAfter(hole, bodies, m), k)
         == hole.mass + LiveMass(bodies, k)
  {
    if k > 0 {
      HoleMassAfter(hole, bodies, k - 1, m);
    }
  }

  /** The radius gained by `n` absorptions at growth rate `g`. */
  function Growth(n: nat, g: real): real {
    if n == 0 then 0.0 else Growth(n - 1, g) + g
  }

  lemma {:induction false} GrowthIsLinear(n: nat, g: real)
    ensures Growth(n, g) == (n as real) * g
  {
    if n > 0 {
      GrowthIsLinear(n - 1, g);
      assert ((n - 1) as real) * g + g == (n as real) * g;
    }
  }

  lemma {:induction false} HoleRadiusAfter(hole: BlackHole, bodies: seq<OrbitalBody>, k: nat, m: Libm)
    requires k <= |bodies|
    ensures HoleAfter(hole, bodies, k, m).radius
         == hole.radius + Growth(AbsorbedCount(hole, bodies, k, m), hole.growthRate)
  {
    if k > 0 {
      HoleRadiusAfter(hole, bodies, k - 1, m);
    }
  }

  lemma {:induction false} LiveCountAfter(hole: BlackHole, bodies: seq<OrbitalBody>, k: nat, m: Libm)
    requires k <= |bodies|
    ensures LiveCount(BodiesAfter(hole, bodies, m), k) + AbsorbedCount(hole, bodies, k, m)
         == LiveCount(bodies, k)
  {
    if k > 0 {
      LiveCountAfter(hole, bodies, k - 1, m);
    }
  }

  /**
   * Mass is conserved by a collision pass: whatever the hole gains, the live
   * bodies lose. Each absorbed body adds exactly its own mass.
   */
  lemma CollisionConservesMass(hole: BlackHole, bodies: seq<OrbitalBody>, m: Libm)
    ensures HoleAfter(hole, bodies, |bodies|, m).mass + LiveMass(BodiesAfter(hole, bodies, m), |bodies|)
         == hole.mass + LiveMass(bodies, |bodies|)
  {
    HoleMassAfter(hole, bodies, |bodies|, m);
  }

  /**
   * The radius grows by exactly `growthRate` per absorbed body, and the
   * absorbed bodies are exactly the live bodies that the pass killed.
   */
  lemma CollisionGrowsRadius(hole: BlackHole, bodies: seq<OrbitalBody>, m: Libm)
    ensures var absorbed := LiveCount(bodies, |bodies|) - LiveCount(BodiesAfter(hole, bodies, m), |bodies|);
            && absorbed >= 0
            && HoleAfter(hole, bodies, |bodies|, m).radius == hole.radius + Growth(absorbed, hole.growthRate)
  {
    HoleRadiusAfter(hole, bodies, |bodies|, m);
    LiveCountAfter(hole, bodies, |bodies|, m);
  }

  /** In closed form: the radius after the pass is the old radius plus `growthRate` times the number absorbed. */
  lemma CollisionRadiusClosedForm(hole: BlackHole, bodies: seq<OrbitalBody>, m: Libm)
    ensures HoleAfter(hole, bodies, |bodies|, m).radius
         == hole.radius + (AbsorbedCount(hole, bodies, |bodies|, m) as real) * hole.growthRate
  {
    var n := AbsorbedCount(hole, bodies, |bodies|, m);
    var g := hole.growthRate;
    HoleRadiusAfter(hole, bodies, |bodies|, m);
    assert HoleAfter(hole, bodies, |bodies|, m).radius == hole.radius + Growth(n, g);
    GrowthIsLinear(n, g);
  }

  lemma {:induction false} AbsorbedCountGrows(hole: BlackHole, bodies: seq<OrbitalBody>, j: nat, k: nat, m: Libm)
    requires j <= k <= |bodies|
    ensures AbsorbedCount(hole, bodies, j, m) <= AbsorbedCount(hole, bodies, k, m)
  {
    if j < k {
      AbsorbedCountGrows(hole, bodies, j, k - 1, m);
    }
  }

  /**
   * Once the loop swallows any body, the pass ends with strictly fewer live
   * bodies than it started with.
   */
  lemma AbsorptionLowersLiveCount(hole: BlackHole, bodies: seq<OrbitalBody>, k: nat, m: Libm)
    requires k < |bodies| && Absorbs(HoleAfter(hole, bodies, k, m), bodies[k], m)
    ensures LiveCount(BodiesAfter(hole, bodies, m), |bodies|) < LiveCount(bodies, |bodies|)
  {
    AbsorbedCountGrows(hole, bodies, k + 1, |bodies|, m);
    LiveCountAfter(hole, bodies, |bodies|, m);
  }

  /**
   * With a non-negative growth rate and non-negative live masses, the hole
   * never shrinks: mass and radius after any prefix of the loop are at least
   * their values before it.
   */
  lemma {:induction false} CollisionNeverShrinks(hole: BlackHole, bodies: seq<OrbitalBody>, k: nat, m: Libm)
    requires k <= |bodies| && 0.0 <= hole.growthRate
    requires forall t :: 0 <= t < |bodies| && bodies[t].isAlive ==> 0.0 <= bodies[t].mass
    ensures hole.mass <= HoleAfter(hole, bodies, k, m).mass
    ensures hole.radius <= HoleAfter(hole, bodies, k, m).radius
  {
    if k > 0 {
      CollisionNeverShrinks(hole, bodies, k - 1, m);
    }
  }

  /**
   * A live body sitting exactly at the hole's position is swallowed by a
   * hole of positive radius and non-negative growth rate. Of the math
   * library it needs only that the zero vector has length zero, which
   * `Raymath.LengthOfZero` derives from `SqrtSound` and `LengthSound`.
   */
  lemma BodyAtTheHoleIsAbsorbed(hole: BlackHole, bodies: seq<OrbitalBody>, k: nat, m: Libm)
    requires Length(Zero, m) == 0.0 && k < |bodies|
    requires 0.0 < hole.radius && 0.0 <= hole.growthRate
    requires forall t :: 0 <= t < |bodies| && bodies[t].isAlive ==> 0.0 <= bodies[t].mass
    requires bodies[k].isAlive && bodies[k].position == hole.position
    ensures !BodiesAfter(hole, bodies, m)[k].isAlive
  {
    CollisionNeverShrinks(hole, bodies, k, m);
    CentreIsAbsorbed(HoleAfter(hole, bodies, k, m), bodies[k], m);
  }

  /** A hole of positive radius swallows a live body at its own centre. */
  lemma CentreIsAbsorbed(hole: BlackHole, body: OrbitalBody, m: Libm)
    requires Length(Zero, m) == 0.0 && 0.0 < hole.radius
    requires body.isAlive && body.position == hole.position
    ensures Absorbs(hole, body, m)
  {
    assert Subtract(body.position, hole.position) == Zero;
  }

  /**
   * The event-horizon radius is not monotonic: creation uses a factor 1E6,
   * absorption a factor 1E3, so a fresh hole that swallows any body lighter
   * than 9990 solar masses ends up with a smaller event horizon.
   */
  lemma EventHorizonShrinksOnFirstAbsorption(position: Vector3, body: OrbitalBody)
    requires 0.0 <= body.mass < 9990.0 * SolarMass
    ensures Absorb(NewBlackHole(position), body).eventHorizonRadius < NewBlackHole(position).eventHorizonRadius
  {
    var h := NewBlackHole(position);
    var q := (h.mass + body.mass) / SolarMass;
    assert q < 10000.0;
  }
}
