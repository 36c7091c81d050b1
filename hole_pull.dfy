/**
 * The pull between the black hole and one body, as a function of the
 * separation r = body - hole and its squared length r2: the regularised
 * inverse-cube coefficient of the pair pass, the one-hundredth reaction on
 * the floor, and the agreement of this form with the quotients the source
 * writes out on each branch.
 */
module HolePull {
  import opened Raymath
  import opened OrbitalTypes
  import opened Gravity

  /**
   * The two terms for a separation r = body - hole whose squared length is
   * r2, a hole of mass `holeMass` and a body of mass `mass`.
   */
  function PullTerms(r: Vector3, r2: real, holeMass: real, mass: real, m: Libm): (Vector3, Vector3) {
    var c := Coefficient(r2, m);
    (Scale(r, -(c * holeMass)), Scale(r, c * ReactionWeight(r2, mass, m)))
  }

  /**
   * Above the floor the two terms obey Newton's third law: the body's mass
   * times its term cancels the hole's mass times the hole's. On the floor
   * the hole's reaction is scaled down to one hundredth of it.
   */
  lemma HoleThirdLaw(r: Vector3, r2: real, holeMass: real, mass: real, m: Libm)
    ensures var t := PullTerms(r, r2, holeMass, mass, m);
            if Cubed(r2, m) > MinDistanceCubed
            then Add(Scale(t.0, mass), Scale(t.1, holeMass)) == Zero
            else Add(Scale(t.0, 0.01 * mass), Scale(t.1, holeMass)) == Zero
  {
    var c := Coefficient(r2, m);
    var w := ReactionWeight(r2, mass, m);
    var a, b := -(c * holeMass), c * w;
    assert a * w + b * holeMass == 0.0 by { assert a * w == -(c * w * holeMass); }
    ReactionCancels(r, a, b, w, holeMass);
    if Cubed(r2, m) > MinDistanceCubed {
      assert w == mass;
    } else {
      assert w == 0.01 * mass;
    }
  }

  /**
   * For non-negative masses the body's term points from the body towards
   * the hole (against r = body - hole), strictly so when the two are apart
   * and the hole has mass, and the hole's term points towards the body.
   * Neither term is longer than the floor's cap, G·M / MIN_DISTANCE_CUBED
   * times |r|, with M the mass of the other party.
   */
  lemma HolePullIsRegularised(r: Vector3, r2: real, holeMass: real, mass: real, m: Libm)
    requires r2 == LengthSqr(r) && 0.0 <= holeMass && 0.0 <= mass
    ensures var t := PullTerms(r, r2, holeMass, mass, m);
            && Dot(t.0, r) <= 0.0
            && (0.0 < r2 && 0.0 < holeMass ==> Dot(t.0, r) < 0.0)
            && 0.0 <= Dot(t.1, r)
            && LengthSqr(t.0) <= (G / MinDistanceCubed * holeMass) * (G / MinDistanceCubed * holeMass) * r2
            && LengthSqr(t.1) <= (G / MinDistanceCubed * mass) * (G / MinDistanceCubed * mass) * r2
  {
    var c := Coefficient(r2, m);
    var w := ReactionWeight(r2, mass, m);
    var cap := G / MinDistanceCubed;
    PullTermsAlongR(r, r2, holeMass, mass, m);
    assert 0.0 <= w <= mass;
    BodyTermCapped(r, c, cap, holeMass);
    HoleTermCapped(r, c, cap, w, mass);
  }

  /** For any coefficient 0 <= c <= cap, the term -(c·M)·r points against r and is at most cap·M·|r| long. */
  lemma BodyTermCapped(r: Vector3, c: real, cap: real, holeMass: real)
    requires 0.0 <= c <= cap && 0.0 <= holeMass
    ensures Dot(Scale(r, -(c * holeMass)), r) <= 0.0
    ensures 0.0 < LengthSqr(r) && 0.0 < c && 0.0 < holeMass ==> Dot(Scale(r, -(c * holeMass)), r) < 0.0
    ensures LengthSqr(Scale(r, -(c * holeMass))) <= (cap * holeMass) * (cap * holeMass) * LengthSqr(r)
  {
    WithinCap(c, cap, holeMass);
    PointsAgainst(r, c * holeMass, cap * holeMass);
  }

  /** For 0 <= c <= cap and 0 <= w <= mass, the term (c·w)·r points along r and is at most cap·mass·|r| long. */
  lemma HoleTermCapped(r: Vector3, c: real, cap: real, w: real, mass: real)
    requires 0.0 <= c <= cap && 0.0 <= w <= mass
    ensures 0.0 <= Dot(Scale(r, c * w), r)
    ensures LengthSqr(Scale(r, c * w)) <= (cap * mass) * (cap * mass) * LengthSqr(r)
  {
    ProductWithinCaps(c, cap, w, mass);
    PointsAlong(r, c * w, cap * mass);
  }

  /** 0 <= a <= b and 0 <= x give 0 <= a·x <= b·x, strictly positive when a and x are. */
  lemma WithinCap(a: real, b: real, x: real)
    requires 0.0 <= a <= b && 0.0 <= x
    ensures 0.0 <= a * x <= b * x
    ensures 0.0 < a && 0.0 < x ==> 0.0 < a * x
  {
  }

  /** 0 <= a <= b and 0 <= x <= y give 0 <= a·x <= b·y. */
  lemma ProductWithinCaps(a: real, b: real, x: real, y: real)
    requires 0.0 <= a <= b && 0.0 <= x <= y
    ensures 0.0 <= a * x <= b * y
  {
    WithinCap(a, b, x);
    WithinCap(x, y, b);
    assert x * b == b * x && y * b == b * y;
    AtMostChain(a * x, b * x, b * y);
  }

  lemma AtMostChain(p: real, q: real, s: real)
    requires p <= q && q <= s
    ensures p <= s
  {
  }

  /** The term -k·r with 0 <= k <= bound points against r and is at most bound·|r| long. */
  lemma PointsAgainst(r: Vector3, k: real, bound: real)
    requires 0.0 <= k <= bound
    ensures Dot(Scale(r, -k), r) <= 0.0
    ensures 0.0 < LengthSqr(r) && 0.0 < k ==> Dot(Scale(r, -k), r) < 0.0
    ensures LengthSqr(Scale(r, -k)) <= bound * bound * LengthSqr(r)
  {
    DotScale(r, -k);
    LengthSqrNonNegative(r);
    ScaleWithin(r, -k, bound);
    if 0.0 < LengthSqr(r) && 0.0 < k {
      assert 0.0 < k * LengthSqr(r);
    }
  }

  /** The term k·r with 0 <= k <= bound points along r and is at most bound·|r| long. */
  lemma PointsAlong(r: Vector3, k: real, bound: real)
    requires 0.0 <= k <= bound
    ensures 0.0 <= Dot(Scale(r, k), r)
    ensures LengthSqr(Scale(r, k)) <= bound * bound * LengthSqr(r)
  {
    DotScale(r, k);
    LengthSqrNonNegative(r);
    ScaleWithin(r, k, bound);
  }

  /** Both terms are multiples of r by the regularised coefficient c. */
  lemma PullTermsAlongR(r: Vector3, r2: real, holeMass: real, mass: real, m: Libm)
    ensures var c := Coefficient(r2, m);
            var t := PullTerms(r, r2, holeMass, mass, m);
            && t.0 == Scale(r, -(c * holeMass))
            && t.1 == Scale(r, c * ReactionWeight(r2, mass, m))
  {
  }

  /**
   * The weight a body's pull balances against: the body's mass above the
   * floor, one hundredth of it on the floor.
   */
  function ReactionWeight(r2: real, mass: real, m: Libm): real {
    if Cubed(r2, m) > MinDistanceCubed then mass else 0.01 * mass
  }

  lemma QuotientAsProduct(g: real, mass: real, d: real, c: real)
    requires d != 0.0 && c == g / d
    ensures g * mass / d == c * mass
  {
  }

  /** The cubed distance |r|^3, from the squared distance. */
  function Cubed(r2: real, m: Libm): real {
    r2 * m.sqrt(r2)
  }

  /** Two terms along the same vector whose weighted scalars cancel, cancel. */
  lemma ReactionCancels(r: Vector3, a: real, b: real, wa: real, wb: real)
    requires a * wa + b * wb == 0.0
    ensures Add(Scale(Scale(r, a), wa), Scale(Scale(r, b), wb)) == Zero
  {
    var s := a * wa + b * wb;
    var v := Add(Scale(Scale(r, a), wa), Scale(Scale(r, b), wb));
    assert v.x == r.x * s == 0.0;
    assert v.y == r.y * s == 0.0;
    assert v.z == r.z * s == 0.0;
  }

  /** Above the floor the terms are the source's quotients by |r|^3. */
  lemma TermsAboveFloor(r: Vector3, r2: real, holeMass: real, mass: real, m: Libm)
    requires Cubed(r2, m) > MinDistanceCubed
    ensures PullTerms(r, r2, holeMass, mass, m).0 == Scale(r, -(G * holeMass / Cubed(r2, m)))
    ensures PullTerms(r, r2, holeMass, mass, m).1 == Scale(r, G * mass / Cubed(r2, m))
  {
    PullTermsAlongR(r, r2, holeMass, mass, m);
    QuotientsAboveFloor(r2, m, holeMass, mass);
  }

  /** On the floor the terms are the source's quotients by the floor, the reaction scaled by one hundredth. */
  lemma TermsOnFloor(r: Vector3, r2: real, holeMass: real, mass: real, m: Libm)
    requires Cubed(r2, m) <= MinDistanceCubed
    ensures PullTerms(r, r2, holeMass, mass, m).0 == Scale(r, -(G * holeMass / MinDistanceCubed))
    ensures PullTerms(r, r2, holeMass, mass, m).1 == Scale(r, 0.01 * G * mass / MinDistanceCubed)
  {
    PullTermsAlongR(r, r2, holeMass, mass, m);
    QuotientsOnFloor(r2, m, holeMass, mass);
  }

  /** Above the floor the regularised coefficient times a mass is the source's quotient by |r|^3. */
  lemma QuotientsAboveFloor(r2: real, m: Libm, holeMass: real, mass: real)
    requires Cubed(r2, m) > MinDistanceCubed
    ensures Coefficient(r2, m) * holeMass == G * holeMass / Cubed(r2, m)
    ensures Coefficient(r2, m) * mass == G * mass / Cubed(r2, m)
  {
    var c := Coefficient(r2, m);
    var d := Cubed(r2, m);
    assert c == G / d by { CoefficientAboveFloor(r2, m); }
    QuotientAsProduct(G, holeMass, d, c);
    QuotientAsProduct(G, mass, d, c);
  }

  /** Above the floor the coefficient is G / |r|^3. */
  lemma CoefficientAboveFloor(r2: real, m: Libm)
    requires Cubed(r2, m) > MinDistanceCubed
    ensures Coefficient(r2, m) == G / Cubed(r2, m)
  {
  }

  /**
   * On the floor the regularised coefficient times a mass is the source's
   * quotient by the floor, the reaction scaled by one hundredth.
   */
  lemma QuotientsOnFloor(r2: real, m: Libm, holeMass: real, mass: real)
    requires Cubed(r2, m) <= MinDistanceCubed
    ensures Coefficient(r2, m) * holeMass == G * holeMass / MinDistanceCubed
    ensures Coefficient(r2, m) * (0.01 * mass) == 0.01 * G * mass / MinDistanceCubed
  {
    var c := Coefficient(r2, m);
    assert c == G / MinDistanceCubed;
    QuotientAsProduct(G, holeMass, MinDistanceCubed, c);
    QuotientAsProduct(0.01 * G, mass, MinDistanceCubed, 0.01 * c);
    assert (0.01 * c) * mass == c * (0.01 * mass);
  }
}
