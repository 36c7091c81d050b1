/**
 * Three-component vectors over the reals, standing in for raylib's
 * `Vector3` and the `Vector3*` helpers of raymath, and the handful of
 * libm functions the simulation calls (`sqrt`/`sqrtf`, `sinf`, `cosf`).
 *
 * The libm functions are not defined here: they are passed around as a
 * `Libm` record of function values. `SqrtSound`, `TrigSound` and
 * `LengthSound` state the facts a lemma may assume of them, and each lemma
 * names the ones it needs.
 */
module Raymath {

  datatype Vector3 = Vector3(x: real, y: real, z: real)

  const Zero: Vector3 := Vector3(0.0, 0.0, 0.0)

  /** Vector3Add */
  function Add(a: Vector3, b: Vector3): Vector3 {
    Vector3(a.x + b.x, a.y + b.y, a.z + b.z)
  }

  /** Vector3Subtract */
  function Subtract(a: Vector3, b: Vector3): Vector3 {
    Vector3(a.x - b.x, a.y - b.y, a.z - b.z)
  }

  /** Vector3Scale */
  function Scale(v: Vector3, s: real): Vector3 {
    Vector3(v.x * s, v.y * s, v.z * s)
  }

  /** Vector3DotProduct */
  function Dot(a: Vector3, b: Vector3): real {
    a.x * b.x + a.y * b.y + a.z * b.z
  }

  /** Vector3LengthSqr */
  function LengthSqr(v: Vector3): real {
    v.x * v.x + v.y * v.y + v.z * v.z
  }

  /**
   * The library functions the simulation calls, left abstract: libm's
   * `sqrt`/`sqrtf`, `sinf` and `cosf`, and raymath's `Vector3Length`.
   */
  datatype Libm = Libm(sqrt: real -> real, sin: real -> real, cos: real -> real, length: Vector3 -> real)

  /** `sqrt` is the non-negative square root on non-negative arguments. */
  ghost predicate SqrtSound(m: Libm) {
    && (forall t :: 0.0 <= t ==> 0.0 <= m.sqrt(t) && m.sqrt(t) * m.sqrt(t) == t)
    && m.sqrt(0.0) == 0.0
  }

  /** `sin`/`cos` lie on the unit circle and take their usual values at zero. */
  ghost predicate TrigSound(m: Libm) {
    && (forall t :: m.sin(t) * m.sin(t) + m.cos(t) * m.cos(t) == 1.0)
    && m.sin(0.0) == 0.0 && m.cos(0.0) == 1.0
  }

  /** The length of a vector is the square root of its squared length. */
  ghost predicate LengthSound(m: Libm) {
    forall v :: m.length(v) == m.sqrt(LengthSqr(v))
  }

  /** Vector3Length */
  function Length(v: Vector3, m: Libm): real {
    m.length(v)
  }

  /** fmaxf */
  function Max(a: real, b: real): real {
    if a >= b then a else b
  }

  lemma LengthOfZero(m: Libm)
    requires SqrtSound(m) && LengthSound(m)
    ensures Length(Zero, m) == 0.0
  {
    assert LengthSqr(Zero) == 0.0;
  }

  lemma LengthSqrNonNegative(v: Vector3)
    ensures 0.0 <= LengthSqr(v)
  {
    assert 0.0 <= v.x * v.x && 0.0 <= v.y * v.y && 0.0 <= v.z * v.z;
  }

  /** A multiple s·v projects onto v with s times its squared length. */
  lemma DotScale(v: Vector3, s: real)
    ensures Dot(Scale(v, s), v) == s * LengthSqr(v)
  {
    assert (v.x * s) * v.x == s * (v.x * v.x);
    assert (v.y * s) * v.y == s * (v.y * v.y);
    assert (v.z * s) * v.z == s * (v.z * v.z);
  }

  /** Scaling by s multiplies the squared length by s². */
  lemma LengthSqrScale(v: Vector3, s: real)
    ensures LengthSqr(Scale(v, s)) == s * s * LengthSqr(v)
  {
    assert (v.x * s) * (v.x * s) == s * s * (v.x * v.x);
    assert (v.y * s) * (v.y * s) == s * s * (v.y * v.y);
    assert (v.z * s) * (v.z * s) == s * s * (v.z * v.z);
  }

  /** A multiple s·v with |s| <= bound is at most bound times as long as v. */
  lemma ScaleWithin(v: Vector3, s: real, bound: real)
    requires -bound <= s <= bound
    ensures LengthSqr(Scale(v, s)) <= bound * bound * LengthSqr(v)
  {
    LengthSqrScale(v, s);
    LengthSqrNonNegative(v);
    var l := LengthSqr(v);
    if s >= 0.0 {
      assert s * s <= s * bound <= bound * bound;
    } else {
      assert s * s <= (-s) * bound <= bound * bound;
    }
    assert s * s * l <= bound * bound * l;
  }
}
