/**
 * The rotation of the ferris-wheel skeleton in ferrisWheel.js: its z angle advances by
 * the rotation speed once per frame and is reduced with JavaScript's remainder.
 */
module WheelAngle {
  import opened JsNumber

  /** Degrees the skeleton turns per frame. */
  const RotationSpeed: int := 1
  /** Degrees in a full turn. */
  const FullTurn: int := 360

  /** The skeleton's z angle after one frame: `(theta[2] + rotationSpeed) % 360`. */
  function NextAngle(t: int): (r: int)
    ensures 0 <= t ==> 0 <= r < FullTurn
  {
    JsRem(t + RotationSpeed, FullTurn)
  }

  /** The angle after `n` frames. */
  function AngleAfter(t: int, n: nat): int
  {
    if n == 0 then t else NextAngle(AngleAfter(t, n - 1))
  }

  /** Adding one to a remainder modulo 360 and reducing again is reducing the successor. */
  lemma RemSucc(x: int)
    requires x >= 0
    ensures JsRem(x % FullTurn + RotationSpeed, FullTurn) == (x + 1) % FullTurn
  {
  }

  /** From an angle in [0, 360), `n` frames later the skeleton is at `(t + n) mod 360`. */
  lemma {:induction false} AngleAfterIsSum(t: int, n: nat)
    requires 0 <= t < FullTurn
    ensures AngleAfter(t, n) == (t + n) % FullTurn
  {
    if n > 0 {
      AngleAfterIsSum(t, n - 1);
      RemSucc(t + n - 1);
    }
  }

  /** The angle stays in [0, 360) frame after frame. */
  lemma AngleInRange(t: int, n: nat)
    requires 0 <= t < FullTurn
    ensures 0 <= AngleAfter(t, n) < FullTurn
  {
    AngleAfterIsSum(t, n);
  }

  /** Every 360 frames the skeleton is back at the same angle. */
  lemma AnglePeriodic(t: int, n: nat)
    requires 0 <= t < FullTurn
    ensures AngleAfter(t, n + FullTurn) == AngleAfter(t, n)
  {
    AngleAfterIsSum(t, n);
    AngleAfterIsSum(t, n + FullTurn);
    RemFullTurn(t + n);
  }

  /** After one full turn of 360 frames the skeleton is back where it started. */
  lemma AngleFullTurn(t: int)
    requires 0 <= t < FullTurn
    ensures AngleAfter(t, FullTurn) == t
  {
    AnglePeriodic(t, 0);
  }

  /** A full turn more leaves the remainder modulo 360 as it was. */
  lemma RemFullTurn(x: int)
    ensures (x + FullTurn) % FullTurn == x % FullTurn
  {
  }
}
