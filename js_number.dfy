/** The integer arithmetic of JavaScript numbers that ferrisWheel.js relies on. */
module JsNumber {

  /** JavaScript's integer quotient for a positive `n`: the division truncated toward zero. */
  function JsQuot(a: int, n: int): int
    requires n > 0
  {
    if a >= 0 then a / n else -((-a) / n)
  }

  /**
   * JavaScript's `a % n` for a positive `n`: what is left of `a` after the truncated
   * quotient, so it has the sign of `a` (or is zero) and is smaller than `n` in size.
   */
  function JsRem(a: int, n: int): (r: int)
    requires n > 0
    ensures -n < r < n
    ensures a >= 0 ==> r >= 0
    ensures a <= 0 ==> r <= 0
    ensures a == JsQuot(a, n) * n + r
  {
    if a >= 0 then a % n else -((-a) % n)
  }
}
