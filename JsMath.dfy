/** The JavaScript numeric helpers the forms and the preview call, on exact reals. */
module JsMath {
  /** `Math.round`: the nearest integer, halves rounded towards positive infinity. */
  function RoundHalfUp(x: real): (r: int)
    ensures r as real - 0.5 <= x < r as real + 0.5
  {
    (x + 0.5).Floor
  }

  /** Rounding is the identity on whole numbers. */
  lemma RoundWhole(n: int)
    ensures RoundHalfUp(n as real) == n
  {
  }

  /** A half is rounded up, never down: Math.round(2.5) is 3 and Math.round(-2.5) is -2. */
  lemma RoundHalfGoesUp(n: int)
    ensures RoundHalfUp(n as real + 0.5) == n + 1
  {
  }

  /**
   * `Math.ceil(a / b)` for a positive integer numerator and divisor, as the
   * least integer multiple count that reaches `a`.
   */
  function CeilDiv(a: nat, b: nat): (r: nat)
    requires b > 0
    ensures (r - 1) * b < a <= r * b
  {
    (a + b - 1) / b
  }
}
