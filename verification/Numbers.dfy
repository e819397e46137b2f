/** Go's conversion to integers and its remainder, which both round towards zero. */
module Numbers {

  /** Conversion to an integer drops the fraction. */
  function Truncate(r: real): int {
    if r >= 0.0 then r.Floor else -((-r).Floor)
  }

  /** The remainder has the sign of the dividend. */
  function Remainder(a: int, b: nat): int
    requires b > 0
  {
    if a >= 0 then a % b else -((-a) % b)
  }
}
