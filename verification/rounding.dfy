/** `round(x, 8)`: rounding to eight decimal places, ties to even, applied to
    the exact value of `x`. */
module Rounding {

  // Amounts are counted in units of the eighth decimal place, 10^-8; the
  // literal 100000000.0 below is 10^8.

  /** `x` is a whole number of units of the eighth decimal place. */
  predicate OnGrid(x: real) {
    (x * 100000000.0).Floor as real == x * 100000000.0
  }

  /** The integer nearest to `y`; a `y` exactly half-way between two integers
      goes to the even one. */
  function NearestEven(y: real): (n: int)
    ensures -0.5 <= n as real - y <= 0.5
    ensures y.Floor as real == y ==> n == y.Floor
  {
    var f := y.Floor;
    var d := y - f as real;
    if d < 0.5 then f else if d > 0.5 then f + 1 else if f % 2 == 0 then f else f + 1
  }

  /** The nearest multiple of 10^-8; a value exactly half-way between two
      multiples goes to the one with an even count of units. */
  function Round8(x: real): (r: real)
    ensures OnGrid(r)
    ensures -0.5 <= (r - x) * 100000000.0 <= 0.5
    ensures OnGrid(x) ==> r == x
  {
    var n := NearestEven(x * 100000000.0);
    var r := n as real / 100000000.0;
    assert r * 100000000.0 == n as real;
    assert (n as real).Floor == n;
    r
  }

  /** Rounding twice is rounding once. */
  lemma Round8Idempotent(x: real)
    ensures Round8(Round8(x)) == Round8(x)
  {
  }

  /** Integers need no rounding: the source's starting totals of `0`, and the
      whole-number results of the examples, pass through unchanged. */
  lemma Round8OfInteger(n: int)
    ensures Round8(n as real) == n as real
  {
    assert (n as real * 100000000.0).Floor == n * 100000000;
  }
}
