/** Decimal money arithmetic of the finance app, over exact rationals.
    Python's `round(d, 2)` on a `Decimal` rounds to the nearest cent and
    breaks ties towards the even cent (the default ROUND_HALF_EVEN context). */
module Money {

  /** The GST rate, `Decimal('0.15')`. */
  const GstRate: real := 0.15

  /** Nearest integer to `x`, ties going to the even neighbour. */
  function RoundHalfEven(x: real): (n: int)
    ensures -0.5 <= n as real - x <= 0.5
    ensures (n as real - x == 0.5 || x - n as real == 0.5) ==> n % 2 == 0
  {
    var f := x.Floor;
    var d := x - f as real;
    if d < 0.5 then f
    else if d > 0.5 then f + 1
    else if f % 2 == 0 then f
    else f + 1
  }

  /** The two properties of RoundHalfEven determine it: no other integer is
      at most one half away with ties broken to even. */
  lemma RoundHalfEvenUnique(x: real, n: int)
    requires -0.5 <= n as real - x <= 0.5
    requires (n as real - x == 0.5 || x - n as real == 0.5) ==> n % 2 == 0
    ensures n == RoundHalfEven(x)
  {
  }

  /** Rounding to an integer never reverses the order of two values. */
  lemma RoundHalfEvenMonotone(x: real, y: real)
    requires x <= y
    ensures RoundHalfEven(x) <= RoundHalfEven(y)
  {
  }

  /** `r` is a whole number of cents. */
  predicate IsWholeCents(r: real) {
    (r * 100.0).Floor as real == r * 100.0
  }

  /** `round(x, 2)`: the nearest whole number of cents, ties to the even cent. */
  function RoundCents(x: real): (r: real)
    ensures IsWholeCents(r)
    ensures -0.005 <= r - x <= 0.005
    ensures (r - x == 0.005 || x - r == 0.005) ==> (r * 100.0).Floor % 2 == 0
  {
    var n := RoundHalfEven(x * 100.0);
    var r := n as real / 100.0;
    assert r * 100.0 == n as real;
    assert (r * 100.0).Floor == n;
    r
  }

  lemma RoundCentsMonotone(x: real, y: real)
    requires x <= y
    ensures RoundCents(x) <= RoundCents(y)
  {
    RoundHalfEvenMonotone(x * 100.0, y * 100.0);
  }

  /** An amount already in whole cents is left as it is. */
  lemma RoundCentsOfWholeCents(x: real)
    requires IsWholeCents(x)
    ensures RoundCents(x) == x
  {
    var n := (x * 100.0).Floor;
    RoundHalfEvenUnique(x * 100.0, n);
  }
}
