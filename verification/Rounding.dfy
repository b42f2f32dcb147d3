/** Decimal quantisation with ties to even. */
module Rounding {
  import opened Base

  function RoundHalfEven(x: real): int {
    var fl := x.Floor;
    var frac := x - fl as real;
    if frac < 0.5 then fl
    else if frac > 0.5 then fl + 1
    else if fl % 2 == 0 then fl else fl + 1
  }

  /** Keep the decimals counted by `scale` (a power of ten). */
  function Quantize(x: real, scale: real): real
    requires scale > 0.0
  {
    RoundHalfEven(x * scale) as real / scale
  }

  /** n is nearest to x, and even when x lies halfway between two integers. */
  predicate IsHalfEven(x: real, n: int) {
    var d := Abs(x - n as real);
    d < 0.5 || (d == 0.5 && n % 2 == 0)
  }

  /** Rounding is characterised by being nearest with ties to even. */
  lemma RoundHalfEvenExact(x: real, n: int)
    ensures RoundHalfEven(x) == n <==> IsHalfEven(x, n)
  {}

  /** y is the whole number that x rounds to. */
  ghost predicate RoundsTo(x: real, y: real) {
    exists n: int :: y == n as real && IsHalfEven(x, n)
  }

  /** y is x in whole units of 1 / scale: the nearest ones, the even one on a tie. */
  ghost predicate IsRounded(x: real, scale: real, y: real) {
    RoundsTo(x * scale, y * scale)
  }

  lemma RoundsToExact(x: real, y: real)
    ensures RoundsTo(x, y) <==> y == RoundHalfEven(x) as real
  {
    RoundHalfEvenExact(x, RoundHalfEven(x));
    if n: int :| y == n as real && IsHalfEven(x, n) { RoundHalfEvenExact(x, n); }
  }

  /** Quantising is rounding to whole units of the scale, and nothing else is. */
  lemma QuantizeExact(x: real, scale: real, y: real)
    requires scale > 0.0
    ensures Quantize(x, scale) == y <==> IsRounded(x, scale, y)
  {
    var m := RoundHalfEven(x * scale) as real;
    RoundsToExact(x * scale, y * scale);
    InUnits(m, scale);
    if y * scale == m { Cancel(y, Quantize(x, scale), scale); }
  }

  lemma InUnits(m: real, scale: real)
    requires scale > 0.0
    ensures (m / scale) * scale == m
  {}
}
