/** Decimal quantization: to the nearest unit, ties to the even one. */
module Rounding {
  function RoundHalfEven(x: real): (n: int)
    ensures -0.5 <= x - n as real <= 0.5
    ensures (x - n as real == 0.5 || x - n as real == -0.5) ==> n % 2 == 0
  {
    var low := x.Floor;
    var rest := x - low as real;
    if rest < 0.5 || (rest == 0.5 && low % 2 == 0) then low else low + 1
  }

  lemma RoundMonotone(x: real, y: real)
    requires x <= y
    ensures RoundHalfEven(x) <= RoundHalfEven(y)
  {
    // Half a unit either side: results in the wrong order could only come from one and the same tie.
    assert RoundHalfEven(x) as real - RoundHalfEven(y) as real <= 1.0;
  }

  lemma RoundExact(n: int)
    ensures RoundHalfEven(n as real) == n
  {
  }
}
