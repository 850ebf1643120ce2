/** Numeric conversions shared by the C# panel and the C++ visualiser. */
module Numeric {

  /** Rounding to the nearest integer with half-way cases rounded away from
      zero: C#'s Math.Round(v, MidpointRounding.AwayFromZero) and C's round(). */
  function RoundHalfAway(r: real): (n: int)
    ensures r - 0.5 <= n as real <= r + 0.5
    ensures n as real == r - 0.5 ==> r < 0.0
    ensures n as real == r + 0.5 ==> r > 0.0
  {
    if r >= 0.0 then (r + 0.5).Floor else -((0.5 - r).Floor)
  }

  /** Rounding half away from zero is symmetric about zero. */
  lemma RoundHalfAwayIsOdd(r: real)
    ensures RoundHalfAway(-r) == -RoundHalfAway(r)
  {
    if r == 0.0 {
    } else if r > 0.0 {
      assert -r < 0.0;
      assert RoundHalfAway(-r) == -((0.5 + r).Floor);
    } else {
      assert -r > 0.0;
    }
  }

  function Abs(x: int): (r: nat)
    ensures r == x || r == -x
  {
    if x < 0 then -x else x
  }

  function AbsReal(x: real): (r: real)
    ensures r >= 0.0 && (r == x || r == -x)
  {
    if x < 0.0 then -x else x
  }

  function Min(a: int, b: int): (r: int)
    ensures r <= a && r <= b && (r == a || r == b)
  {
    if a <= b then a else b
  }

  function Max(a: int, b: int): (r: int)
    ensures r >= a && r >= b && (r == a || r == b)
  {
    if a >= b then a else b
  }
}
