/**
  The Python numeric conversions the application applies to its real values:
  `int()` on a float (truncation toward zero) and the built-in `round()`
  (round half to even). Reals are exact here; float rounding is not modelled.
*/
module PyNumeric {

  /** Python `int(x)` for a float `x`: truncation toward zero. */
  function Trunc(x: real): (r: int)
    ensures x >= 0.0 ==> r as real <= x < r as real + 1.0
    ensures x < 0.0 ==> r as real - 1.0 < x <= r as real
  {
    if x >= 0.0 then x.Floor else -((-x).Floor)
  }

  /**
    Python 3 `round(x)`: the nearest integer, and at an exact half the even
    neighbour. The two postconditions single out exactly one integer.
  */
  function RoundHalfEven(x: real): (r: int)
    ensures r as real - 0.5 <= x <= r as real + 0.5
    ensures (x == r as real - 0.5 || x == r as real + 0.5) ==> r % 2 == 0
  {
    var f := x.Floor;
    var d := x - f as real;
    if d < 0.5 then f
    else if d > 0.5 then f + 1
    else if f % 2 == 0 then f
    else f + 1
  }
}
