/** Python's `round`: nearest, ties to even, over exact reals. */
module Rounding {

  /** `round(x)` as an integer. */
  function Round(x: real): int {
    var f := x.Floor;
    var d := x - f as real;
    if d < 0.5 || (d == 0.5 && f % 2 == 0) then f else f + 1
  }

  /** `round(x, 3)`. */
  function Round3(x: real): real {
    Round(x * 1000.0) as real / 1000.0
  }

  lemma RoundNear(x: real)
    ensures -0.5 <= Round(x) as real - x <= 0.5
  {
  }

  /** The nearest integer, and of two equally near ones the even one. */
  lemma RoundIff(x: real, n: int)
    ensures Round(x) == n <==>
      (-0.5 < n as real - x < 0.5) || ((n as real - x == 0.5 || x - n as real == 0.5) && n % 2 == 0)
  {
    var f := x.Floor;
    assert f as real <= x < f as real + 1.0;
    if n < f {
      assert n as real <= f as real - 1.0;
    } else if n > f + 1 {
      assert n as real >= f as real + 2.0;
    }
  }

  lemma RoundMonotone(x: real, y: real)
    requires x <= y
    ensures Round(x) <= Round(y)
  {
    if x.Floor == y.Floor {
    } else {
      assert x.Floor < y.Floor;
    }
  }

  /** Rounding to the millisecond moves a time by at most half a millisecond. */
  lemma Round3Near(x: real)
    ensures -0.0005 <= Round3(x) - x <= 0.0005
  {
    RoundNear(x * 1000.0);
  }

  lemma Round3Monotone(x: real, y: real)
    requires x <= y
    ensures Round3(x) <= Round3(y)
  {
    RoundMonotone(x * 1000.0, y * 1000.0);
  }
}
