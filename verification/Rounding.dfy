/** Python's round(): to the nearest integer, ties to the even one. Decimal places are had by scaling. */
module Rounding {

  function Round(x: real): int {
    var f := x.Floor;
    var rest := x - f as real;
    if rest < 0.5 then f
    else if rest > 0.5 then f + 1
    else if f % 2 == 0 then f
    else f + 1
  }

  function Abs(x: real): real {
    if x < 0.0 then -x else x
  }

  lemma RoundNear(x: real)
    ensures Abs(Round(x) as real - x) <= 0.5
  {
  }

  /** The nearest integer, and of two equally near the even one. */
  lemma RoundExactly(x: real, n: int)
    ensures Round(x) == n <==> Abs(x - n as real) < 0.5 || (Abs(x - n as real) == 0.5 && n % 2 == 0)
  {
    var f := x.Floor;
    if n < f {
      assert x - n as real >= 1.0;
    } else if n > f + 1 {
      assert n as real - x >= 1.0;
    }
  }

  lemma RoundWhole(n: int)
    ensures Round(n as real) == n
  {
  }

  /** Rounding never swaps two values; the tie rule matters only when they share a floor or are one apart. */
  lemma RoundMonotone(x: real, y: real)
    requires x <= y
    ensures Round(x) <= Round(y)
  {
    assert x.Floor <= y.Floor;
    if x.Floor + 1 == y.Floor {
      assert Round(x) <= x.Floor + 1;
    }
  }
}
