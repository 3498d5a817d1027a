/**
 * Integer helpers and the rounding used by the pipeline. Both NumPy's `np.rint`
 * and Python's built-in `round` round half to even; here that rounding is
 * applied to exact real numbers.
 */
module Numeric {

  function Min(a: int, b: int): int { if a <= b then a else b }

  function Max(a: int, b: int): int { if a >= b then a else b }

  /** `min(max(v, lo), hi)`, as `np.clip` and the window code write it. */
  function Clamp(v: int, lo: int, hi: int): (r: int)
    requires lo <= hi
    ensures lo <= r <= hi
    ensures lo <= v <= hi ==> r == v
    ensures v < lo ==> r == lo
    ensures v > hi ==> r == hi
  {
    Min(Max(v, lo), hi)
  }

  /** Round to the nearest integer, ties to the even neighbour. */
  function RoundHalfEven(x: real): (r: int)
    ensures x - 0.5 <= r as real <= x + 0.5
    ensures x - (x.Floor as real) < 0.5 ==> r == x.Floor
    ensures x - (x.Floor as real) > 0.5 ==> r == x.Floor + 1
    ensures x - (x.Floor as real) == 0.5 ==> r % 2 == 0
  {
    var f := x.Floor;
    var d := x - f as real;
    if d < 0.5 then f
    else if d > 0.5 then f + 1
    else if f % 2 == 0 then f else f + 1
  }

  /** Rounding is monotone and fixes integers, so it never leaves an integer interval. */
  lemma RoundStaysBetween(x: real, lo: int, hi: int)
    requires lo as real <= x <= hi as real
    ensures lo <= RoundHalfEven(x) <= hi
  {
    var f := x.Floor;
    assert lo <= f;
    if f == hi {
      assert x == hi as real;
    }
  }

  lemma RoundOfInteger(n: int)
    ensures RoundHalfEven(n as real) == n
  {
    assert (n as real).Floor == n;
  }

  /** Rounding never reverses the order of two numbers. */
  lemma RoundMonotone(x: real, y: real)
    requires x <= y
    ensures RoundHalfEven(x) <= RoundHalfEven(y)
  {
    if x.Floor < y.Floor {
      assert RoundHalfEven(x) <= x.Floor + 1 <= y.Floor <= RoundHalfEven(y);
    }
  }
}
