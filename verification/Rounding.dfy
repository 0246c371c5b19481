/** Python's `int` and `round` on numbers, read as exact reals. */
module Rounding {

  /** `int(x)`: truncation toward zero. */
  function Trunc(x: real): int {
    if x >= 0.0 then x.Floor else -(-x).Floor
  }

  /** `round(x)`: the nearest integer, ties to the even one. */
  function RoundHalfEven(x: real): int {
    var low := x.Floor;
    var rest := x - low as real;
    if rest < 0.5 || (rest == 0.5 && low % 2 == 0) then low else low + 1
  }

  /** `round(x, n)` with `scale == 10 ** n`. */
  function RoundTo(x: real, scale: real): real
    requires scale > 0.0
  {
    RoundHalfEven(x * scale) as real / scale
  }

  lemma TruncMonotone(x: real, y: real)
    requires x <= y
    ensures Trunc(x) <= Trunc(y)
  {
  }

  lemma TruncReaches(x: real, n: int)
    requires x >= 0.0
    ensures Trunc(x) >= n <==> x >= n as real
  {
  }

  lemma RoundNear(x: real)
    ensures -0.5 <= RoundHalfEven(x) as real - x <= 0.5
  {
  }

  lemma RoundMonotone(x: real, y: real)
    requires x <= y
    ensures RoundHalfEven(x) <= RoundHalfEven(y)
  {
  }

  lemma RoundInteger(n: int)
    ensures RoundHalfEven(n as real) == n
  {
  }

  lemma RoundToMonotone(x: real, y: real, scale: real)
    requires scale > 0.0 && x <= y
    ensures RoundTo(x, scale) <= RoundTo(y, scale)
  {
    hide RoundHalfEven;
    ScaleMonotone(x, y, scale);
    var low, high := x * scale, y * scale;
    RoundMonotone(low, high);
    Unscaled(RoundHalfEven(low) as real, RoundHalfEven(high) as real, scale);
  }

  lemma Unscaled(a: real, b: real, scale: real)
    requires scale > 0.0 && a <= b
    ensures a / scale <= b / scale
  {
    var p, q := a / scale, b / scale;
    assert (q - p) * scale == b - a;
    NonnegativeFactor(q - p, scale);
  }

  lemma NonnegativeFactor(d: real, y: real)
    requires y > 0.0 && d * y >= 0.0
    ensures d >= 0.0
  {
  }

  lemma ScaleMonotone(x: real, y: real, scale: real)
    requires scale > 0.0 && x <= y
    ensures x * scale <= y * scale
  {
  }
}
