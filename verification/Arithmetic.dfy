/** Integer division as C++ does it, and the few facts about multiples the other modules need. */
module Arithmetic {

  /** C++ `/` on a signed operand and a positive divisor: the quotient is truncated toward zero. */
  function TruncDiv(a: int, b: int): (q: int)
    requires b > 0
    ensures a >= 0 ==> q * b <= a < q * b + b
    ensures a < 0 ==> q * b - b < a <= q * b
  {
    if a >= 0 then
      DivisionBounds(a, b);
      a / b
    else
      DivisionBounds(-a, b);
      -((-a) / b)
  }

  /** C++ `%`: the remainder that goes with TruncDiv, so it has the sign of the dividend. */
  function TruncMod(a: int, b: int): (r: int)
    requires b > 0
    ensures -b < r < b && (a >= 0 ==> r >= 0)
  {
    a - TruncDiv(a, b) * b
  }

  /** C++ conversion of a floating-point value to an integer type: truncation toward zero. */
  function TruncToInt(x: real): (n: int)
    ensures x >= 0.0 ==> n as real <= x < n as real + 1.0
    ensures x < 0.0 ==> n as real - 1.0 < x <= n as real
  {
    if x >= 0.0 then x.Floor else -((-x).Floor)
  }

  lemma DivisionBounds(a: int, b: int)
    requires b > 0
    ensures (a / b) * b <= a < (a / b) * b + b
  {
    assert a == (a / b) * b + a % b;
  }

  /** A quotient is pinned down by its bracket. */
  lemma QuotientUnique(q1: int, q2: int, b: int, a: int)
    requires b > 0
    requires q1 * b <= a < q1 * b + b
    requires q2 * b <= a < q2 * b + b
    ensures q1 == q2
  {
    MulMonotone(q1 + 1, q2, b);
    MulMonotone(q2 + 1, q1, b);
  }

  lemma MulMonotone(x: int, y: int, b: int)
    ensures b >= 0 && x <= y ==> x * b <= y * b
  {
  }

  lemma Distribute(x: int, y: int, b: int)
    ensures (x + y) * b == x * b + y * b
  {
  }

  lemma MultipleHasNoRemainder(k: int, b: int)
    requires b > 0
    ensures (k * b) % b == 0 && (k * b) / b == k
  {
    DivisionBounds(k * b, b);
    QuotientUnique(k, (k * b) / b, b, k * b);
  }

  lemma AddMultiple(x: int, k: int, b: int)
    requires b > 0
    ensures (x + k * b) % b == x % b
  {
    DivisionBounds(x, b);
    DivisionBounds(x + k * b, b);
    assert (x / b + k) * b == (x / b) * b + k * b;
    QuotientUnique(x / b + k, (x + k * b) / b, b, x + k * b);
  }
}
