/** The two arithmetic helpers of the evaluation code, over exact numbers:
    rounding to six decimals (ties to the even neighbour) and division that
    yields zero for a zero denominator. */
module Numerics {

  /** The number of millionths nearest to `x`; a tie goes to the even neighbour. */
  function Ticks(x: real): (n: int)
    ensures -0.5 <= n as real - x * 1000000.0 <= 0.5
  {
    var scaled := x * 1000000.0;
    var low := scaled.Floor;
    var rest := scaled - low as real;
    if rest < 0.5 || (rest == 0.5 && low % 2 == 0) then low else low + 1
  }

  function FromTicks(n: int): real {
    n as real / 1000000.0
  }

  function Round6(x: real): (r: real)
    ensures -0.0000005 <= r - x <= 0.0000005
  {
    FromTicks(Ticks(x))
  }

  function SafeDiv(numerator: real, denominator: real): real {
    if denominator == 0.0 then 0.0 else numerator / denominator
  }

  /** Rounding never reorders two numbers. */
  lemma RoundMonotone(x: real, y: real)
    requires x <= y
    ensures Round6(x) <= Round6(y)
  {
    var a, b := x * 1000000.0, y * 1000000.0;
    assert a <= b;
    if a.Floor == b.Floor {
      assert Ticks(x) <= Ticks(y);
    } else {
      assert a.Floor + 1 <= b.Floor;
      assert Ticks(x) <= a.Floor + 1;
    }
  }

  /** A value that already has six decimals is left alone. */
  lemma RoundFixesTicks(n: int)
    ensures Round6(FromTicks(n)) == FromTicks(n)
  {
    assert FromTicks(n) * 1000000.0 == n as real;
    assert (n as real).Floor == n;
  }

  /** What is nearer than half a millionth to a number of millionths is rounded to it. */
  lemma RoundToNearest(x: real, n: int)
    requires -0.5 < x * 1000000.0 - n as real < 0.5
    ensures Round6(x) == FromTicks(n)
  {
    assert -1.0 < (Ticks(x) - n) as real < 1.0;
    assert Ticks(x) == n;
  }

  /** What lies half-way between two of them goes to the even one. */
  lemma RoundTie(x: real, n: int)
    requires x * 1000000.0 == n as real + 0.5
    ensures Round6(x) == FromTicks(if n % 2 == 0 then n else n + 1)
  {
    assert (x * 1000000.0).Floor == n;
  }

  lemma RoundIdempotent(x: real)
    ensures Round6(Round6(x)) == Round6(x)
  {
    RoundFixesTicks(Ticks(x));
  }

  lemma QuotientBound(sum: real, n: nat, bound: real)
    requires n > 0 && sum <= n as real * bound
    ensures SafeDiv(sum, n as real) <= bound
  {
    NonNegativeFactor(bound - sum / n as real, n as real);
  }

  lemma NonNegativeFactor(d: real, w: real)
    requires w > 0.0 && d * w >= 0.0
    ensures d >= 0.0
  {
  }

  /** Fractions compare as their cross products do. */
  lemma QuotientOrder(p: nat, n: nat, q: nat, m: nat)
    requires n > 0 && m > 0 && p * m <= q * n
    ensures SafeDiv(p as real, n as real) <= SafeDiv(q as real, m as real)
  {
    var a, b := n as real, m as real;
    var x, y := p as real / a, q as real / b;
    assert x * a == p as real && y * b == q as real;
    assert p as real * b == (p * m) as real && q as real * a == (q * n) as real;
    CrossMultiply(x, a, y, b);
    PositiveProduct(a, b);
    NonNegativeFactor(y - x, a * b);
  }

  lemma PositiveProduct(a: real, b: real)
    requires a > 0.0 && b > 0.0
    ensures a * b > 0.0
  {
  }

  lemma CrossMultiply(x: real, a: real, y: real, b: real)
    requires (x * a) * b <= (y * b) * a
    ensures (y - x) * (a * b) >= 0.0
  {
    assert (y - x) * (a * b) == (y * b) * a - (x * a) * b;
  }
}
