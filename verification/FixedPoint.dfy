/** Fixed-point arithmetic.  A Numeric(18,4) column is an integer number of ticks of 10^-4;
    quantize(..., ROUND_HALF_UP) is division rounded to the nearest integer, ties away from zero. */
module FixedPoint {

  function Abs(x: int): nat {
    if x < 0 then -x else x
  }

  /** n / d rounded to the nearest integer, ties away from zero. */
  function RoundDiv(n: int, d: int): (q: int)
    requires d > 0
    ensures 2 * Abs(n - q * d) <= d
    ensures 2 * Abs(n - q * d) == d ==> Abs(q * d) > Abs(n)
  {
    RoundDivNearest(n, d);
    if n >= 0 then (2 * n + d) / (2 * d) else -((2 * (-n) + d) / (2 * d))
  }

  lemma RoundDivNearest(n: int, d: int)
    requires d > 0
    ensures var q := if n >= 0 then (2 * n + d) / (2 * d) else -((2 * (-n) + d) / (2 * d));
            2 * Abs(n - q * d) <= d && (2 * Abs(n - q * d) == d ==> Abs(q * d) > Abs(n))
  {
    var k := (2 * Abs(n) + d) / (2 * d);
    FloorOfHalfUp(Abs(n), d, k);
    assert (-k) * d == -(k * d);
  }

  lemma FloorOfHalfUp(n: nat, d: int, k: int)
    requires d > 0 && k == (2 * n + d) / (2 * d)
    ensures k * d >= 0 && 2 * (k * d) <= 2 * n + d < 2 * (k * d) + 2 * d
  {
    assert 2 * n + d == (2 * d) * k + (2 * n + d) % (2 * d);
    assert (2 * d) * k == 2 * (k * d);
    if k < 0 {
      MulStep(k, 0, d);
      assert false;
    }
    assert k * d >= 0;
  }

  /** Two multiples a < b of d cannot both be the rounded value of n. */
  lemma OnlyOneNearest(n: int, a: int, b: int, d: int)
    requires d > 0 && a + d <= b && (a >= 0 || a <= -d)
    ensures !(2 * Abs(n - a) <= d && (2 * Abs(n - a) == d ==> Abs(a) > Abs(n)) &&
              2 * Abs(n - b) <= d && (2 * Abs(n - b) == d ==> Abs(b) > Abs(n)))
  {
  }

  lemma MultipleApart(q: int, d: int)
    requires d > 0
    ensures q * d >= 0 || q * d <= -d
  {
    if q < 0 {
      MulStep(q, 0, d);
    } else if q > 0 {
      MulStep(0, q, d);
    }
  }

  /** The two promises of RoundDiv determine it. */
  lemma RoundDivUnique(n: int, d: int, q: int)
    requires d > 0
    requires 2 * Abs(n - q * d) <= d
    requires 2 * Abs(n - q * d) == d ==> Abs(q * d) > Abs(n)
    ensures q == RoundDiv(n, d)
  {
    hide RoundDiv;
    var r := RoundDiv(n, d);
    MultipleApart(q, d);
    MultipleApart(r, d);
    if q < r {
      MulStep(q, r, d);
      OnlyOneNearest(n, q * d, r * d, d);
    } else if r < q {
      MulStep(r, q, d);
      OnlyOneNearest(n, r * d, q * d, d);
    }
  }

  lemma MulStep(a: int, b: int, d: int)
    requires a < b && d > 0
    ensures a * d + d <= b * d
  {
    assert (b - a - 1) * d >= 0;
    assert (b - a - 1) * d == b * d - a * d - d;
  }

  lemma RoundDivExact(q: int, d: int)
    requires d > 0
    ensures RoundDiv(q * d, d) == q
  {
    hide RoundDiv;
    RoundDivUnique(q * d, d, q);
  }

  lemma RoundDivMonotone(m: int, n: int, d: int)
    requires d > 0 && m <= n
    ensures RoundDiv(m, d) <= RoundDiv(n, d)
  {
    hide RoundDiv;
    var a, b := RoundDiv(m, d), RoundDiv(n, d);
    if b < a {
      MulStep(b, a, d);
    }
  }

  lemma RoundDivBetween(lo: int, n: int, hi: int, d: int)
    requires d > 0 && lo * d <= n <= hi * d
    ensures lo <= RoundDiv(n, d) <= hi
  {
    hide RoundDiv;
    RoundDivExact(lo, d);
    RoundDivExact(hi, d);
    RoundDivMonotone(lo * d, n, d);
    RoundDivMonotone(n, hi * d, d);
  }

  lemma RoundDivNegate(n: int, d: int)
    requires d > 0
    ensures RoundDiv(-n, d) == -RoundDiv(n, d)
  {
    hide RoundDiv;
    var q := RoundDiv(n, d);
    NegatedProduct(q, d);
    Mirror(n, q * d, d);
    RoundDivUnique(-n, d, -q);
  }

  lemma NegatedProduct(q: int, d: int)
    ensures (-q) * d == -(q * d)
  {
  }

  lemma Mirror(n: int, x: int, d: int)
    requires 2 * Abs(n - x) <= d && (2 * Abs(n - x) == d ==> Abs(x) > Abs(n))
    ensures 2 * Abs(-n - (-x)) <= d && (2 * Abs(-n - (-x)) == d ==> Abs(-x) > Abs(-n))
  {
  }

  lemma MulMonotone(a: int, b: int, x: int, y: int)
    requires 0 <= a <= b && 0 <= x <= y
    ensures 0 <= a * x <= b * y
  {
    assert a * x >= 0;
    assert (b - a) * x >= 0 && (b - a) * x == b * x - a * x;
    assert b * (y - x) >= 0 && b * (y - x) == b * y - b * x;
  }
}
