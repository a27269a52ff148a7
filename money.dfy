/** Decimal arithmetic of the entities. Every money column is a `BigDecimal`
    of scale 2, modelled as its unscaled value: an integer number of cents.
    Percentages are produced at scale 4 and modelled the same way (an integer
    number of ten-thousandths). */
module Money {

  /** An amount of money at scale 2, as an integer number of cents. */
  type Cents = int

  /** A value at scale 4 (ten-thousandths), used for gain/loss percentages. */
  type Scaled4 = int

  function Abs(x: int): (r: int)
    ensures r >= 0 && (r == x || r == -x)
  {
    if x < 0 then -x else x
  }

  /** `r` is the quotient n / d rounded to an integer with `RoundingMode.HALF_UP`:
      the nearest integer, ties rounded away from zero. Stated on magnitudes:
      |r| is the nearest integer to |n| / |d| with ties going up, and r carries
      the sign of the exact quotient. */
  ghost predicate IsHalfUpQuotient(n: int, d: int, r: int)
    requires d != 0
  {
    && ((n >= 0 && d > 0) || (n <= 0 && d < 0) ==> r >= 0)
    && ((n >= 0 && d < 0) || (n <= 0 && d > 0) ==> r <= 0)
    && -Abs(d) <= 2 * (Abs(n) - Abs(r) * Abs(d)) < Abs(d)
  }

  /** `BigDecimal.divide(divisor, scale, RoundingMode.HALF_UP)` on unscaled
      values: when n and d have the same scale, the result at scale 0 is this
      quotient; callers scale n first to obtain more decimal places. */
  function DivHalfUp(n: int, d: int): (r: int)
    requires d != 0
    ensures IsHalfUpQuotient(n, d, r)
  {
    var m, e := Abs(n), Abs(d);
    var k := (2 * m + e) / (2 * e);
    HalfUpMagnitude(m, e);
    var r := if (n >= 0) == (d > 0) then k else -k;
    assert Abs(r) == k && Abs(r) * Abs(d) == k * e;
    r
  }

  /** The magnitude part of the rounding, from Euclidean division. */
  lemma HalfUpMagnitude(m: int, e: int)
    requires m >= 0 && e > 0
    ensures var k := (2 * m + e) / (2 * e);
      k >= 0 && -e <= 2 * (m - k * e) < e
  {
    var k := (2 * m + e) / (2 * e);
    var rem := (2 * m + e) % (2 * e);
    assert 2 * m + e == 2 * e * k + rem;
  }

  /** The rounding specification admits exactly one result, so `DivHalfUp` is
      the only function meeting it. */
  lemma {:induction false} HalfUpQuotientUnique(n: int, d: int, r1: int, r2: int)
    requires d != 0
    requires IsHalfUpQuotient(n, d, r1) && IsHalfUpQuotient(n, d, r2)
    ensures r1 == r2
  {
    var m, e := Abs(n), Abs(d);
    var a1, a2 := Abs(r1), Abs(r2);
    MagnitudeUnique(m, e, a1, a2);
    if n == 0 {
      MagnitudeOfZero(e, a1);
    }
  }

  /** Two magnitudes within half a unit of m / e (ties up) are equal. */
  lemma MagnitudeUnique(m: int, e: int, a1: int, a2: int)
    requires m >= 0 && e > 0 && a1 >= 0 && a2 >= 0
    requires -e <= 2 * (m - a1 * e) < e
    requires -e <= 2 * (m - a2 * e) < e
    ensures a1 == a2
  {
    if a1 < a2 {
      MulMonotone(e, a1 + 1, a2);
    } else if a2 < a1 {
      MulMonotone(e, a2 + 1, a1);
    }
  }

  /** Zero divided by anything rounds to zero. */
  lemma MagnitudeOfZero(e: int, a: int)
    requires e > 0 && a >= 0
    requires -e <= 2 * (0 - a * e)
    ensures a == 0
  {
    if a > 0 {
      MulMonotone(e, 1, a);
    }
  }

  lemma MulMonotone(e: int, x: int, y: int)
    requires e > 0 && x <= y
    ensures e * x <= e * y
  {
    assert e * y - e * x == e * (y - x);
  }

  /** Ties round away from zero on both sides, as HALF_UP does:
      0.5 becomes 1 and -0.5 becomes -1 (2.5 -> 3, -2.5 -> -3). */
  lemma HalfUpTiesAwayFromZero(k: int)
    ensures DivHalfUp(2 * k + 1, 2) == k + 1 || k < 0
    ensures DivHalfUp(2 * k + 1, 2) == k || k >= 0
  {
    var r := DivHalfUp(2 * k + 1, 2);
    if k >= 0 {
      HalfUpQuotientUnique(2 * k + 1, 2, r, k + 1);
    } else {
      HalfUpQuotientUnique(2 * k + 1, 2, r, k);
    }
  }

  /** `a.subtract(b)`: the gain (or, when negative, the loss) of a holding,
      `getGainLoss` of Position and Portfolio. */
  function GainLoss(value: Cents, cost: Cents): (r: Cents)
    ensures r + cost == value
  {
    value - cost
  }

  /** `gainLoss.divide(totalCost, 4, HALF_UP).multiply(100)`, or zero when the
      cost is zero; the result is a percentage at scale 4. Shared by
      Position.getGainLossPercentage and Portfolio.getGainLossPercentage. */
  function GainLossPercentage(value: Cents, cost: Cents): (r: Scaled4)
    ensures cost == 0 ==> r == 0
    ensures cost != 0 ==> r % 100 == 0 && IsHalfUpQuotient(GainLoss(value, cost) * 10000, cost, r / 100)
  {
    if cost == 0 then 0 else 100 * DivHalfUp(GainLoss(value, cost) * 10000, cost)
  }

  /** A holding worth twice its cost shows a gain of exactly 100.0000 %. */
  lemma {:induction false} DoubledValueIsHundredPercent(cost: Cents)
    requires cost != 0
    ensures GainLossPercentage(2 * cost, cost) == 100 * 10000
  {
    var q := DivHalfUp(cost * 10000, cost);
    assert GainLoss(2 * cost, cost) == cost;
    HalfUpQuotientUnique(cost * 10000, cost, q, 10000);
  }

  /** A holding that lost everything shows exactly -100.0000 %. */
  lemma {:induction false} WipedOutIsMinusHundredPercent(cost: Cents)
    requires cost != 0
    ensures GainLossPercentage(0, cost) == -100 * 10000
  {
    var q := DivHalfUp(-cost * 10000, cost);
    assert GainLoss(0, cost) == -cost;
    HalfUpQuotientUnique(-cost * 10000, cost, q, -10000);
  }
}
