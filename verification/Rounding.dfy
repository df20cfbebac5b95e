/**
  Half-even rounding: the six-digit ratio of an exact metric, and the CI cost model.

  A ratio is rounded twice, once by the 30-digit Decimal context and once to the sixth decimal.
 */
module Rounding {
  import opened Wrappers

  /** n / d rounded to an integer, ties to even. */
  function HalfEven(n: int, d: int): (t: int)
    requires d > 0
    ensures IsHalfEven(n, d, t)
  {
    var q := n / d;
    var r := n % d;
    assert n == q * d + r;
    assert (2 * q - 1) * d <= 2 * n by { Distribute(2 * q, -1, d); Twice(q, d); }
    if 2 * r < d then Below(n, d, q, r); q
    else if 2 * r > d then Above(n, d, q, r); q + 1
    else if q % 2 == 0 then Below(n, d, q, r); q
    else Above(n, d, q, r); q + 1
  }

  /** t is within half a unit of n / d, and even when n / d lies halfway. */
  predicate IsHalfEven(n: int, d: int, t: int) {
    && (2 * t - 1) * d <= 2 * n <= (2 * t + 1) * d
    && ((2 * n == (2 * t - 1) * d || 2 * n == (2 * t + 1) * d) ==> t % 2 == 0)
  }

  lemma Distribute(a: int, b: int, d: int)
    ensures (a + b) * d == a * d + b * d
  {
  }

  lemma Twice(q: int, d: int)
    ensures (2 * q) * d == 2 * (q * d)
  {
  }

  lemma Below(n: int, d: int, q: int, r: int)
    requires d > 0 && n == q * d + r && 0 <= r && (2 * r < d || (2 * r == d && q % 2 == 0))
    ensures IsHalfEven(n, d, q)
  {
    Twice(q, d);
    Distribute(2 * q, -1, d);
    Distribute(2 * q, 1, d);
  }

  lemma Above(n: int, d: int, q: int, r: int)
    requires d > 0 && n == q * d + r && r < d && (2 * r > d || (2 * r == d && q % 2 != 0))
    ensures IsHalfEven(n, d, q + 1)
  {
    Twice(q, d);
    assert 2 * (q + 1) - 1 == 2 * q + 1 && 2 * (q + 1) + 1 == 2 * q + 3;
    Distribute(2 * q, 1, d);
    Distribute(2 * q, 3, d);
  }

  lemma ScaleAtMost(a: int, b: int, d: int)
    requires d >= 0 && a <= b
    ensures a * d <= b * d
  {
  }

  lemma UnscaleStrict(a: int, b: int, d: int)
    requires d > 0 && a * d < b * d
    ensures a < b
  {
  }

  lemma UnscaleAtMost(a: int, b: int, d: int)
    requires d > 0 && a * d <= b * d
    ensures a <= b
  {
  }

  /** If k/2 lies at or below n/d, and m/e at or below k/2, then n/d <= m/e makes all three equal. */
  lemma SqueezedTogether(n: int, d: int, m: int, e: int, k: int)
    requires d > 0 && e > 0 && k * d <= 2 * n && 2 * m <= k * e && n * e <= m * d
    ensures 2 * n == k * d && 2 * m == k * e
  {
    ScaleAtMost(k * d, 2 * n, e);
    ScaleAtMost(2 * m, k * e, d);
    Shuffle(k, d, e);
    Shuffle(k, e, d);
    Twice(n, e);
    Twice(m, d);
    UnscaleAtMost(2 * n, k * d, e);
    UnscaleAtMost(k * e, 2 * m, d);
  }

  lemma BoundsApart(n: int, d: int, t: int, m: int, e: int, u: int)
    requires d > 0 && e > 0 && n * e <= m * d
    requires (2 * t - 1) * d <= 2 * n && 2 * m <= (2 * u + 1) * e
    ensures t <= u + 1
  {
    ScaleAtMost((2 * t - 1) * d, 2 * n, e);
    ScaleAtMost(2 * m, (2 * u + 1) * e, d);
    Shuffle(2 * t - 1, d, e);
    Shuffle(2 * u + 1, e, d);
    Twice(n, e);
    Twice(m, d);
    assert d * e > 0;
    UnscaleAtMost(2 * t - 1, 2 * u + 1, d * e);
  }

  /** Rounding is determined by being within half a unit with ties to even, and it is monotone. */
  lemma RoundingIsMonotone(n: int, d: int, t: int, m: int, e: int, u: int)
    requires d > 0 && e > 0 && IsHalfEven(n, d, t) && IsHalfEven(m, e, u)
    requires n * e <= m * d
    ensures t <= u
  {
    BoundsApart(n, d, t, m, e, u);
    if t == u + 1 {
      SqueezedTogether(n, d, m, e, 2 * u + 1);
    }
  }

  lemma RoundingIsUnique(n: int, d: int, t: int, u: int)
    requires d > 0 && IsHalfEven(n, d, t) && IsHalfEven(n, d, u)
    ensures t == u
  {
    RoundingIsMonotone(n, d, t, n, d, u);
    RoundingIsMonotone(n, d, u, n, d, t);
  }

  lemma Shuffle(k: int, a: int, b: int)
    ensures (k * a) * b == k * (a * b) && a * b == b * a
  {
  }

  // ---------------------------------------------------------------- six-digit ratios

  const MILLION: int := 1_000_000

  function Pow10(k: nat): (p: int)
    ensures p > 0 && (k > 0 ==> p % 2 == 0)
  {
    if k == 0 then 1 else 10 * Pow10(k - 1)
  }

  /**
    The ratio text of a metric as a count of millionths: the quotient rounded to 6 + k decimals, as
    the 30-digit context does with k at least 23 for a value up to one, then to six.
   */
  function Ratio(n: int, d: int, k: nat): int
    requires d > 0
  {
    HalfEven(HalfEven(n * MILLION * Pow10(k), d), Pow10(k))
  }

  lemma SideLow(n: int, d: int, p: int, m: int, t: int)
    requires d > 0 && p > d && IsHalfEven(n * p, d, m) && (2 * t - 1) * d < 2 * n
    ensures (2 * t - 1) * p < 2 * m
  {
    var c := 2 * t - 1;
    ScaleAtMost(c * d + 1, 2 * n, p);
    Distribute(c * d, 1, p);
    Shuffle(c, d, p);
    Shuffle(c, p, d);
    Twice(n, p);
    Distribute(2 * m, 1, d);
    assert c * p * d + p <= 2 * (n * p) <= 2 * m * d + d;
    UnscaleStrict(c * p, 2 * m, d);
  }

  lemma SideHigh(n: int, d: int, p: int, m: int, t: int)
    requires d > 0 && p > d && IsHalfEven(n * p, d, m) && 2 * n < (2 * t + 1) * d
    ensures 2 * m < (2 * t + 1) * p
  {
    var c := 2 * t + 1;
    ScaleAtMost(2 * n + 1, c * d, p);
    Distribute(2 * n, 1, p);
    Shuffle(c, d, p);
    Shuffle(c, p, d);
    Twice(n, p);
    Distribute(2 * m, -1, d);
    assert 2 * m * d - d <= 2 * (n * p) <= c * p * d - p;
    UnscaleStrict(2 * m, c * p, d);
  }

  /** A value halfway between two integers survives the first rounding unchanged. */
  lemma TieIsExact(n: int, d: int, p: int, m: int, c: int)
    requires d > 0 && p > 0 && p % 2 == 0 && IsHalfEven(n * p, d, m) && 2 * n == c * d
    ensures 2 * m == c * p
  {
    var h := p / 2;
    assert p == 2 * h;
    var x := c * h;
    assert n * p == x * d by {
      assert n * p == (2 * n) * h by { Shuffle(2, n, h); Shuffle(n, 2, h); }
      Shuffle(c, d, h);
      Shuffle(c, h, d);
    }
    assert IsHalfEven(x * d, d, x) by {
      Twice(x, d);
      Distribute(2 * x, -1, d);
      Distribute(2 * x, 1, d);
    }
    RoundingIsUnique(n * p, d, m, x);
    Shuffle(c, 2, h);
    Shuffle(c, h, 2);
  }

  /** When the denominator is below 10^k, rounding twice gives what rounding once gives. */
  lemma DoubleRoundingIsHarmless(n: int, d: int, k: nat)
    requires 0 < d < Pow10(k) && k > 0
    ensures Ratio(n, d, k) == HalfEven(n * MILLION, d)
  {
    var p, v := Pow10(k), n * MILLION;
    var m := HalfEven(v * p, d);
    var t := HalfEven(v, d);
    if (2 * t - 1) * d == 2 * v {
      TieIsExact(v, d, p, m, 2 * t - 1);
    } else {
      SideLow(v, d, p, m, t);
    }
    if (2 * t + 1) * d == 2 * v {
      TieIsExact(v, d, p, m, 2 * t + 1);
    } else {
      SideHigh(v, d, p, m, t);
    }
    Distribute(2 * t - 1, 2, p);
    assert IsHalfEven(m, p, t);
    RoundingIsUnique(m, p, t, HalfEven(m, p));
  }

  /**
    For a fraction up to one whose denominator is below two million, the six-digit text is
    "1.000000" exactly when the fraction is one.
   */
  lemma FullRatioMeansOne(n: int, d: int, k: nat)
    requires 0 <= n <= d && 0 < d < 2 * MILLION && d < Pow10(k) && k > 0
    ensures Ratio(n, d, k) == MILLION <==> n == d
    ensures 0 <= Ratio(n, d, k) <= MILLION
  {
    DoubleRoundingIsHarmless(n, d, k);
    var t := HalfEven(n * MILLION, d);
    assert IsHalfEven(0, 1, 0) && IsHalfEven(MILLION, 1, MILLION);
    RoundingIsMonotone(0, 1, 0, n * MILLION, d, t);
    RoundingIsMonotone(n * MILLION, d, t, MILLION, 1, MILLION);
    if n == d {
      RoundingIsMonotone(MILLION, 1, MILLION, n * MILLION, d, t);
    } else {
      ShortOfOne(n, d, t);
    }
  }

  lemma ShortOfOne(n: int, d: int, t: int)
    requires 0 <= n < d < 2 * MILLION && IsHalfEven(n * MILLION, d, t)
    ensures t < MILLION
  {
    assert 2 * (n * MILLION) < (2 * MILLION - 1) * d;
    UnscaleStrict(2 * t - 1, 2 * MILLION - 1, d);
  }

  /** The bound is tight: 1999999/2000000 is printed as "1.000000". */
  lemma FullRatioBoundIsTight(k: nat)
    requires 2 * MILLION < Pow10(k) && k > 0
    ensures Ratio(1_999_999, 2 * MILLION, k) == MILLION
  {
    DoubleRoundingIsHarmless(1_999_999, 2 * MILLION, k);
    RoundingIsUnique(1_999_999 * MILLION, 2 * MILLION, HalfEven(1_999_999 * MILLION, 2 * MILLION), MILLION);
  }

  /** A larger fraction never has a smaller six-digit text. */
  lemma RatioIsMonotone(n: int, d: int, m: int, e: int, k: nat)
    requires 0 < d < Pow10(k) && 0 < e < Pow10(k) && k > 0 && n * e <= m * d
    ensures Ratio(n, d, k) <= Ratio(m, e, k)
  {
    DoubleRoundingIsHarmless(n, d, k);
    DoubleRoundingIsHarmless(m, e, k);
    assert n * MILLION * e <= m * MILLION * d by {
      ScaleAtMost(n * e, m * d, MILLION);
      Shuffle(n, e, MILLION);
      Shuffle(m, d, MILLION);
      Shuffle(n, MILLION, e);
      Shuffle(m, MILLION, d);
    }
    RoundingIsMonotone(n * MILLION, d, HalfEven(n * MILLION, d), m * MILLION, e, HalfEven(m * MILLION, e));
  }

  // ---------------------------------------------------------------- the CI cost model

  /** Prices and percentages are exact decimals: integers over a common scale. */
  datatype Baseline = Baseline(prices: seq<nat>, minutes: seq<nat>, priceScale: nat,
                               minimumReduction: int, maximumReduction: int, percentScale: nat,
                               storedGross: int, storedLow: int, storedHigh: int)

  /** Amounts in thousandths. */
  datatype Estimate = Estimate(gross: int, low: int, high: int)

  function Cost(prices: seq<nat>, minutes: seq<nat>): nat
    requires |prices| == |minutes|
  {
    if prices == [] then 0 else prices[0] * minutes[0] + Cost(prices[1..], minutes[1..])
  }

  predicate Wellformed(b: Baseline) {
    |b.prices| == |b.minutes| && b.priceScale > 0 && b.percentScale > 0
  }

  /** `estimate_cost`. */
  function EstimateCost(b: Baseline): Result<Estimate>
    requires Wellformed(b)
  {
    var whole := 100 * b.percentScale;
    if !(0 <= b.minimumReduction <= b.maximumReduction < whole) then Fail("reduction")
    else
      var gross := HalfEven(Cost(b.prices, b.minutes) * 1000, b.priceScale);
      var low := HalfEven(gross * (whole - b.maximumReduction), whole);
      var high := HalfEven(gross * (whole - b.minimumReduction), whole);
      if gross != b.storedGross then Fail("gross")
      else if low != b.storedLow then Fail("low")
      else if high != b.storedHigh then Fail("high")
      else Ok(Estimate(gross, low, high))
  }

  /** Rounded shares of an amount keep the order of the shares. */
  lemma SharesAreOrdered(gross: int, small: int, large: int, whole: int)
    requires gross >= 0 && 0 <= small <= large <= whole && whole > 0
    ensures 0 <= HalfEven(gross * small, whole) <= HalfEven(gross * large, whole) <= gross
  {
    var low, high := HalfEven(gross * small, whole), HalfEven(gross * large, whole);
    assert IsHalfEven(0, 1, 0) && IsHalfEven(gross, 1, gross);
    ScaleAtMost(0, small, gross);
    ScaleAtMost(small, large, gross);
    ScaleAtMost(large, whole, gross);
    RoundingIsMonotone(0, 1, 0, gross * small, whole, low);
    ScaleAtMost(gross * small, gross * large, whole);
    RoundingIsMonotone(gross * small, whole, low, gross * large, whole, high);
    RoundingIsMonotone(gross * large, whole, high, gross, 1, gross);
  }

  /** What is accepted is ordered, non-negative, and is what the baseline stored. */
  lemma EstimateIsOrdered(b: Baseline)
    requires Wellformed(b) && EstimateCost(b).Ok?
    ensures var r := EstimateCost(b).value;
            0 <= r.low <= r.high <= r.gross
            && r == Estimate(b.storedGross, b.storedLow, b.storedHigh)
  {
    var r := EstimateCost(b).value;
    var whole := 100 * b.percentScale;
    assert IsHalfEven(0, 1, 0);
    RoundingIsMonotone(0, 1, 0, Cost(b.prices, b.minutes) * 1000, b.priceScale, r.gross);
    SharesAreOrdered(r.gross, whole - b.maximumReduction, whole - b.minimumReduction, whole);
  }
}
