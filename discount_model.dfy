/**
 * The linear discount curve of the PT oracle: a principal token is worth its
 * underlying asset minus a discount that is linear in the time left to
 * maturity, clamped at 100%, and exactly the underlying at or after expiry.
 *
 * All quantities are unsigned fixed-point numbers scaled by PRECISION and every
 * division truncates, as uint256 division does.
 */
module DiscountModel {

  /** 1.0 (and 100%) in the oracle's fixed-point scale. */
  const PRECISION: nat := 1_000_000_000_000_000_000

  /** Seconds in a (365-day) year. */
  const YEAR: nat := 365 * 24 * 3600

  function Min(a: nat, b: nat): nat {
    if a <= b then a else b
  }

  /**
   * Time left until `expiry`, as a PRECISION-scaled fraction of a year
   * (truncated); zero once `now` has reached `expiry`.
   */
  function TimeToMaturityYears(expiry: nat, now: nat): (r: nat)
    ensures now < expiry ==> r * YEAR <= (expiry - now) * PRECISION < (r + 1) * YEAR
    ensures expiry <= now ==> r == 0
  {
    if now < expiry then (expiry - now) * PRECISION / YEAR else 0
  }

  /**
   * The discount fraction for the given curve and time to maturity:
   * `slope * ttmYears / PRECISION + intercept`, capped at 100%.
   */
  function Discount(slope: nat, intercept: nat, ttmYears: nat): (d: nat)
    ensures d <= PRECISION
    ensures intercept <= d || d == PRECISION
    ensures d < PRECISION ==> d * PRECISION <= slope * ttmYears + intercept * PRECISION
    ensures d < PRECISION ==> slope * ttmYears + intercept * PRECISION < (d + 1) * PRECISION
    ensures d == PRECISION ==> PRECISION * PRECISION <= slope * ttmYears + intercept * PRECISION + PRECISION - 1
  {
    Min(PRECISION, slope * ttmYears / PRECISION + intercept)
  }

  /** The underlying price reduced by `discount`. */
  function DiscountedPrice(underlying: nat, discount: nat): (p: nat)
    requires discount <= PRECISION
    ensures p <= underlying
    ensures discount == 0 ==> p == underlying
    ensures discount == PRECISION ==> p == 0
  {
    MulLeMul(underlying, PRECISION - discount, PRECISION);
    underlying * (PRECISION - discount) / PRECISION
  }

  /**
   * The PT price the oracle reports at time `now`, given the underlying price:
   * the underlying itself at or after expiry, the discounted price before.
   */
  function PtPrice(underlying: nat, expiry: nat, now: nat, slope: nat, intercept: nat): (p: nat)
    ensures p <= underlying
    ensures expiry <= now ==> p == underlying
    ensures now < expiry && PRECISION <= intercept ==> p == 0
  {
    if now >= expiry then underlying
    else DiscountedPrice(underlying, Discount(slope, intercept, TimeToMaturityYears(expiry, now)))
  }

  // ---------------------------------------------------------------------------
  // Arithmetic helpers

  lemma MulLeMul(a: nat, b: nat, c: nat)
    requires b <= c
    ensures a * b <= a * c
  {
  }

  lemma DivLeDiv(x: nat, y: nat, d: nat)
    requires x <= y && 0 < d
    ensures x / d <= y / d
  {
    var qx, qy := x / d, y / d;
    if qx > qy {
      MulLeMul(d, qy + 1, qx);
    }
  }

  // ---------------------------------------------------------------------------
  // Monotonicity of the curve

  /** Less time to maturity never means more time left on the fixed-point clock. */
  lemma TimeToMaturityAntitone(expiry: nat, t1: nat, t2: nat)
    requires t1 <= t2
    ensures TimeToMaturityYears(expiry, t2) <= TimeToMaturityYears(expiry, t1)
  {
    if t2 < expiry {
      MulLeMul(PRECISION, expiry - t2, expiry - t1);
      DivLeDiv((expiry - t2) * PRECISION, (expiry - t1) * PRECISION, YEAR);
    }
  }

  /** The discount never shrinks when the time to maturity grows. */
  lemma DiscountMonotone(slope: nat, intercept: nat, y1: nat, y2: nat)
    requires y1 <= y2
    ensures Discount(slope, intercept, y1) <= Discount(slope, intercept, y2)
  {
    MulLeMul(slope, y1, y2);
    DivLeDiv(slope * y1, slope * y2, PRECISION);
  }

  /** A larger discount never gives a larger price. */
  lemma DiscountedPriceAntitone(underlying: nat, d1: nat, d2: nat)
    requires d1 <= d2 <= PRECISION
    ensures DiscountedPrice(underlying, d2) <= DiscountedPrice(underlying, d1)
  {
    MulLeMul(underlying, PRECISION - d2, PRECISION - d1);
    DivLeDiv(underlying * (PRECISION - d2), underlying * (PRECISION - d1), PRECISION);
  }

  /**
   * With the curve and the underlying price fixed, the PT price never
   * decreases as time moves towards (and past) expiry.
   */
  lemma PriceMonotoneInTime(underlying: nat, expiry: nat, slope: nat, intercept: nat, t1: nat, t2: nat)
    requires t1 <= t2
    ensures PtPrice(underlying, expiry, t1, slope, intercept) <= PtPrice(underlying, expiry, t2, slope, intercept)
  {
    if t2 < expiry {
      TimeToMaturityAntitone(expiry, t1, t2);
      var y1, y2 := TimeToMaturityYears(expiry, t1), TimeToMaturityYears(expiry, t2);
      DiscountMonotone(slope, intercept, y2, y1);
      DiscountedPriceAntitone(underlying, Discount(slope, intercept, y2), Discount(slope, intercept, y1));
    }
  }

  /** A higher underlying price never gives a lower PT price. */
  lemma PriceMonotoneInUnderlying(u1: nat, u2: nat, expiry: nat, now: nat, slope: nat, intercept: nat)
    requires u1 <= u2
    ensures PtPrice(u1, expiry, now, slope, intercept) <= PtPrice(u2, expiry, now, slope, intercept)
  {
    if now < expiry {
      var d := Discount(slope, intercept, TimeToMaturityYears(expiry, now));
      MulLeMul(PRECISION - d, u1, u2);
      DivLeDiv(u1 * (PRECISION - d), u2 * (PRECISION - d), PRECISION);
    }
  }

  /**
   * Before expiry, a strictly higher underlying price gives a strictly higher
   * PT price as long as the discount is short of 100% and the two prices are
   * at least PRECISION apart in raw units (one unit of the fixed-point scale).
   */
  lemma PriceStrictlyMonotoneInUnderlying(u1: nat, u2: nat, expiry: nat, now: nat, slope: nat, intercept: nat)
    requires u1 + PRECISION <= u2
    requires now < expiry
    requires Discount(slope, intercept, TimeToMaturityYears(expiry, now)) < PRECISION
    ensures PtPrice(u1, expiry, now, slope, intercept) < PtPrice(u2, expiry, now, slope, intercept)
  {
    var d := Discount(slope, intercept, TimeToMaturityYears(expiry, now));
    var k := PRECISION - d;
    assert 1 <= k;
    assert u2 * k >= u1 * k + PRECISION * k;
    assert u1 * k / PRECISION < (u1 * k + PRECISION * k) / PRECISION by {
      assert (u1 * k + PRECISION * k) / PRECISION == u1 * k / PRECISION + k;
    }
    DivLeDiv(u1 * k + PRECISION * k, u2 * k, PRECISION);
  }

  /**
   * Before expiry, any positive discount prices the PT strictly below a
   * positive underlying.
   */
  lemma PriceBelowUnderlying(underlying: nat, expiry: nat, now: nat, slope: nat, intercept: nat)
    requires now < expiry && 0 < underlying
    requires 0 < Discount(slope, intercept, TimeToMaturityYears(expiry, now))
    ensures PtPrice(underlying, expiry, now, slope, intercept) < underlying
  {
    var d := Discount(slope, intercept, TimeToMaturityYears(expiry, now));
    MulLeMul(underlying, PRECISION - d, PRECISION - 1);
    DivLeDiv(underlying * (PRECISION - d), underlying * PRECISION - underlying, PRECISION);
    assert (underlying * PRECISION - underlying) / PRECISION < underlying;
  }

  // ---------------------------------------------------------------------------
  // Exact instances of the curve

  /** Slope 50% per year, one year to maturity: the PT is worth half the underlying. */
  lemma HalfSlopeOneYear(start: nat)
    ensures PtPrice(PRECISION, start + YEAR, start, 5 * PRECISION / 10, 0) == 5 * PRECISION / 10
  {
  }

  /** Slope 50% per year, half a year to maturity: 75% of the underlying. */
  lemma HalfSlopeHalfYear(start: nat)
    ensures PtPrice(PRECISION, start + YEAR, start + YEAR / 2, 5 * PRECISION / 10, 0) == 75 * PRECISION / 100
  {
  }

  /** Slope 50% per year, one day to maturity: within the asserted tolerance of 1 - 0.5/365. */
  lemma HalfSlopeOneDay(start: nat)
    ensures var p := PtPrice(PRECISION, start + YEAR, start + YEAR - 24 * 3600, 5 * PRECISION / 10, 0);
            var expected := PRECISION - 5 * PRECISION / 10 * PRECISION / (365 * PRECISION);
            p == 998_630_136_986_301_370 && expected - 100_000_000_000_000 < p < expected + 100_000_000_000_000
  {
  }

  /** Slope 20% and intercept 10%, one year to maturity: 70% of the underlying. */
  lemma SlopeAndInterceptOneYear(start: nat)
    ensures PtPrice(PRECISION, start + YEAR, start, 2 * PRECISION / 10, PRECISION / 10) == 7 * PRECISION / 10
  {
    assert TimeToMaturityYears(start + YEAR, start) == PRECISION;
  }

  /** Slope 20% and intercept 10%, half a year to maturity: 80% of the underlying. */
  lemma SlopeAndInterceptHalfYear(start: nat)
    ensures PtPrice(PRECISION, start + YEAR, start + YEAR / 2, 2 * PRECISION / 10, PRECISION / 10) == 8 * PRECISION / 10
  {
    assert TimeToMaturityYears(start + YEAR, start + YEAR / 2) == PRECISION / 2;
  }

  /** Slope 20% and intercept 10%, one hour to maturity: within 0.1% of 0.9. */
  lemma SlopeAndInterceptOneHour(start: nat)
    ensures var p := PtPrice(PRECISION, start + YEAR, start + YEAR - 3600, 2 * PRECISION / 10, PRECISION / 10);
            p == 899_977_168_949_771_690 && 9 * PRECISION / 10 - PRECISION / 1000 < p
  {
  }

  /** Slope 36.5% per year with an underlying of 2.0, 100 days to maturity: 1.8 (to within 0.001). */
  lemma LinearProgression100Days(start: nat)
    ensures PtPrice(2 * PRECISION, start + 100 * 24 * 3600, start, 365 * PRECISION / 1000, 0) == 18 * PRECISION / 10 + 2
  {
    assert TimeToMaturityYears(start + 100 * 24 * 3600, start) == 273_972_602_739_726_027;
  }

  /** As above, 50 days to maturity: 1.9 (to within 0.001). */
  lemma LinearProgression50Days(start: nat)
    ensures PtPrice(2 * PRECISION, start + 100 * 24 * 3600, start + 50 * 24 * 3600, 365 * PRECISION / 1000, 0) == 19 * PRECISION / 10 + 2
  {
    assert TimeToMaturityYears(start + 100 * 24 * 3600, start + 50 * 24 * 3600) == 136_986_301_369_863_013;
  }

  /** As above, 10 days to maturity: 1.98 (to within 0.001). */
  lemma LinearProgression10Days(start: nat)
    ensures PtPrice(2 * PRECISION, start + 100 * 24 * 3600, start + 90 * 24 * 3600, 365 * PRECISION / 1000, 0) == 198 * PRECISION / 100 + 2
  {
    assert TimeToMaturityYears(start + 100 * 24 * 3600, start + 90 * 24 * 3600) == 27_397_260_273_972_602;
  }

  /** Slope 5% per year, 30 days to maturity (the default deployment): about 99.59% of the underlying. */
  lemma DefaultDeployment(start: nat)
    ensures var p := PtPrice(PRECISION, start + 30 * 24 * 3600, start, 5 * PRECISION / 100, 0);
            && p == 995_890_410_958_904_110
            && 0 < p < PRECISION
  {
  }

  /**
   * The default deployment one hour later: the price has moved (up), so a
   * `price_w()` in the later block stores a different value.
   */
  lemma DefaultDeploymentOneHourLater(start: nat)
    ensures PtPrice(PRECISION, start + 30 * 24 * 3600, start + 3600, 5 * PRECISION / 100, 0) == 995_896_118_721_461_188
    ensures PtPrice(PRECISION, start + 30 * 24 * 3600, start + 3600, 5 * PRECISION / 100, 0)
         != PtPrice(PRECISION, start + 30 * 24 * 3600, start, 5 * PRECISION / 100, 0)
  {
    DefaultDeployment(start);
    assert TimeToMaturityYears(start + 30 * 24 * 3600, start + 3600) == 82_077_625_570_776_255;
  }

  /**
   * The default deployment with the underlying doubled to 2.0: the PT price
   * rises and stays strictly below the new underlying.
   */
  lemma DefaultDeploymentDoubledUnderlying(start: nat)
    ensures var p1 := PtPrice(PRECISION, start + 30 * 24 * 3600, start, 5 * PRECISION / 100, 0);
            var p2 := PtPrice(2 * PRECISION, start + 30 * 24 * 3600, start, 5 * PRECISION / 100, 0);
            p1 < p2 < 2 * PRECISION
  {
    DefaultDeployment(start);
    PriceStrictlyMonotoneInUnderlying(PRECISION, 2 * PRECISION, start + 30 * 24 * 3600, start, 5 * PRECISION / 100, 0);
    PriceBelowUnderlying(2 * PRECISION, start + 30 * 24 * 3600, start, 5 * PRECISION / 100, 0);
  }

  /** Slope 100% per year and intercept 90%, 10 days to maturity: heavily discounted but positive. */
  lemma HeavyDiscount(start: nat)
    ensures var p := PtPrice(PRECISION, start + 10 * 24 * 3600, start, PRECISION, 9 * PRECISION / 10);
            p == 72_602_739_726_027_398 && 0 < p < PRECISION / 10
  {
  }
}
