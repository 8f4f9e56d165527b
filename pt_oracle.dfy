/**
 * The PtOracle contract as a stateful object: immutable deployment data, the
 * governed curve and limits, the two roles and the price cache, each a field
 * that its operations update in place.  The block timestamp and the
 * underlying oracle's current price are passed to each call as `now` and
 * `underlying`; a revert is an `Outcome.Fail` that leaves every field as it
 * was.
 */
module Oracle {
  import opened DiscountModel
  import opened Governance
  import PriceCache

  class PtOracle {
    /** The principal token and the oracle giving the underlying price. */
    const pt: Address
    const underlyingOracle: Address
    /** The token's expiry, read once at deployment. */
    const ptExpiry: nat
    const admin: Address

    var manager: Address
    var slope: nat
    var intercept: nat
    var lastDiscountUpdate: nat
    var maxUpdateInterval: nat
    var maxSlopeChange: nat
    var maxInterceptChange: nat

    var lastPrice: nat
    var lastUpdate: nat

    /** The governed state as a value. */
    function Governor(): Governance.Governor
      reads this
    {
      Governance.Governor(slope, intercept, lastDiscountUpdate, maxUpdateInterval,
                          maxSlopeChange, maxInterceptChange, manager, admin)
    }

    /** The price cache as a value. */
    function Cache(): PriceCache.Cache
      reads this
    {
      PriceCache.Cache(lastPrice, lastUpdate)
    }

    ghost predicate Valid()
      reads this
    {
      Governor().Valid()
    }

    /**
     * Deployment at time `now`: the cooldown clock starts at `now`, both change
     * limits are 0 (unrestricted) and the cache is empty.
     */
    constructor (pt: Address, underlyingOracle: Address, expiry: nat, slope: nat, intercept: nat,
                 maxUpdateInterval: nat, manager: Address, admin: Address, now: nat)
      requires slope <= PRECISION && intercept <= PRECISION
      ensures Valid()
      ensures this.pt == pt && this.underlyingOracle == underlyingOracle && ptExpiry == expiry
      ensures Governor() == Governance.Governor(slope, intercept, now, maxUpdateInterval, 0, 0, manager, admin)
      ensures Cache() == PriceCache.Empty
    {
      this.pt := pt;
      this.underlyingOracle := underlyingOracle;
      ptExpiry := expiry;
      this.admin := admin;
      this.manager := manager;
      this.slope := slope;
      this.intercept := intercept;
      lastDiscountUpdate := now;
      this.maxUpdateInterval := maxUpdateInterval;
      maxSlopeChange := 0;
      maxInterceptChange := 0;
      lastPrice := 0;
      lastUpdate := 0;
    }

    /** `price()`: always recomputes from the current curve; changes nothing. */
    method Price(now: nat, underlying: nat) returns (p: nat)
      ensures p == PtPrice(underlying, ptExpiry, now, slope, intercept)
      ensures p <= underlying
      ensures ptExpiry <= now ==> p == underlying
    {
      if now >= ptExpiry {
        return underlying;
      }
      var ttmYears := (ptExpiry - now) * PRECISION / YEAR;
      var discount := slope * ttmYears / PRECISION + intercept;
      if discount > PRECISION {
        discount := PRECISION;
      }
      p := underlying * (PRECISION - discount) / PRECISION;
    }

    /**
     * `price_w()`: the cached price when it was written at `now`, otherwise the
     * price recomputed as by `price()` and stored with `now`.
     */
    method PriceW(now: nat, underlying: nat) returns (p: nat)
      modifies this`lastPrice, this`lastUpdate
      ensures Cache() == PriceCache.Write(old(Cache()), now, PtPrice(underlying, ptExpiry, now, slope, intercept))
      ensures p == lastPrice && lastUpdate == now
      ensures old(lastUpdate) != now && ptExpiry <= now ==> p == underlying
    {
      if lastUpdate == now {
        return lastPrice;
      }
      p := Price(now, underlying);
      lastPrice := p;
      lastUpdate := now;
    }

    /** `set_linear_discount(new_slope, new_intercept)` sent by `caller` at `now`. */
    method SetLinearDiscount(caller: Address, now: nat, newSlope: nat, newIntercept: nat) returns (r: Outcome)
      requires Valid()
      modifies this`slope, this`intercept, this`lastDiscountUpdate
      ensures Valid()
      ensures var res := Governance.SetLinearDiscount(old(Governor()), caller, now, newSlope, newIntercept);
              r == Status(res) && Governor() == (if res.Ok? then res.value else old(Governor()))
    {
      if caller != manager {
        return Fail(NotManager);
      }
      if now <= lastDiscountUpdate + maxUpdateInterval {
        return Fail(UpdateIntervalNotElapsed);
      }
      if newIntercept > PRECISION {
        return Fail(InterceptExceedsPrecision);
      }
      if newSlope > PRECISION {
        return Fail(SlopeExceedsPrecision);
      }
      if maxSlopeChange > 0 {
        var change := if newSlope > slope then newSlope - slope else slope - newSlope;
        if change > maxSlopeChange {
          return Fail(SlopeChangeExceedsLimit);
        }
      }
      if maxInterceptChange > 0 {
        var change := if newIntercept > intercept then newIntercept - intercept else intercept - newIntercept;
        if change > maxInterceptChange {
          return Fail(InterceptChangeExceedsLimit);
        }
      }
      slope := newSlope;
      intercept := newIntercept;
      lastDiscountUpdate := now;
      r := Pass;
    }

    /** `set_slope_from_apy(apy)` sent by `caller` at `now`. */
    method SetSlopeFromApy(caller: Address, now: nat, apy: nat) returns (r: Outcome)
      requires Valid()
      modifies this`slope, this`intercept, this`lastDiscountUpdate
      ensures Valid()
      ensures var res := Governance.SetSlopeFromApy(old(Governor()), caller, now, apy);
              r == Status(res) && Governor() == (if res.Ok? then res.value else old(Governor()))
    {
      if caller != manager {
        return Fail(NotManager);
      }
      if now <= lastDiscountUpdate + maxUpdateInterval {
        return Fail(UpdateIntervalNotElapsed);
      }
      var newSlope := apy * PRECISION / (PRECISION + apy);
      assert newSlope == SlopeFromApy(apy);
      if maxSlopeChange > 0 {
        var change := if newSlope > slope then newSlope - slope else slope - newSlope;
        if change > maxSlopeChange {
          return Fail(SlopeChangeExceedsLimit);
        }
      }
      slope := newSlope;
      intercept := 0;
      lastDiscountUpdate := now;
      r := Pass;
    }

    /** `set_limits(max_update_interval, max_slope_change, max_intercept_change)` sent by `caller`. */
    method SetLimits(caller: Address, newMaxUpdateInterval: nat, newMaxSlopeChange: nat, newMaxInterceptChange: nat)
      returns (r: Outcome)
      requires Valid()
      modifies this`maxUpdateInterval, this`maxSlopeChange, this`maxInterceptChange
      ensures Valid()
      ensures var res := Governance.SetLimits(old(Governor()), caller, newMaxUpdateInterval, newMaxSlopeChange, newMaxInterceptChange);
              r == Status(res) && Governor() == (if res.Ok? then res.value else old(Governor()))
    {
      if caller != admin {
        return Fail(NotAdmin);
      }
      maxUpdateInterval := newMaxUpdateInterval;
      maxSlopeChange := newMaxSlopeChange;
      maxInterceptChange := newMaxInterceptChange;
      r := Pass;
    }

    /** `set_manager(new_manager)` sent by `caller`. */
    method SetManager(caller: Address, newManager: Address) returns (r: Outcome)
      requires Valid()
      modifies this`manager
      ensures Valid()
      ensures var res := Governance.SetManager(old(Governor()), caller, newManager);
              r == Status(res) && Governor() == (if res.Ok? then res.value else old(Governor()))
    {
      if caller != admin {
        return Fail(NotAdmin);
      }
      if newManager == ZERO_ADDRESS {
        return Fail(InvalidManagerAddress);
      }
      manager := newManager;
      r := Pass;
    }
  }

  /**
   * The cache and rate-limit scenarios, run against one deployment: repeated
   * `price_w()` in one block agrees with itself and with `price()`; an hour
   * later `price_w()` stores a different price; a manager
   * update waits out the initial cooldown; an immediate second update is
   * refused and changes nothing; the cooldown is strict.
   */
  method CacheAndCooldownScenario(manager: Address, admin: Address, start: nat)
    returns (p1: nat, p2: nat, p3: nat, first: Outcome, second: Outcome, atBoundary: Outcome, afterBoundary: Outcome,
             firstUpdate: nat, finalSlope: nat, finalIntercept: nat, finalUpdate: nat)
    requires manager != ZERO_ADDRESS && start > 0
    ensures p1 == p2 == PtPrice(PRECISION, start + 30 * 24 * 3600, start, 5 * PRECISION / 100, 0)
    ensures p3 == PtPrice(PRECISION, start + 30 * 24 * 3600, start + 3600, 5 * PRECISION / 100, 0) && p3 != p1
    ensures first == Pass && second == Fail(UpdateIntervalNotElapsed)
    ensures atBoundary == Fail(UpdateIntervalNotElapsed) && afterBoundary == Pass
    ensures finalSlope == 300 && finalIntercept == 150 && finalUpdate > firstUpdate
  {
    var o := new PtOracle(1, 2, start + 30 * 24 * 3600, 5 * PRECISION / 100, 0, 86400, manager, admin, start);
    p1 := o.PriceW(start, PRECISION);
    p2 := o.PriceW(start, PRECISION);
    p3 := o.PriceW(start + 3600, PRECISION);
    DefaultDeploymentOneHourLater(start);
    var t := start + 86401;
    first := o.SetLinearDiscount(manager, t, 200, 100);
    second := o.SetLinearDiscount(manager, t, 300, 150);
    firstUpdate := o.lastDiscountUpdate;
    assert o.slope == 200 && o.intercept == 100 && firstUpdate == t;
    atBoundary := o.SetLinearDiscount(manager, t + 86400, 300, 150);
    afterBoundary := o.SetLinearDiscount(manager, t + 86401, 300, 150);
    finalSlope, finalIntercept, finalUpdate := o.slope, o.intercept, o.lastDiscountUpdate;
  }
}
