/**
 * The parameter governor of the PT oracle, on values: the discount curve
 * (slope, intercept), the time of its last accepted change, the limits the
 * admin sets on how often and how far the manager may move it, and the two
 * roles.  Each operation either returns the new state or the error the
 * contract reverts with; a reverted call changes nothing.
 */
module Governance {
  import opened DiscountModel

  /** A caller identity; the zero address is the null identity. */
  type Address = nat

  const ZERO_ADDRESS: Address := 0

  datatype Option<T> = None | Some(value: T)

  /** The reasons a governance call reverts. */
  datatype Error =
    | NotManager
    | NotAdmin
    | UpdateIntervalNotElapsed
    | SlopeExceedsPrecision
    | InterceptExceedsPrecision
    | SlopeChangeExceedsLimit
    | InterceptChangeExceedsLimit
    | InvalidManagerAddress

  /**
   * The error a revert string identifies, if any: what a caller matching on
   * the revert reason learns.
   */
  function ErrorOf(m: string): Option<Error> {
    if m == "caller is not manager" then Some(NotManager)
    else if m == "caller is not admin" then Some(NotAdmin)
    else if m == "update interval not elapsed" then Some(UpdateIntervalNotElapsed)
    else if m == "slope exceeds precision" then Some(SlopeExceedsPrecision)
    else if m == "intercept exceeds precision" then Some(InterceptExceedsPrecision)
    else if m == "slope change exceeds limit" then Some(SlopeChangeExceedsLimit)
    else if m == "intercept change exceeds limit" then Some(InterceptChangeExceedsLimit)
    else if m == "invalid manager address" then Some(InvalidManagerAddress)
    else None
  }

  /** The revert string of each error; it identifies the error it came from. */
  function Message(e: Error): (m: string)
    ensures ErrorOf(m) == Some(e)
  {
    match e
    case NotManager => "caller is not manager"
    case NotAdmin => "caller is not admin"
    case UpdateIntervalNotElapsed => "update interval not elapsed"
    case SlopeExceedsPrecision => "slope exceeds precision"
    case InterceptExceedsPrecision => "intercept exceeds precision"
    case SlopeChangeExceedsLimit => "slope change exceeds limit"
    case InterceptChangeExceedsLimit => "intercept change exceeds limit"
    case InvalidManagerAddress => "invalid manager address"
  }

  datatype Result<T> = Ok(value: T) | Err(error: Error)

  /** What a caller observes of a call: success, or a revert with its error. */
  datatype Outcome = Pass | Fail(error: Error)

  function Status<T>(r: Result<T>): (o: Outcome)
    ensures o.Pass? <==> r.Ok?
    ensures r.Err? ==> o == Fail(r.error)
  {
    if r.Ok? then Pass else Fail(r.error)
  }

  /** The governed state of one oracle. */
  datatype Governor = Governor(
    slope: nat,
    intercept: nat,
    lastDiscountUpdate: nat,
    maxUpdateInterval: nat,
    maxSlopeChange: nat,
    maxInterceptChange: nat,
    manager: Address,
    admin: Address)
  {
    /** Both curve parameters stay within 100%. */
    predicate Valid() {
      slope <= PRECISION && intercept <= PRECISION
    }
  }

  /** |a - b| on unsigned values. */
  function Delta(a: nat, b: nat): (d: nat)
    ensures a + d == b || b + d == a
  {
    if a <= b then b - a else a - b
  }

  /** A move from `current` to `next` respects `limit`, where 0 means unrestricted. */
  predicate WithinLimit(current: nat, next: nat, limit: nat) {
    limit == 0 || Delta(current, next) <= limit
  }

  /** More than `maxUpdateInterval` seconds have passed since the last accepted change. */
  predicate CooldownElapsed(g: Governor, now: nat) {
    now > g.lastDiscountUpdate + g.maxUpdateInterval
  }

  /** The checks shared by both manager operations: the caller, then the cooldown. */
  function ManagerGate(g: Governor, caller: Address, now: nat): (o: Outcome)
    ensures o.Pass? <==> caller == g.manager && CooldownElapsed(g, now)
    ensures caller != g.manager ==> o == Fail(NotManager)
    ensures caller == g.manager && !CooldownElapsed(g, now) ==> o == Fail(UpdateIntervalNotElapsed)
  {
    if caller != g.manager then Fail(NotManager)
    else if !CooldownElapsed(g, now) then Fail(UpdateIntervalNotElapsed)
    else Pass
  }

  /** The check shared by both admin operations. */
  function AdminGate(g: Governor, caller: Address): (o: Outcome)
    ensures o.Pass? <==> caller == g.admin
    ensures caller != g.admin ==> o == Fail(NotAdmin)
  {
    if caller != g.admin then Fail(NotAdmin) else Pass
  }

  /**
   * `set_linear_discount(new_slope, new_intercept)` called by `caller` at `now`.
   */
  function SetLinearDiscount(g: Governor, caller: Address, now: nat, newSlope: nat, newIntercept: nat): (r: Result<Governor>)
    ensures r.Ok? <==>
      && caller == g.manager
      && CooldownElapsed(g, now)
      && newSlope <= PRECISION && newIntercept <= PRECISION
      && WithinLimit(g.slope, newSlope, g.maxSlopeChange)
      && WithinLimit(g.intercept, newIntercept, g.maxInterceptChange)
    ensures r.Ok? ==> r.value == g.(slope := newSlope, intercept := newIntercept, lastDiscountUpdate := now)
    ensures r.Ok? ==> r.value.Valid() && r.value.lastDiscountUpdate > g.lastDiscountUpdate
    ensures caller != g.manager ==> r == Err(NotManager)
    ensures caller == g.manager && !CooldownElapsed(g, now) ==> r == Err(UpdateIntervalNotElapsed)
    ensures caller == g.manager && CooldownElapsed(g, now) && newIntercept > PRECISION
            ==> r == Err(InterceptExceedsPrecision)
    ensures caller == g.manager && CooldownElapsed(g, now) && newIntercept <= PRECISION && newSlope > PRECISION
            ==> r == Err(SlopeExceedsPrecision)
    ensures caller == g.manager && CooldownElapsed(g, now) && newIntercept <= PRECISION && newSlope <= PRECISION
            && !WithinLimit(g.slope, newSlope, g.maxSlopeChange)
            ==> r == Err(SlopeChangeExceedsLimit)
    ensures caller == g.manager && CooldownElapsed(g, now) && newIntercept <= PRECISION && newSlope <= PRECISION
            && WithinLimit(g.slope, newSlope, g.maxSlopeChange) && !WithinLimit(g.intercept, newIntercept, g.maxInterceptChange)
            ==> r == Err(InterceptChangeExceedsLimit)
  {
    var gate := ManagerGate(g, caller, now);
    if gate.Fail? then Err(gate.error)
    else if newIntercept > PRECISION then Err(InterceptExceedsPrecision)
    else if newSlope > PRECISION then Err(SlopeExceedsPrecision)
    else if !WithinLimit(g.slope, newSlope, g.maxSlopeChange) then Err(SlopeChangeExceedsLimit)
    else if !WithinLimit(g.intercept, newIntercept, g.maxInterceptChange) then Err(InterceptChangeExceedsLimit)
    else Ok(g.(slope := newSlope, intercept := newIntercept, lastDiscountUpdate := now))
  }

  /**
   * The per-year slope equivalent to an annual yield `apy`:
   * `apy / (1 + apy)` in fixed point, truncated.
   */
  function SlopeFromApy(apy: nat): (s: nat)
    ensures s < PRECISION
    ensures s <= apy
  {
    SlopeFromApyBounds(apy);
    apy * PRECISION / (PRECISION + apy)
  }

  lemma SlopeFromApyBounds(apy: nat)
    ensures apy * PRECISION / (PRECISION + apy) < PRECISION
    ensures apy * PRECISION / (PRECISION + apy) <= apy
  {
    var d := PRECISION + apy;
    var q := apy * PRECISION / d;
    assert q * d <= apy * PRECISION;
    if q >= PRECISION {
      MulLeMul(d, PRECISION, q);
    }
  }

  /**
   * `set_slope_from_apy(apy)` called by `caller` at `now`: the same gate as
   * `set_linear_discount` and the slope change limit; the intercept becomes 0.
   */
  function SetSlopeFromApy(g: Governor, caller: Address, now: nat, apy: nat): (r: Result<Governor>)
    ensures r.Ok? <==>
      && caller == g.manager
      && CooldownElapsed(g, now)
      && WithinLimit(g.slope, SlopeFromApy(apy), g.maxSlopeChange)
    ensures r.Ok? ==> r.value == g.(slope := SlopeFromApy(apy), intercept := 0, lastDiscountUpdate := now)
    ensures r.Ok? ==> r.value.Valid() && r.value.lastDiscountUpdate > g.lastDiscountUpdate
    ensures caller != g.manager ==> r == Err(NotManager)
    ensures caller == g.manager && !CooldownElapsed(g, now) ==> r == Err(UpdateIntervalNotElapsed)
    ensures caller == g.manager && CooldownElapsed(g, now) && !WithinLimit(g.slope, SlopeFromApy(apy), g.maxSlopeChange)
            ==> r == Err(SlopeChangeExceedsLimit)
  {
    var gate := ManagerGate(g, caller, now);
    var newSlope := SlopeFromApy(apy);
    if gate.Fail? then Err(gate.error)
    else if !WithinLimit(g.slope, newSlope, g.maxSlopeChange) then Err(SlopeChangeExceedsLimit)
    else Ok(g.(slope := newSlope, intercept := 0, lastDiscountUpdate := now))
  }

  /** `set_limits(max_update_interval, max_slope_change, max_intercept_change)` called by `caller`. */
  function SetLimits(g: Governor, caller: Address, maxUpdateInterval: nat, maxSlopeChange: nat, maxInterceptChange: nat): (r: Result<Governor>)
    ensures r.Ok? <==> caller == g.admin
    ensures r.Ok? ==> r.value == g.(maxUpdateInterval := maxUpdateInterval,
                                    maxSlopeChange := maxSlopeChange,
                                    maxInterceptChange := maxInterceptChange)
    ensures r.Err? ==> r.error == NotAdmin
  {
    var gate := AdminGate(g, caller);
    if gate.Fail? then Err(gate.error)
    else Ok(g.(maxUpdateInterval := maxUpdateInterval,
               maxSlopeChange := maxSlopeChange,
               maxInterceptChange := maxInterceptChange))
  }

  /** `set_manager(new_manager)` called by `caller`. */
  function SetManager(g: Governor, caller: Address, newManager: Address): (r: Result<Governor>)
    ensures r.Ok? <==> caller == g.admin && newManager != ZERO_ADDRESS
    ensures r.Ok? ==> r.value == g.(manager := newManager)
    ensures caller != g.admin ==> r == Err(NotAdmin)
    ensures caller == g.admin && newManager == ZERO_ADDRESS ==> r == Err(InvalidManagerAddress)
  {
    var gate := AdminGate(g, caller);
    if gate.Fail? then Err(gate.error)
    else if newManager == ZERO_ADDRESS then Err(InvalidManagerAddress)
    else Ok(g.(manager := newManager))
  }

  // ---------------------------------------------------------------------------
  // Properties of single calls

  /** Distinct errors revert with distinct strings. */
  lemma MessagesDistinct(e1: Error, e2: Error)
    requires e1 != e2
    ensures Message(e1) != Message(e2)
  {
  }

  /**
   * The cooldown is strict: for values within precision and the change
   * limits, a manager call exactly `maxUpdateInterval` seconds after the last
   * change is refused with the interval error, and one second later it is
   * accepted.  Whatever the values, the call at the boundary is refused.
   */
  lemma CooldownBoundary(g: Governor, newSlope: nat, newIntercept: nat)
    ensures SetLinearDiscount(g, g.manager, g.lastDiscountUpdate + g.maxUpdateInterval, newSlope, newIntercept).Err?
    ensures newSlope <= PRECISION && newIntercept <= PRECISION
            && WithinLimit(g.slope, newSlope, g.maxSlopeChange)
            && WithinLimit(g.intercept, newIntercept, g.maxInterceptChange)
            ==> && SetLinearDiscount(g, g.manager, g.lastDiscountUpdate + g.maxUpdateInterval, newSlope, newIntercept)
                   == Err(UpdateIntervalNotElapsed)
                && SetLinearDiscount(g, g.manager, g.lastDiscountUpdate + g.maxUpdateInterval + 1, newSlope, newIntercept).Ok?
  {
  }

  /**
   * After an accepted change at `now`, every further manager change up to and
   * including `now + maxUpdateInterval` is refused, whichever operation it
   * uses; a change that breaks no other check is refused with the interval
   * error.
   */
  lemma CooldownAfterUpdate(g: Governor, now: nat, newSlope: nat, newIntercept: nat, later: nat, s: nat, i: nat, apy: nat)
    requires SetLinearDiscount(g, g.manager, now, newSlope, newIntercept).Ok?
    requires later <= now + g.maxUpdateInterval
    ensures var g' := SetLinearDiscount(g, g.manager, now, newSlope, newIntercept).value;
            && SetLinearDiscount(g', g.manager, later, s, i).Err?
            && SetSlopeFromApy(g', g.manager, later, apy).Err?
    ensures var g' := SetLinearDiscount(g, g.manager, now, newSlope, newIntercept).value;
            s <= PRECISION && i <= PRECISION
            && WithinLimit(g'.slope, s, g'.maxSlopeChange) && WithinLimit(g'.intercept, i, g'.maxInterceptChange)
            ==> SetLinearDiscount(g', g.manager, later, s, i) == Err(UpdateIntervalNotElapsed)
    ensures var g' := SetLinearDiscount(g, g.manager, now, newSlope, newIntercept).value;
            WithinLimit(g'.slope, SlopeFromApy(apy), g'.maxSlopeChange)
            ==> SetSlopeFromApy(g', g.manager, later, apy) == Err(UpdateIntervalNotElapsed)
  {
  }

  /**
   * A slope change of exactly `maxSlopeChange` is accepted in either
   * direction, and one unit more is refused with the slope-change error.
   */
  lemma SlopeChangeBoundary(g: Governor, now: nat, newIntercept: nat)
    requires g.Valid() && g.maxSlopeChange > 0
    requires CooldownElapsed(g, now)
    requires newIntercept <= PRECISION && WithinLimit(g.intercept, newIntercept, g.maxInterceptChange)
    ensures g.slope + g.maxSlopeChange <= PRECISION ==>
              SetLinearDiscount(g, g.manager, now, g.slope + g.maxSlopeChange, newIntercept).Ok?
    ensures g.slope + g.maxSlopeChange + 1 <= PRECISION ==>
              SetLinearDiscount(g, g.manager, now, g.slope + g.maxSlopeChange + 1, newIntercept) == Err(SlopeChangeExceedsLimit)
    ensures g.maxSlopeChange <= g.slope ==>
              SetLinearDiscount(g, g.manager, now, g.slope - g.maxSlopeChange, newIntercept).Ok?
    ensures g.maxSlopeChange + 1 <= g.slope ==>
              SetLinearDiscount(g, g.manager, now, g.slope - g.maxSlopeChange - 1, newIntercept) == Err(SlopeChangeExceedsLimit)
  {
  }

  /**
   * An intercept change of exactly `maxInterceptChange` is accepted in either
   * direction, and one unit more is refused with the intercept-change error.
   */
  lemma InterceptChangeBoundary(g: Governor, now: nat, newSlope: nat)
    requires g.Valid() && g.maxInterceptChange > 0
    requires CooldownElapsed(g, now)
    requires newSlope <= PRECISION && WithinLimit(g.slope, newSlope, g.maxSlopeChange)
    ensures g.intercept + g.maxInterceptChange <= PRECISION ==>
              SetLinearDiscount(g, g.manager, now, newSlope, g.intercept + g.maxInterceptChange).Ok?
    ensures g.intercept + g.maxInterceptChange + 1 <= PRECISION ==>
              SetLinearDiscount(g, g.manager, now, newSlope, g.intercept + g.maxInterceptChange + 1) == Err(InterceptChangeExceedsLimit)
    ensures g.maxInterceptChange <= g.intercept ==>
              SetLinearDiscount(g, g.manager, now, newSlope, g.intercept - g.maxInterceptChange).Ok?
    ensures g.maxInterceptChange + 1 <= g.intercept ==>
              SetLinearDiscount(g, g.manager, now, newSlope, g.intercept - g.maxInterceptChange - 1) == Err(InterceptChangeExceedsLimit)
  {
  }

  /** With both change limits at 0, the manager may move to any curve within 100%. */
  lemma ZeroLimitsUnrestricted(g: Governor, now: nat, newSlope: nat, newIntercept: nat)
    requires g.maxSlopeChange == 0 && g.maxInterceptChange == 0
    requires CooldownElapsed(g, now)
    requires newSlope <= PRECISION && newIntercept <= PRECISION
    ensures SetLinearDiscount(g, g.manager, now, newSlope, newIntercept).Ok?
  {
  }

  /**
   * A call refused for a change limit consumes nothing: at the same
   * timestamp, a compliant call by the same manager is accepted.
   */
  lemma RetryAfterLimitRejection(g: Governor, now: nat, s: nat, i: nat, s': nat, i': nat)
    requires SetLinearDiscount(g, g.manager, now, s, i) in {Err(SlopeChangeExceedsLimit), Err(InterceptChangeExceedsLimit)}
    requires s' <= PRECISION && i' <= PRECISION
    requires WithinLimit(g.slope, s', g.maxSlopeChange) && WithinLimit(g.intercept, i', g.maxInterceptChange)
    ensures SetLinearDiscount(g, g.manager, now, s', i').Ok?
  {
  }

  /**
   * Higher yields never give lower slopes: the APY conversion is monotone.
   */
  lemma SlopeFromApyMonotone(a1: nat, a2: nat)
    requires a1 <= a2
    ensures SlopeFromApy(a1) <= SlopeFromApy(a2)
  {
    var d1, d2 := PRECISION + a1, PRECISION + a2;
    var x1, x2 := a1 * PRECISION, a2 * PRECISION;
    // x1 / d1 <= x2 / d2 as rationals: x1 * d2 <= x2 * d1
    assert x1 * d2 == a1 * PRECISION * PRECISION + a1 * a2 * PRECISION;
    assert x2 * d1 == a2 * PRECISION * PRECISION + a1 * a2 * PRECISION;
    MulLeMul(PRECISION * PRECISION, a1, a2);
    var q1 := x1 / d1;
    assert q1 * d1 <= x1;
    MulLeMul(d2, q1 * d1, x1);
    assert q1 * d2 * d1 <= x2 * d1;
    DivLeDivCross(q1 * d2, x2, d1);
    assert q1 * d2 <= x2;
    QuotientBound(q1, x2, d2);
  }

  /** Dividing both sides of `a * d <= b * d` by `d > 0`. */
  lemma DivLeDivCross(a: nat, b: nat, d: nat)
    requires 0 < d && a * d <= b * d
    ensures a <= b
  {
    if a > b {
      MulLeMul(d, b + 1, a);
    }
  }

  /** `q * d <= x` makes `q` at most the truncated quotient `x / d`. */
  lemma QuotientBound(q: nat, x: nat, d: nat)
    requires 0 < d && q * d <= x
    ensures q <= x / d
  {
    if q > x / d {
      MulLeMul(d, x / d + 1, q);
    }
  }

  /** A quotient pinned from both sides is the truncated quotient. */
  lemma DivIs(x: nat, d: nat, q: nat)
    requires 0 < d && q * d <= x < (q + 1) * d
    ensures x / d == q
  {
    if x / d < q {
      MulLeMul(d, x / d + 1, q);
    } else if x / d > q {
      MulLeMul(d, q + 1, x / d);
    }
  }

  /**
   * The APY scenario: from a 5% slope under a 2% slope-change limit, a 10%
   * APY (slope about 9.09%) is refused, and a 6.5% APY is accepted with a
   * slope strictly between 5% and 7% and a zero intercept.
   */
  lemma ApyRespectsSlopeLimit(g: Governor, now: nat)
    requires g.slope == 5 * PRECISION / 100 && g.maxSlopeChange == 2 * PRECISION / 100
    requires CooldownElapsed(g, now)
    ensures SetSlopeFromApy(g, g.manager, now, PRECISION / 10) == Err(SlopeChangeExceedsLimit)
    ensures var r := SetSlopeFromApy(g, g.manager, now, 65 * PRECISION / 1000);
            r.Ok? && 5 * PRECISION / 100 < r.value.slope < 7 * PRECISION / 100 && r.value.intercept == 0
  {
    DivIs(PRECISION / 10 * PRECISION, PRECISION + PRECISION / 10, 90_909_090_909_090_909);
    DivIs(65 * PRECISION / 1000 * PRECISION, PRECISION + 65 * PRECISION / 1000, 61_032_863_849_765_258);
  }

  /** Neither admin operation accepts the manager (unless it is also the admin). */
  lemma ManagerIsNotAdmin(g: Governor, interval: nat, maxSlope: nat, maxIntercept: nat, newManager: Address)
    requires g.manager != g.admin
    ensures SetLimits(g, g.manager, interval, maxSlope, maxIntercept) == Err(NotAdmin)
    ensures SetManager(g, g.manager, newManager).Err?
    ensures newManager != ZERO_ADDRESS ==> SetManager(g, g.manager, newManager) == Err(NotAdmin)
  {
  }

  /** The admin has no cooldown: setting limits twice in a row succeeds and the second values stand. */
  lemma SetLimitsRepeatable(g: Governor, i1: nat, s1: nat, c1: nat, i2: nat, s2: nat, c2: nat)
    ensures SetLimits(g, g.admin, i1, s1, c1).Ok?
    ensures var g' := SetLimits(g, g.admin, i1, s1, c1).value;
            var r := SetLimits(g', g.admin, i2, s2, c2);
            r.Ok? && r.value.maxUpdateInterval == i2 && r.value.maxSlopeChange == s2 && r.value.maxInterceptChange == c2
  {
  }

  /**
   * Handing over the manager role: afterwards the new manager passes the
   * caller check of both manager operations, and a different former manager
   * fails it.
   */
  lemma ManagerHandOver(g: Governor, newManager: Address, now: nat, s: nat, i: nat, apy: nat)
    requires SetManager(g, g.admin, newManager).Ok?
    ensures var g' := SetManager(g, g.admin, newManager).value;
            && SetLinearDiscount(g', newManager, now, s, i) != Err(NotManager)
            && SetSlopeFromApy(g', newManager, now, apy) != Err(NotManager)
            && (g.manager != newManager ==> SetLinearDiscount(g', g.manager, now, s, i) == Err(NotManager))
            && (g.manager != newManager ==> SetSlopeFromApy(g', g.manager, now, apy) == Err(NotManager))
  {
  }

  // ---------------------------------------------------------------------------
  // Runs of calls

  /** One externally submitted governance transaction. */
  datatype Call =
    | LinearDiscount(caller: Address, now: nat, newSlope: nat, newIntercept: nat)
    | SlopeFromApyCall(caller: Address, now: nat, apy: nat)
    | Limits(caller: Address, maxUpdateInterval: nat, maxSlopeChange: nat, maxInterceptChange: nat)
    | Manager(caller: Address, newManager: Address)

  function Dispatch(g: Governor, c: Call): Result<Governor> {
    match c
    case LinearDiscount(caller, now, s, i) => SetLinearDiscount(g, caller, now, s, i)
    case SlopeFromApyCall(caller, now, apy) => SetSlopeFromApy(g, caller, now, apy)
    case Limits(caller, iv, ms, mi) => SetLimits(g, caller, iv, ms, mi)
    case Manager(caller, m) => SetManager(g, caller, m)
  }

  /**
   * The state after a transaction (a reverted one leaves the state as it
   * was).  No single transaction, by anyone, takes the curve outside 100%,
   * changes the admin, sets the manager to the zero address or moves the time
   * of the last discount change backwards.
   */
  function Apply(g: Governor, c: Call): (g': Governor)
    ensures g.Valid() ==> g'.Valid()
    ensures g'.admin == g.admin
    ensures g.manager != ZERO_ADDRESS ==> g'.manager != ZERO_ADDRESS
    ensures g'.lastDiscountUpdate >= g.lastDiscountUpdate
  {
    var r := Dispatch(g, c);
    if r.Ok? then r.value else g
  }

  /** The state after a sequence of transactions, in order. */
  function Run(g: Governor, calls: seq<Call>): Governor
    decreases |calls|
  {
    if calls == [] then g else Run(Apply(g, calls[0]), calls[1..])
  }

  /**
   * Whatever sequence of transactions is submitted, by whomever: the curve
   * stays within 100%, the admin never changes, the manager is never the
   * zero address if it was not at the start, and the time of the last
   * discount change never goes back.
   */
  lemma {:induction false} RunInvariants(g: Governor, calls: seq<Call>)
    requires g.Valid()
    ensures Run(g, calls).Valid()
    ensures Run(g, calls).admin == g.admin
    ensures g.manager != ZERO_ADDRESS ==> Run(g, calls).manager != ZERO_ADDRESS
    ensures Run(g, calls).lastDiscountUpdate >= g.lastDiscountUpdate
    decreases |calls|
  {
    if calls != [] {
      RunInvariants(Apply(g, calls[0]), calls[1..]);
    }
  }

  /**
   * The curve moves only through manager transactions: a run in which no
   * transaction comes from the manager leaves slope, intercept and the time
   * of the last discount change as they were, as long as the manager is
   * not replaced.
   */
  lemma {:induction false} OnlyManagerMovesCurve(g: Governor, calls: seq<Call>)
    requires forall k :: 0 <= k < |calls| ==> calls[k].caller != g.manager && !calls[k].Manager?
    ensures Run(g, calls).slope == g.slope
    ensures Run(g, calls).intercept == g.intercept
    ensures Run(g, calls).lastDiscountUpdate == g.lastDiscountUpdate
    ensures Run(g, calls).manager == g.manager
    decreases |calls|
  {
    if calls != [] {
      var g' := Apply(g, calls[0]);
      assert g'.slope == g.slope && g'.intercept == g.intercept && g'.manager == g.manager;
      assert g'.lastDiscountUpdate == g.lastDiscountUpdate;
      OnlyManagerMovesCurve(g', calls[1..]);
    }
  }

  /**
   * Every accepted change to the slope made with `set_linear_discount`
   * respects the slope-change limit in force when it was made.
   */
  lemma AcceptedSlopeChangeWithinLimit(g: Governor, c: Call)
    requires c.LinearDiscount? && Dispatch(g, c).Ok?
    ensures g.maxSlopeChange > 0 ==> Delta(g.slope, Apply(g, c).slope) <= g.maxSlopeChange
    ensures g.maxInterceptChange > 0 ==> Delta(g.intercept, Apply(g, c).intercept) <= g.maxInterceptChange
  {
  }
}
