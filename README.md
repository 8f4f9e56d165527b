# PtOracle: a verified model

PtOracle prices a Pendle-style principal token (PT). Before maturity the PT trades
at a discount to its underlying asset. The discount is linear in the time left to
expiry, and at expiry the price converges to the underlying. The oracle reports
that price, caches it once per block timestamp, and lets two roles tune the
curve:

- a **manager**, who moves the slope and intercept of the curve under a strict
  cooldown and optional per-call change limits;
- an **admin**, who sets those limits and reassigns the manager.

The contract's Vyper source is not part of this model. It is rebuilt from the
behaviour its test suite pins down: the deployment shape, the formula comments
and the exact-value, boundary and revert-string assertions.

The project has four modules:

- `DiscountModel` (`discount_model.dfy`), pure. It holds the constants
  `PRECISION = 10^18` and `YEAR = 365*24*3600` and the curve itself:
  - `ttm_years = (expiry - now) * PRECISION / YEAR`;
  - `discount = min(PRECISION, slope * ttm_years / PRECISION + intercept)`;
  - `price = underlying * (PRECISION - discount) / PRECISION`, or `underlying`
    at or after expiry.

  Every division truncates, as uint256 division does. Lemmas prove the bounds,
  monotonicity in time and in the underlying price, and the exact test
  instances.
- `Governance` (`governance.dfy`), pure. It models the governed state as a
  value and each governance call as a function that returns either the new
  state or the revert reason (with its revert string). Lemmas cover single
  calls (cooldown boundary, change-limit boundary, retry after a rejection,
  role hand-over, APY conversion) and arbitrary runs of calls (invariants that
  no sequence of transactions can break).
- `PriceCache` (`price_cache.dfy`), pure. It is the per-timestamp cache step of
  `price_w()` and its idempotence.
- `Oracle` (`pt_oracle.dfy`), imperative. The class `PtOracle` has the
  contract's storage as fields. Its methods update those fields in place, and
  each one is proved to agree with the matching pure function. A reverted call
  returns `Fail(error)` and leaves every field unchanged.

The block timestamp (`now`) and the underlying oracle's current answer
(`underlying`) are passed to each call as parameters. The PT's expiry is a
deployment input.

## Model

| member | source | states |
|---|---|---|
| DiscountModel.TimeToMaturityYears | tests/test_pt_oracle.py:108-109 | the time to maturity in PRECISION-scaled years is the truncated quotient: `r*YEAR <= (expiry-now)*PRECISION < (r+1)*YEAR` before expiry, 0 after |
| DiscountModel.Discount | tests/test_pt_oracle.py:110 | the discount never exceeds 100%, is at least the intercept unless capped, and below the cap is the truncated quotient: `d*PRECISION <= slope*ttm + intercept*PRECISION < (d+1)*PRECISION` |
| DiscountModel.DiscountedPrice | tests/test_pt_oracle.py:585-587 | a discounted price never exceeds the underlying; zero discount keeps it, a 100% discount gives 0 |
| DiscountModel.PtPrice | tests/test_pt_oracle.py:113-116 | `0 <= price <= underlying`; at or after expiry the price is the underlying; an intercept of 100% gives 0 before expiry |
| DiscountModel.PriceMonotoneInTime | tests/test_pt_oracle.py:614-675 | with the curve and the underlying fixed, later `now` never gives a lower price, across the expiry as well |
| DiscountModel.PriceMonotoneInUnderlying | tests/test_pt_oracle.py:313-324 | a higher underlying price never gives a lower PT price |
| DiscountModel.PriceStrictlyMonotoneInUnderlying | tests/test_pt_oracle.py:313-324 | before expiry and below a 100% discount, an underlying higher by at least one whole unit gives a strictly higher PT price |
| DiscountModel.TimeToMaturityAntitone | tests/test_pt_oracle.py:139-151 | the fixed-point time to maturity never grows as `now` advances |
| DiscountModel.DiscountMonotone | tests/test_pt_oracle.py:614-616 | the discount never shrinks as the time to maturity grows |
| DiscountModel.DiscountedPriceAntitone | tests/test_pt_oracle.py:614-616 | a larger discount never gives a larger price |
| DiscountModel.PriceBelowUnderlying | tests/test_pt_oracle.py:323-324 | before expiry, a positive discount gives a PT price strictly below a positive underlying |
| DiscountModel.HalfSlopeOneYear | tests/test_pt_oracle.py:584-589 | slope 0.5, one year to expiry, underlying 1.0: price exactly 0.5e18 |
| DiscountModel.HalfSlopeHalfYear | tests/test_pt_oracle.py:591-597 | slope 0.5, half a year to expiry: price exactly 0.75e18 |
| DiscountModel.HalfSlopeOneDay | tests/test_pt_oracle.py:599-607 | slope 0.5, one day to expiry: price within 1e14 of `1e18 - 0.5e18*1e18/(365e18)` |
| DiscountModel.SlopeAndInterceptOneYear | tests/test_pt_oracle.py:717-721 | slope 0.2, intercept 0.1, one year: price exactly 0.7e18 |
| DiscountModel.SlopeAndInterceptHalfYear | tests/test_pt_oracle.py:723-728 | slope 0.2, intercept 0.1, half a year: price exactly 0.8e18 |
| DiscountModel.SlopeAndInterceptOneHour | tests/test_pt_oracle.py:730-736 | slope 0.2, intercept 0.1, one hour: price within 1e15 of 0.9e18 |
| DiscountModel.LinearProgression100Days | tests/test_pt_oracle.py:654-659 | slope 0.365, underlying 2.0, 100 days: price 1.8e18 + 2 (within the asserted 1e15) |
| DiscountModel.LinearProgression50Days | tests/test_pt_oracle.py:661-667 | as above at 50 days: 1.9e18 + 2 |
| DiscountModel.LinearProgression10Days | tests/test_pt_oracle.py:669-675 | as above at 10 days: 1.98e18 + 2 |
| DiscountModel.DefaultDeployment | tests/test_pt_oracle.py:105-116 | the default deployment (slope 5%, 30 days): price strictly between 0 and the underlying |
| DiscountModel.DefaultDeploymentOneHourLater | tests/test_pt_oracle.py:139-152 | the default deployment priced one hour later differs from the price at deployment (995896118721461188 against 995890410958904110) |
| DiscountModel.DefaultDeploymentDoubledUnderlying | tests/test_pt_oracle.py:313-324 | doubling the underlying of the default deployment to 2.0 raises the PT price and keeps it strictly below 2.0 |
| DiscountModel.HeavyDiscount | tests/test_pt_oracle.py:351-397 | slope 100%, intercept 90%, 10 days: price positive and below 0.1e18 |
| Governance.Message | tests/test_pt_oracle.py:208-773 | each error has its own revert string (the eight strings the tests match), and the string identifies the error it came from |
| Governance.Delta | tests/test_pt_oracle.py:755-758 | the change between two values is their absolute difference, in either direction |
| Governance.ManagerGate | tests/test_pt_oracle.py:197-209 | a manager call passes exactly when the caller is the manager and the cooldown has elapsed; the caller is checked first |
| Governance.AdminGate | tests/test_pt_oracle.py:256-265 | an admin call passes exactly when the caller is the admin, else "caller is not admin" |
| Governance.SetLinearDiscount | tests/test_pt_oracle.py:197-254 | accepted iff caller is the manager, `now > last_discount_update + max_update_interval`, slope and intercept are at most PRECISION, and each change is within its limit (0 = unrestricted); then exactly slope, intercept and last_discount_update change; each refusal carries the error of the first failing check in the order below |
| Governance.SlopeFromApy | tests/test_pt_oracle.py:874-885 | the slope derived from an APY is below 100% and never above the APY |
| Governance.SlopeFromApyBounds | tests/test_pt_oracle.py:874-885 | `apy*PRECISION/(PRECISION+apy)` is below PRECISION and at most `apy` |
| Governance.SetSlopeFromApy | tests/test_pt_oracle.py:518-532 | accepted iff caller is the manager, the cooldown has elapsed and the derived slope is within the slope-change limit; then the slope is the derived one, the intercept 0 and last_discount_update is `now`; refusals carry the caller, cooldown or slope-change error in that order |
| Governance.SetLimits | tests/test_pt_oracle.py:256-265 | accepted iff the caller is the admin; then exactly the three limits are replaced |
| Governance.SetManager | tests/test_pt_oracle.py:456-482 | accepted iff the caller is the admin and the new manager is not the zero address; then only the manager changes |
| Governance.MessagesDistinct | tests/test_pt_oracle.py:418-427 | distinct errors revert with distinct strings |
| Governance.CooldownBoundary | tests/test_pt_oracle.py:400-416 | exactly `max_update_interval` after the last change the manager's call is refused; for values within precision and the limits it reverts "update interval not elapsed" and one second later it is accepted |
| Governance.CooldownAfterUpdate | tests/test_pt_oracle.py:226-247 | after an accepted change at `now`, both manager operations are refused up to and including `now + max_update_interval`, with the interval error when no other check fails |
| Governance.SlopeChangeBoundary | tests/test_pt_oracle.py:739-758 | a slope change of exactly the limit is accepted upwards and downwards; one unit more reverts "slope change exceeds limit" |
| Governance.InterceptChangeBoundary | tests/test_pt_oracle.py:760-778 | the same for the intercept and "intercept change exceeds limit" |
| Governance.ZeroLimitsUnrestricted | tests/test_pt_oracle.py:780-823 | with both limits at 0 any curve within 100% is accepted once the cooldown has passed |
| Governance.RetryAfterLimitRejection | tests/test_pt_oracle.py:825-844 | a call refused for a change limit consumes nothing: a compliant call at the same timestamp is accepted |
| Governance.SlopeFromApyMonotone | tests/test_pt_oracle.py:874-885 | a higher APY never gives a lower slope |
| Governance.ApyRespectsSlopeLimit | tests/test_pt_oracle.py:866-886 | from slope 5% under a 2% limit, APY 10% reverts "slope change exceeds limit"; APY 6.5% is accepted with slope in (5e16, 7e16) and intercept 0 |
| Governance.ManagerIsNotAdmin | tests/test_pt_oracle.py:470-475 | the manager (when not also admin) is refused by both admin operations, with "caller is not admin" whenever the new manager is not the zero address |
| Governance.SetLimitsRepeatable | tests/test_pt_oracle.py:846-864 | admin calls have no cooldown: two `set_limits` in a row both succeed and the second values stand |
| Governance.ManagerHandOver | tests/test_pt_oracle.py:456-468 | after `set_manager`, the new manager passes the caller check of both manager operations and a different former manager fails it |
| Governance.Apply | tests/test_pt_oracle.py:418-427 | one transaction, by any caller, keeps slope and intercept within 100%, never changes the admin, never sets a non-zero manager to zero and never moves last_discount_update back |
| Governance.RunInvariants | tests/test_pt_oracle.py:418-427 | over any sequence of transactions: slope and intercept stay within 100%, the admin never changes, a non-zero manager never becomes zero, last_discount_update never goes back |
| Governance.OnlyManagerMovesCurve | tests/test_pt_oracle.py:494-516 | a run with no transaction from the manager (and no manager change) leaves slope, intercept and last_discount_update unchanged |
| Governance.AcceptedSlopeChangeWithinLimit | tests/test_pt_oracle.py:739-778 | every accepted `set_linear_discount` moves slope and intercept by at most the non-zero limits in force |
| PriceCache.Write | tests/test_pt_oracle.py:125-152 | after `price_w()` the cache is stamped `now`; on a hit it is unchanged, on a miss it holds the freshly computed price |
| PriceCache.WriteIdempotent | tests/test_pt_oracle.py:125-137 | two `price_w()` calls at one timestamp return the same value and the second changes nothing |
| PriceCache.OneRecomputationPerTimestamp | tests/test_pt_oracle.py:340-349 | any number of `price_w()` calls at the cached timestamp leave the cache exactly as it was |
| PriceCache.LaterTimestampRecomputes | tests/test_pt_oracle.py:139-152 | at a later timestamp `price_w()` stores the recomputed price with the new timestamp |
| Oracle.PtOracle.constructor | tests/test_pt_oracle.py:74-103 | deployment stores the PT, oracle, expiry, curve, interval and roles; the cooldown clock starts at deployment; both change limits are 0; the cache is empty |
| Oracle.PtOracle.Price | tests/test_pt_oracle.py:105-123 | `price()` returns the curve price for the current fields and changes nothing |
| Oracle.PtOracle.PriceW | tests/test_pt_oracle.py:125-195 | `price_w()` performs exactly the cache step of `PriceCache.Write` on the stored cache, returns `last_price`, and on a miss at or after expiry returns the underlying |
| Oracle.PtOracle.SetLinearDiscount | tests/test_pt_oracle.py:197-254 | the stored state moves exactly as `Governance.SetLinearDiscount` says, or stays unchanged with the same error |
| Oracle.PtOracle.SetSlopeFromApy | tests/test_pt_oracle.py:518-532 | the stored state moves exactly as `Governance.SetSlopeFromApy` says, or stays unchanged |
| Oracle.PtOracle.SetLimits | tests/test_pt_oracle.py:256-265 | the stored limits move exactly as `Governance.SetLimits` says, or stay unchanged |
| Oracle.PtOracle.SetManager | tests/test_pt_oracle.py:456-482 | the stored manager moves exactly as `Governance.SetManager` says, or stays unchanged |
| Oracle.CacheAndCooldownScenario | tests/test_pt_oracle.py:226-254 | for one deployment: two `price_w()` in one block agree and one an hour later differs; the first manager update after 86401 s succeeds; an immediate second one, and one exactly 86400 s later, revert with the interval error; one at 86401 s succeeds, leaving slope 300, intercept 150 and a later last_discount_update |

## Check order

The tests pin the manager check before the cooldown check: a non-manager call
made inside the cooldown reverts "caller is not manager". They do not pin the
order of the remaining checks, since every test breaks only one of them. The
model uses the order below. `SetLinearDiscount` and `SetSlopeFromApy` state
which error each failing check produces under it. Every lemma above that
names a particular error assumes that no other check fails:

1. caller;
2. cooldown;
3. intercept precision;
4. slope precision;
5. slope change;
6. intercept change.

For `set_manager`, the model checks the caller before the zero address.

## Arithmetic and time

- The cooldown test is written `now > last_discount_update + max_update_interval`.
  This is the contract's `now - last_discount_update > max_update_interval`
  whenever `now >= last_discount_update`, which block timestamps guarantee.
- `set_slope_from_apy` uses `slope = apy * PRECISION / (PRECISION + apy)`,
  truncated. This is the form the assertions fit: 10% gives about 9.09% and
  6.5% gives about 6.1%. A per-second slope, as one test comment describes,
  would not satisfy them. The truncation is a choice; the tests only bound the
  result.
- `set_slope_from_apy` checks only the slope-change limit. It sets the intercept
  to 0 whatever the intercept-change limit says.

## Left out

- uint256 overflow. The model's integers are unbounded, so operations that would
  revert on an overflow in the contract do not revert here.
- Deployment-time validation. The constructor requires slope and intercept within
  `PRECISION`, which every test deployment meets. Whatever the contract itself
  checks at deployment is not visible, so it is not modelled.
- `set_limits` rejecting `max_update_interval = 0`. No test exercises it and its
  revert string is not known, so the model accepts any interval.
- The initial cache: `last_price` and `last_update` start at 0, as uninitialised
  contract storage would.
- Event emission (the old and new values of each change). The tests do not
  observe events.
- The underlying price oracle and the PT token are external contracts. Their
  answers appear as the `underlying` parameter and the `expiry` deployment
  input.
- Caller identities are natural numbers, with 0 as the zero address.
- Oracle.PtOracle.PriceW: on a cache hit it returns the stored value even if the
  underlying price changed within the same timestamp. The model does not claim
  that a hit equals `price()`.
- Governance.OnlyManagerMovesCurve: stated only for runs without `set_manager`
  calls.
- The older deployment script (script/deploy.py) uses a different constructor,
  with a curve pool, basis-point bounds and a two-reviewer role scheme. That
  variant is not modelled.
- The floating-point approximations in the tests are replaced by the exact
  integer results of the formula.
