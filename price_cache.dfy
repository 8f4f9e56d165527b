/**
 * The per-timestamp price cache behind `price_w()`: the last price written and
 * the timestamp it was written at.  Within one timestamp the cached value is
 * returned; at a new timestamp the price is recomputed and stored.
 */
module PriceCache {

  datatype Cache = Cache(lastPrice: nat, lastUpdate: nat)

  /** The state of a freshly deployed oracle: nothing written yet. */
  const Empty: Cache := Cache(0, 0)

  /** `price_w()` at `now` hits the cache exactly when it was written at `now`. */
  predicate Hit(c: Cache, now: nat) {
    c.lastUpdate == now
  }

  /**
   * The cache after `price_w()` at `now`, where `current` is what `price()`
   * would return at that moment; the value `price_w()` returns is the
   * `lastPrice` of the result.
   */
  function Write(c: Cache, now: nat, current: nat): (r: Cache)
    ensures r.lastUpdate == now
    ensures Hit(c, now) ==> r == c
    ensures !Hit(c, now) ==> r.lastPrice == current
  {
    if Hit(c, now) then c else Cache(current, now)
  }

  /**
   * Two `price_w()` calls at the same timestamp return the same value and the
   * second changes nothing, whatever the price would have been recomputed as.
   */
  lemma WriteIdempotent(c: Cache, now: nat, current1: nat, current2: nat)
    ensures Write(Write(c, now, current1), now, current2) == Write(c, now, current1)
    ensures Write(Write(c, now, current1), now, current2).lastPrice == Write(c, now, current1).lastPrice
  {
  }

  /**
   * A sequence of `price_w()` calls, one per entry of `currents` (the price
   * that `price()` would return at each call) at the given timestamps.
   */
  function WriteAll(c: Cache, times: seq<nat>, currents: seq<nat>): Cache
    requires |times| == |currents|
    decreases |times|
  {
    if times == [] then c else WriteAll(Write(c, times[0], currents[0]), times[1..], currents[1..])
  }

  /**
   * Any number of `price_w()` calls that all happen at one timestamp leave
   * exactly the cache the first of them wrote: at most one recomputation per
   * timestamp.
   */
  lemma {:induction false} OneRecomputationPerTimestamp(c: Cache, now: nat, times: seq<nat>, currents: seq<nat>)
    requires |times| == |currents|
    requires Hit(c, now)
    requires forall k :: 0 <= k < |times| ==> times[k] == now
    ensures WriteAll(c, times, currents) == c
    decreases |times|
  {
    if times != [] {
      assert Write(c, times[0], currents[0]) == c;
      OneRecomputationPerTimestamp(c, now, times[1..], currents[1..]);
    }
  }

  /** When time has moved on, `price_w()` stores and returns the freshly computed price. */
  lemma LaterTimestampRecomputes(c: Cache, now: nat, current: nat)
    requires c.lastUpdate < now
    ensures Write(c, now, current) == Cache(current, now)
  {
  }
}
