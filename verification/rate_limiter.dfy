/**
 * `RateLimiter` (src/services/api/rateLimiter.ts): a configurable front for the fixed-window check,
 * keyed per endpoint, that fails with an error when the check disallows the call.
 */
module RateLimiting {
  import opened Wrappers
  import opened Strings
  import opened LocalStorage
  import opened Security

  datatype RateLimitConfig = RateLimitConfig(maxRequests: int, windowMs: int)

  /** 100 requests per 60 000 ms. */
  const DefaultConfig: RateLimitConfig := RateLimitConfig(100, 60000)

  const RateLimitMessage: string := "Rate limit exceeded. Please try again later."

  /** The limiter key of an endpoint. */
  function LimiterKey(endpoint: string): string {
    "api_rate_limit_" + endpoint
  }

  /** Distinct endpoints have distinct counters in storage. */
  lemma {:induction false} EndpointsCountApart(e1: string, e2: string)
    requires e1 != e2
    ensures RateStorageKey(LimiterKey(e1)) != RateStorageKey(LimiterKey(e2))
  {
    if RateStorageKey(LimiterKey(e1)) == RateStorageKey(LimiterKey(e2)) {
      PrefixInjective("rate_limit_", LimiterKey(e1), LimiterKey(e2));
      PrefixInjective("api_rate_limit_", e1, e2);
    }
  }

  /** `{...config, ...partial}`: each field given replaces the current one, the others stay. */
  function Merge(config: RateLimitConfig, maxRequests: Option<int>, windowMs: Option<int>): (r: RateLimitConfig)
    ensures maxRequests.Some? ==> r.maxRequests == maxRequests.value
    ensures maxRequests.None? ==> r.maxRequests == config.maxRequests
    ensures windowMs.Some? ==> r.windowMs == windowMs.value
    ensures windowMs.None? ==> r.windowMs == config.windowMs
  {
    RateLimitConfig(maxRequests.GetOr(config.maxRequests), windowMs.GetOr(config.windowMs))
  }

  /** Whether a call to `endpoint` at `now` passes, given the stored records and the configuration. */
  predicate Allows(records: map<string, RateRecord>, config: RateLimitConfig, endpoint: string, now: int) {
    var k := RateStorageKey(LimiterKey(endpoint));
    RateLimitDecision(if k in records then Some(records[k]) else None, config.maxRequests, config.windowMs, now).0.allowed
  }

  /** The records after a call to `endpoint` at `now`. */
  function RecordsAfter(records: map<string, RateRecord>, config: RateLimitConfig, endpoint: string, now: int): map<string, RateRecord> {
    var k := RateStorageKey(LimiterKey(endpoint));
    records[k := RateLimitDecision(if k in records then Some(records[k]) else None, config.maxRequests, config.windowMs, now).1]
  }

  /** A call never touches the counter of any other endpoint. */
  lemma {:induction false} OtherEndpointsUntouched(records: map<string, RateRecord>, config: RateLimitConfig, e: string, other: string, now: int)
    requires other != e
    ensures var k := RateStorageKey(LimiterKey(other));
            k in RecordsAfter(records, config, e, now) <==> k in records
    ensures var k := RateStorageKey(LimiterKey(other));
            k in records ==> RecordsAfter(records, config, e, now)[k] == records[k]
  {
    EndpointsCountApart(e, other);
  }

  class RateLimiter {
    var config: RateLimitConfig
    /** The `localStorage` the counters live in. */
    var store: Storage

    constructor(store: Storage)
      ensures config == DefaultConfig && this.store == store
    {
      config := DefaultConfig;
      this.store := store;
    }

    /** Overrides only the fields supplied; stored counters are not reset. */
    method SetConfig(maxRequests: Option<int>, windowMs: Option<int>)
      modifies this
      ensures config == Merge(old(config), maxRequests, windowMs)
      ensures store == old(store)
    {
      config := Merge(config, maxRequests, windowMs);
    }

    /**
     * Succeeds with `true` when the check allows the call, and fails with the rate-limit message
     * otherwise; either way the endpoint's record is what the check leaves.
     */
    method CheckLimit(endpoint: string, now: int) returns (r: Result<bool, string>)
      modifies store
      ensures r.Success? <==> Allows(old(store.rateRecords), config, endpoint, now)
      ensures r.Success? ==> r.value
      ensures r.Failure? ==> r.error == RateLimitMessage
      ensures store.rateRecords == RecordsAfter(old(store.rateRecords), config, endpoint, now)
      ensures store.text == old(store.text)
    {
      var key := LimiterKey(endpoint);
      var result := RateLimitCheck(store, key, config.maxRequests, config.windowMs, now);
      if !result.allowed {
        return Failure(RateLimitMessage);
      }
      return Success(true);
    }
  }
}
