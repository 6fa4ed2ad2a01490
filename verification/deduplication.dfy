/**
 * Request deduplication (`RequestDeduplication` in src/services/api/deduplication.ts). A promise is an
 * abstract handle; invoking `requestFn` is the `invoked` result of `Deduplicate`; the timer that removes an
 * entry one window after its request settles is the separate event `ExpireKey`.
 */
module Deduplication {
  import opened JsValues
  import opened Strings

  /** Calls closer together than this many milliseconds share one request. */
  const DedupWindowMs: int := 1000

  /** The identity of a promise. */
  type Handle = nat

  datatype PendingRequest = PendingRequest(handle: Handle, timestamp: int)

  /** The signature of a request: `verb:url:JSON.stringify(data || {})`. */
  function GenerateKey(verb: string, url: string, data: JsValue): string {
    verb + ":" + url + ":" + SerializeOrEmpty(data)
  }

  /** Missing or falsy data keys the same as the empty object, so such calls collapse together. */
  lemma FalsyDataKeysAsEmptyObject(verb: string, url: string, data: JsValue)
    requires !Truthy(data)
    ensures GenerateKey(verb, url, data) == GenerateKey(verb, url, EmptyObject)
    ensures GenerateKey(verb, url, data) == verb + ":" + url + ":{}"
  {
  }

  /** Calls with different verbs never share an entry (verbs are words without a colon). */
  lemma {:induction false} VerbsKeyApart(verb1: string, verb2: string, url1: string, url2: string, d1: JsValue, d2: JsValue)
    requires verb1 != verb2 && ':' !in verb1 && ':' !in verb2
    ensures GenerateKey(verb1, url1, d1) != GenerateKey(verb2, url2, d2)
  {
    SeparatedHeadsDiffer(verb1, verb2, ':', url1 + ":" + SerializeOrEmpty(d1), url2 + ":" + SerializeOrEmpty(d2));
    assert GenerateKey(verb1, url1, d1) == verb1 + [':'] + (url1 + ":" + SerializeOrEmpty(d1));
    assert GenerateKey(verb2, url2, d2) == verb2 + [':'] + (url2 + ":" + SerializeOrEmpty(d2));
  }

  /** A pending entry still absorbs duplicates at time `now`. */
  predicate Fresh(p: PendingRequest, now: int) {
    now - p.timestamp < DedupWindowMs
  }

  /** What `deduplicate` does to the pending map, as a pure step: the handle the caller gets, whether a new request starts, and the new map. */
  datatype Step = Step(handle: Handle, invoked: bool, pending: map<string, PendingRequest>)

  function DeduplicateStep(pending: map<string, PendingRequest>, next: Handle, key: string, now: int): (s: Step)
    ensures s.invoked <==> !(key in pending && Fresh(pending[key], now))
    ensures !s.invoked ==> s.handle == pending[key].handle && s.pending == pending
    ensures s.invoked ==> s.handle == next && s.pending == pending[key := PendingRequest(next, now)]
    ensures forall k :: k != key ==> (k in s.pending <==> k in pending)
    ensures forall k :: k != key && k in pending ==> s.pending[k] == pending[k]
  {
    if key in pending && Fresh(pending[key], now) then Step(pending[key].handle, false, pending)
    else Step(next, true, (pending - {key})[key := PendingRequest(next, now)])
  }

  /**
   * A call that starts a request at `t1` absorbs every identical call up to `t1 + 999`: a second call
   * at `t2` in that span shares the first one's handle and starts nothing.
   */
  lemma {:induction false} SecondCallWithinWindowShares(
    pending: map<string, PendingRequest>, next: Handle, key: string, t1: int, t2: int)
    requires !(key in pending && Fresh(pending[key], t1))
    requires t1 <= t2 < t1 + DedupWindowMs
    ensures var first := DeduplicateStep(pending, next, key, t1);
            var second := DeduplicateStep(first.pending, next + 1, key, t2);
            first.invoked && !second.invoked && second.handle == first.handle == next &&
            second.pending == first.pending
  {
    var first := DeduplicateStep(pending, next, key, t1);
    assert first.pending[key] == PendingRequest(next, t1);
    assert Fresh(first.pending[key], t2);
  }

  /** Once the window has passed, a call starts a new request even though the entry was never removed. */
  lemma {:induction false} CallAfterWindowStartsNewRequest(
    pending: map<string, PendingRequest>, next: Handle, key: string, now: int)
    requires key in pending && now - pending[key].timestamp >= DedupWindowMs
    ensures var s := DeduplicateStep(pending, next, key, now);
            s.invoked && s.handle == next && s.pending[key] == PendingRequest(next, now)
  {
  }

  class RequestDeduplication {
    var pendingRequests: map<string, PendingRequest>
    /** The handle the next new request receives; every registered handle is below it. */
    var nextHandle: Handle

    ghost predicate Valid()
      reads this
    {
      forall k :: k in pendingRequests ==> pendingRequests[k].handle < nextHandle
    }

    constructor()
      ensures Valid() && pendingRequests == map[] && nextHandle == 0
    {
      pendingRequests := map[];
      nextHandle := 0;
    }

    /**
     * Within the window the caller receives the pending handle and nothing changes; otherwise a new
     * request (a new handle) is registered under `key` with timestamp `now` before returning.
     */
    method Deduplicate(key: string, now: int) returns (handle: Handle, invoked: bool)
      requires Valid()
      modifies this
      ensures Valid()
      ensures var s := DeduplicateStep(old(pendingRequests), old(nextHandle), key, now);
              handle == s.handle && invoked == s.invoked && pendingRequests == s.pending
      ensures nextHandle == if invoked then old(nextHandle) + 1 else old(nextHandle)
      ensures invoked ==> forall k :: k in old(pendingRequests) ==> old(pendingRequests)[k].handle != handle
    {
      if key in pendingRequests {
        var existing := pendingRequests[key];
        var age := now - existing.timestamp;
        if age < DedupWindowMs {
          return existing.handle, false;
        }
        pendingRequests := pendingRequests - {key};
      }
      handle := nextHandle;
      invoked := true;
      nextHandle := nextHandle + 1;
      pendingRequests := pendingRequests[key := PendingRequest(handle, now)];
    }

    /**
     * The timer set when a request settles: one window later it deletes whatever entry then holds
     * `key`, even one a later request registered meanwhile.
     */
    method ExpireKey(key: string)
      requires Valid()
      modifies this
      ensures Valid() && nextHandle == old(nextHandle)
      ensures pendingRequests == old(pendingRequests) - {key}
    {
      pendingRequests := pendingRequests - {key};
    }

    method Clear()
      requires Valid()
      modifies this
      ensures Valid() && nextHandle == old(nextHandle)
      ensures pendingRequests == map[]
    {
      pendingRequests := map[];
    }
  }
}
