/**
 * The in-memory TTL response cache (`CacheManager` in src/utils/cache.ts). Entries expire lazily:
 * reading or testing an expired entry deletes it, and `Cleanup` sweeps every expired entry at once.
 * The clock is the parameter `now`.
 */
module Cache {
  import opened Wrappers
  import opened JsValues

  /** The time-to-live used when the caller gives none: five minutes. */
  const DefaultTtl: int := 300000

  /** The interval, in milliseconds, at which the background sweep runs. */
  const CleanupIntervalMs: int := 60000

  datatype CacheEntry = CacheEntry(data: JsValue, timestamp: int, ttl: int)

  /** An entry is expired once strictly more than `ttl` milliseconds have passed since it was stored. */
  predicate Expired(e: CacheEntry, now: int) {
    now - e.timestamp > e.ttl
  }

  /** What a read at time `now` sees under `key`: the data of a live entry, nothing otherwise. */
  function Visible(entries: map<string, CacheEntry>, key: string, now: int): Option<JsValue> {
    if key in entries && !Expired(entries[key], now) then Some(entries[key].data) else None
  }

  /** What a read of `key` at time `now` leaves behind: an expired entry under `key` is deleted, nothing else changes. */
  function AfterRead(entries: map<string, CacheEntry>, key: string, now: int): (r: map<string, CacheEntry>)
    ensures key in r <==> Visible(entries, key, now).Some?
    ensures forall k :: k != key ==> (k in r <==> k in entries)
    ensures forall k :: k in r ==> r[k] == entries[k]
  {
    if key in entries && Expired(entries[key], now) then entries - {key} else entries
  }

  /** The entries a sweep at time `now` keeps. */
  function Live(entries: map<string, CacheEntry>, now: int): map<string, CacheEntry> {
    map k | k in entries && !Expired(entries[k], now) :: entries[k]
  }

  /** A sweep changes nothing a read at the same instant can observe. */
  lemma LiveKeepsVisible(entries: map<string, CacheEntry>, now: int, key: string)
    ensures Visible(Live(entries, now), key, now) == Visible(entries, key, now)
  {
  }

  /** After a sweep every remaining entry is visible, and a second sweep at the same instant does nothing. */
  lemma LiveIsIdempotent(entries: map<string, CacheEntry>, now: int)
    ensures forall k :: k in Live(entries, now) ==> Visible(Live(entries, now), k, now).Some?
    ensures Live(Live(entries, now), now) == Live(entries, now)
  {
  }

  /** Expiry is monotone in time: a sweep at a later instant keeps only entries an earlier sweep kept. */
  lemma LiveShrinksOverTime(entries: map<string, CacheEntry>, earlier: int, later: int)
    requires earlier <= later
    ensures Live(entries, later).Keys <= Live(entries, earlier).Keys
    ensures Live(Live(entries, earlier), later) == Live(entries, later)
  {
  }

  class CacheManager {
    var entries: map<string, CacheEntry>

    constructor()
      ensures entries == map[]
    {
      entries := map[];
    }

    /** Stores `data` stamped with `now`; `ttl` defaults to five minutes. Any earlier entry for `key` is replaced. */
    method Set(key: string, data: JsValue, ttl: Option<int>, now: int)
      modifies this
      ensures entries == old(entries)[key := CacheEntry(data, now, ttl.GetOr(DefaultTtl))]
      ensures forall k :: k != key && k in old(entries) ==> k in entries && entries[k] == old(entries)[k]
    {
      entries := entries[key := CacheEntry(data, now, ttl.GetOr(DefaultTtl))];
    }

    /** Returns the data of a live entry; an expired entry is deleted and reads as absent. */
    method Get(key: string, now: int) returns (r: Option<JsValue>)
      modifies this
      ensures r == Visible(old(entries), key, now)
      ensures entries == AfterRead(old(entries), key, now)
      ensures key !in old(entries) ==> entries == old(entries)
      ensures key in old(entries) && Expired(old(entries)[key], now) ==> entries == old(entries) - {key}
      ensures key in old(entries) && !Expired(old(entries)[key], now) ==> entries == old(entries)
    {
      if key !in entries {
        return None;
      }
      var entry := entries[key];
      if now - entry.timestamp > entry.ttl {
        entries := entries - {key};
        return None;
      }
      return Some(entry.data);
    }

    /** Whether a live entry exists; deletes an expired one exactly as `Get` does. */
    method Has(key: string, now: int) returns (r: bool)
      modifies this
      ensures r <==> Visible(old(entries), key, now).Some?
      ensures entries == AfterRead(old(entries), key, now)
      ensures key !in old(entries) ==> entries == old(entries)
      ensures key in old(entries) && Expired(old(entries)[key], now) ==> entries == old(entries) - {key}
      ensures key in old(entries) && !Expired(old(entries)[key], now) ==> entries == old(entries)
    {
      if key !in entries {
        return false;
      }
      var entry := entries[key];
      if now - entry.timestamp > entry.ttl {
        entries := entries - {key};
        return false;
      }
      return true;
    }

    method Delete(key: string)
      modifies this
      ensures entries == old(entries) - {key}
    {
      entries := entries - {key};
    }

    method Clear()
      modifies this
      ensures entries == map[]
    {
      entries := map[];
    }

    /** Deletes every expired entry, visiting the keys one at a time; live entries stay as they were. */
    method Cleanup(now: int)
      modifies this
      ensures entries == Live(old(entries), now)
    {
      var toVisit := entries.Keys;
      while toVisit != {}
        invariant toVisit <= old(entries).Keys
        invariant forall k :: k in entries <==>
                    k in old(entries) && (k in toVisit || !Expired(old(entries)[k], now))
        invariant forall k :: k in entries ==> entries[k] == old(entries)[k]
        decreases toVisit
      {
        var key :| key in toVisit;
        if now - entries[key].timestamp > entries[key].ttl {
          entries := entries - {key};
        }
        toVisit := toVisit - {key};
      }
    }
  }
}
