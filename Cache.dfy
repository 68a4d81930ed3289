/** The time-to-live cache `CacheManager`: a dictionary from key to a value with an absolute
    expiry time. Clock readings are integer parameters, in unspecified units. */
module Cache {

  datatype CachedData<T> = CachedData(data: T, expiry: int)

  /** A lookup at time `now` hits when the key is present and strictly before its expiry. */
  predicate IsHit<T>(entries: map<string, CachedData<T>>, key: string, now: int) {
    key in entries && now < entries[key].expiry
  }

  /** The entries a cleanup at time `now` keeps. */
  function Sweep<T>(entries: map<string, CachedData<T>>, now: int): (r: map<string, CachedData<T>>)
    ensures forall k :: k in r <==> IsHit(entries, k, now)
    ensures forall k :: k in r ==> k in entries && r[k] == entries[k]
  {
    map k | k in entries && now < entries[k].expiry :: entries[k]
  }

  /** The keys a cleanup at time `now` removes. */
  function Expired<T>(entries: map<string, CachedData<T>>, now: int): (r: set<string>)
    ensures forall k :: k in r <==> k in entries && !IsHit(entries, k, now)
  {
    set k | k in entries && now >= entries[k].expiry
  }

  class CacheManager<T> {
    var entries: map<string, CachedData<T>>

    constructor ()
      ensures entries == map[]
    {
      entries := map[];
    }

    /** `GetOrFetch`: the cached value on a hit at `now`; otherwise calls `fetch` and stores
        its value with expiry `afterFetch + duration`, `afterFetch` being the clock read
        once the fetch has returned. */
    method GetOrFetch(key: string, fetch: () -> T, duration: int, now: int, afterFetch: int)
      returns (data: T, fetched: bool)
      modifies this
      ensures fetched <==> !IsHit(old(entries), key, now)
      ensures !fetched ==> data == old(entries)[key].data && entries == old(entries)
      ensures fetched ==> data == fetch() && entries == old(entries)[key := CachedData(data, afterFetch + duration)]
    {
      if key in entries {
        var cachedData := entries[key];
        if now < cachedData.expiry {
          return cachedData.data, false;
        }
      }
      data := fetch();
      entries := entries[key := CachedData(data, afterFetch + duration)];
      fetched := true;
    }

    /** `Cleanup`: collects the keys expired at `now`, then removes them one by one. */
    method Cleanup(now: int)
      modifies this
      ensures entries == Sweep(old(entries), now)
    {
      var keysToRemove := Expired(entries, now);
      var pending := keysToRemove;
      while pending != {}
        invariant pending <= keysToRemove
        invariant entries == old(entries) - (keysToRemove - pending)
        decreases pending
      {
        var key :| key in pending;
        entries := entries - {key};
        pending := pending - {key};
      }
      assert entries == Sweep(old(entries), now);
    }
  }

  /** Cleaning up twice at the same time removes nothing more. */
  lemma SweepIdempotent<T>(entries: map<string, CachedData<T>>, now: int)
    ensures Sweep(Sweep(entries, now), now) == Sweep(entries, now)
  {
  }

  /** A cleanup never changes the answer of a lookup at its own time or later. */
  lemma SweepKeepsLookups<T>(entries: map<string, CachedData<T>>, now: int, key: string, later: int)
    requires now <= later
    ensures IsHit(Sweep(entries, now), key, later) <==> IsHit(entries, key, later)
    ensures IsHit(entries, key, later) ==> Sweep(entries, now)[key] == entries[key]
  {
  }

  /** An earlier cleanup is subsumed by a later one. */
  lemma SweepTwice<T>(entries: map<string, CachedData<T>>, earlier: int, later: int)
    requires earlier <= later
    ensures Sweep(Sweep(entries, earlier), later) == Sweep(entries, later)
  {
  }

  /** A value stored at `afterFetch` for `duration` hits exactly until `afterFetch + duration`,
      and the answers for every other key are unchanged. */
  lemma StoredEntryLifetime<T>(entries: map<string, CachedData<T>>, key: string, data: T, afterFetch: int, duration: int, t: int, other: string)
    requires other != key
    ensures var stored := entries[key := CachedData(data, afterFetch + duration)];
      (IsHit(stored, key, t) <==> t < afterFetch + duration)
      && (IsHit(stored, other, t) <==> IsHit(entries, other, t))
  {
  }

  /** The mapping is cached for one hour (minutes here): stored at minute 0, it survives a
      cleanup at minute 59 and is served then; a cleanup at minute 60 removes it and the
      next lookup fetches again. */
  method HourScenario(fetch: () -> string) returns (fetches: seq<bool>)
    ensures fetches == [true, false, true]
  {
    var cache := new CacheManager<string>();
    var hour := 60;
    var _, first := cache.GetOrFetch("mappingData", fetch, hour, 0, 0);
    cache.Cleanup(59);
    var _, second := cache.GetOrFetch("mappingData", fetch, hour, 59, 59);
    cache.Cleanup(60);
    var _, third := cache.GetOrFetch("mappingData", fetch, hour, 60, 60);
    fetches := [first, second, third];
  }
}
