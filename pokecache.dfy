/** The expiring response cache of `pokecache/pokecache.go`: a map from request
    URL to the raw body and the time it was stored. Time is an integer count of
    nanoseconds (the unit of Go's `time.Duration`) passed in by the caller; the
    periodic reaper is a method the caller invokes with the current time. */
module PokeCache {

  type Bytes = seq<bv8>

  /** One second in the cache's time unit. */
  const Second: int := 1_000_000_000

  /** `cacheEntry`: replaced wholesale on every `Add`, never updated in place. */
  datatype CacheEntry = CacheEntry(createdAt: int, val: Bytes)

  /** How far the entry's timestamp is from `now`, in either direction: the
      reaper takes the absolute value of `time.Until(createdAt)`. */
  function Age(e: CacheEntry, now: int): nat
  {
    if now >= e.createdAt then now - e.createdAt else e.createdAt - now
  }

  /** An entry survives a reap unless its age is strictly greater than the interval. */
  predicate Survives(e: CacheEntry, now: int, interval: int)
  {
    Age(e, now) <= interval
  }

  /** The map after `Add(key, val)` at time `now`. */
  function Added(m: map<string, CacheEntry>, key: string, val: Bytes, now: int): map<string, CacheEntry>
  {
    m[key := CacheEntry(now, val)]
  }

  /** The map after one reap pass at time `now`. */
  function Reaped(m: map<string, CacheEntry>, now: int, interval: int): map<string, CacheEntry>
  {
    map k | k in m && Survives(m[k], now, interval) :: m[k]
  }

  /** The answer of `Get(key)` on map `m`: the stored bytes and true, or Go's
      nil slice (here the empty sequence) and false. */
  function Find(m: map<string, CacheEntry>, key: string): (Bytes, bool)
  {
    if key in m then (m[key].val, true) else ([], false)
  }

  class Cache {
    /** `Cache.cache`. */
    var entries: map<string, CacheEntry>
    /** The ticker period given to `NewCache`, which is also the age limit the
        ticker passes to every reap. */
    const interval: int

    /** `NewCache`: an empty map. `time.NewTicker` panics unless the period is
        positive, so the constructor demands it. */
    constructor (interval: int)
      requires interval > 0
      ensures entries == map[]
      ensures this.interval == interval
    {
      entries := map[];
      this.interval := interval;
    }

    /** `Add`: insert or overwrite the entry for `key`, stamped with `now`. */
    method Add(key: string, val: Bytes, now: int)
      modifies this
      ensures entries == Added(old(entries), key, val, now)
    {
      entries := entries[key := CacheEntry(now, val)];
    }

    /** `Get`: a plain lookup that ignores the entry's age. */
    method Get(key: string) returns (val: Bytes, ok: bool)
      ensures ok <==> key in entries
      ensures ok ==> val == entries[key].val
      ensures !ok ==> val == []
    {
      if key !in entries {
        return [], false;
      }
      return entries[key].val, true;
    }

    /** `reapLoop`: one pass over the map deleting every entry older than the interval. */
    method Reap(now: int)
      modifies this
      ensures entries == Reaped(old(entries), now, interval)
    {
      var pending := entries.Keys;
      while pending != {}
        invariant pending <= old(entries).Keys
        invariant entries.Keys <= old(entries).Keys
        invariant forall k :: k in pending ==> k in entries
        invariant forall k :: k in entries ==> entries[k] == old(entries)[k]
        invariant forall k :: k in old(entries) && k !in pending ==>
                    (k in entries <==> Survives(old(entries)[k], now, interval))
        decreases pending
      {
        var k :| k in pending;
        if !Survives(entries[k], now, interval) {
          entries := entries - {k};
        }
        pending := pending - {k};
      }
    }
  }

  /** A lookup of the key just added hits and returns the added bytes. */
  lemma AddThenFind(m: map<string, CacheEntry>, key: string, val: Bytes, now: int)
    ensures Find(Added(m, key, val, now), key) == (val, true)
  {
  }

  /** A second `Add` under the same key replaces the first entry wholesale:
      value and timestamp both come from the second call. */
  lemma AddOverwrites(m: map<string, CacheEntry>, key: string, v1: Bytes, t1: int, v2: Bytes, t2: int)
    ensures Added(Added(m, key, v1, t1), key, v2, t2) == Added(m, key, v2, t2)
    ensures Added(Added(m, key, v1, t1), key, v2, t2)[key] == CacheEntry(t2, v2)
  {
  }

  /** `Add` leaves every other key exactly as it was, present or absent. */
  lemma AddFrame(m: map<string, CacheEntry>, key: string, val: Bytes, now: int, other: string)
    requires other != key
    ensures other in Added(m, key, val, now) <==> other in m
    ensures other in m ==> Added(m, key, val, now)[other] == m[other]
    ensures Find(Added(m, key, val, now), other) == Find(m, other)
  {
  }

  /** A lookup of a key that is not in the map misses with the nil slice. */
  lemma FindMissing(m: map<string, CacheEntry>, key: string)
    requires key !in m
    ensures Find(m, key) == ([], false)
  {
  }

  /** A present entry is a hit whatever its age; only a reap removes it. */
  lemma FindIgnoresAge(m: map<string, CacheEntry>, key: string, now: int, interval: int)
    requires key in m && !Survives(m[key], now, interval)
    ensures Find(m, key) == (m[key].val, true)
    ensures Find(Reaped(m, now, interval), key) == ([], false)
  {
  }

  /** Exactly the entries whose age is at most the interval survive a reap,
      with their values and timestamps; no key is added. */
  lemma ReapedExactly(m: map<string, CacheEntry>, now: int, interval: int, k: string)
    ensures k in Reaped(m, now, interval) <==> k in m && Age(m[k], now) <= interval
    ensures k in Reaped(m, now, interval) ==> Reaped(m, now, interval)[k] == m[k]
    ensures Reaped(m, now, interval).Keys <= m.Keys
  {
  }

  /** An entry whose age equals the interval is kept. */
  lemma ReapKeepsBoundary(m: map<string, CacheEntry>, key: string, val: Bytes, t: int, interval: int)
    requires interval >= 0
    ensures Find(Reaped(Added(m, key, val, t), t + interval, interval), key) == (val, true)
    ensures Find(Reaped(Added(m, key, val, t), t - interval, interval), key) == (val, true)
  {
  }

  /** An entry added at `t` is gone after a reap at a time more than one
      interval later: the expiry behaviour callers rely on. */
  lemma ReapExpires(m: map<string, CacheEntry>, key: string, val: Bytes, t: int, now: int, interval: int)
    requires now - t > interval
    ensures Find(Reaped(Added(m, key, val, t), now, interval), key) == ([], false)
  {
  }

  /** Reaping twice at the same time is the same as reaping once. */
  lemma ReapIdempotent(m: map<string, CacheEntry>, now: int, interval: int)
    ensures Reaped(Reaped(m, now, interval), now, interval) == Reaped(m, now, interval)
  {
  }

  /** The scenario of `main_test.go`: store "hi" under "foo" in a cache with a
      five-second interval and read it back at once; after a reap six seconds
      later the key misses. */
  method AddGetScenario() returns (first: Bytes, firstOk: bool, later: Bytes, laterOk: bool)
    ensures first == [0x68, 0x69] && firstOk
    ensures later == [] && !laterOk
  {
    var c := new Cache(5 * Second);
    c.Add("foo", [0x68, 0x69], 0);
    first, firstOk := c.Get("foo");
    c.Reap(6 * Second);
    later, laterOk := c.Get("foo");
  }
}
