/**
 * lib/cache.ts: `SimpleCache`, a map from keys to values with an expiry
 * time, evicted lazily by `get`.
 */
module Cache {
  import opened Wrappers

  const DefaultTtlMs: int := 5 * 60 * 1000

  datatype Entry<T> = Entry(data: T, expiry: int)

  /** The map after `set(key, data, ttlMs)` at time `now`. */
  function Put<T>(cache: map<string, Entry<T>>, key: string, data: T, ttlMs: int, now: int): (r: map<string, Entry<T>>)
    ensures r.Keys == cache.Keys + {key}
    ensures r[key] == Entry(data, now + ttlMs)
    ensures forall k :: k in cache && k != key ==> r[k] == cache[k]
  {
    cache[key := Entry(data, now + ttlMs)]
  }

  /** The map after `get(key)` at time `now`, and what `get` returns (None for `null`). */
  function Fetch<T>(cache: map<string, Entry<T>>, key: string, now: int): (r: (map<string, Entry<T>>, Option<T>))
    ensures r.1.Some? <==> key in cache && now <= cache[key].expiry
    ensures r.1.Some? ==> r.1.value == cache[key].data && r.0 == cache
    ensures r.1.None? ==> r.0 == cache - {key}
    ensures forall k :: k != key ==> (k in r.0 <==> k in cache) && (k in cache ==> r.0[k] == cache[k])
  {
    if key !in cache || now > cache[key].expiry then (cache - {key}, None)
    else (cache, Some(cache[key].data))
  }

  /** Reading a key before the expiry its `set` gave it returns the stored value. */
  lemma GetAfterSet<T>(cache: map<string, Entry<T>>, key: string, data: T, ttlMs: int, now: int, later: int)
    requires later <= now + ttlMs
    ensures Fetch(Put(cache, key, data, ttlMs, now), key, later) == (Put(cache, key, data, ttlMs, now), Some(data))
  {
  }

  /** Reading a key after its expiry returns nothing and removes it. */
  lemma GetAfterExpiry<T>(cache: map<string, Entry<T>>, key: string, data: T, ttlMs: int, now: int, later: int)
    requires later > now + ttlMs
    ensures Fetch(Put(cache, key, data, ttlMs, now), key, later).1 == None
    ensures key !in Fetch(Put(cache, key, data, ttlMs, now), key, later).0
  {
  }

  /** A second `set` replaces the first one entirely. */
  lemma SetOverwrites<T>(cache: map<string, Entry<T>>, key: string, d1: T, t1: int, n1: int, d2: T, t2: int, n2: int)
    ensures Put(Put(cache, key, d1, t1, n1), key, d2, t2, n2) == Put(cache, key, d2, t2, n2)
  {
  }

  class SimpleCache<T> {
    var cache: map<string, Entry<T>>

    constructor ()
      ensures cache == map[]
    {
      cache := map[];
    }

    method Set(key: string, data: T, ttlMs: int, now: int)
      modifies this
      ensures cache == Put(old(cache), key, data, ttlMs, now)
    {
      cache := cache[key := Entry(data, now + ttlMs)];
    }

    method Get(key: string, now: int) returns (r: Option<T>)
      modifies this
      ensures (cache, r) == Fetch(old(cache), key, now)
    {
      if key !in cache || now > cache[key].expiry {
        cache := cache - {key};
        return None;
      }
      r := Some(cache[key].data);
    }

    method Clear()
      modifies this
      ensures cache == map[]
    {
      cache := map[];
    }
  }
}
