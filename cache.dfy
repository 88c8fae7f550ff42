/**
 * `CacheManager` (utils.js): a process-wide map from request paths to cached
 * values, each stamped with an expiry time.  The source's static `Map` becomes
 * the `cache` field of one `CacheManager` object, and `Date.now()` becomes the
 * explicit parameter `now` (milliseconds).  The functions before the class give
 * the meaning of each operation on the map; the class methods are proved to
 * change the map exactly as those functions say.
 */
module Cache {
  import opened Wrappers
  import opened JsValues

  /** `CacheManager.TTL`: five minutes, in milliseconds. */
  const DefaultTtl: int := 5 * 60 * 1000

  /** The object `{ data, expiry }` stored under a key. */
  datatype Entry = Entry(data: Value, expiry: int)

  type Store = map<string, Entry>

  /** The `ttl = this.TTL` default: an omitted (`undefined`) time-to-live means five minutes. */
  function EffectiveTtl(ttl: Option<int>): (t: int)
    ensures ttl.None? ==> t == 300000
    ensures ttl.Some? ==> t == ttl.value
  {
    match ttl
    case None => DefaultTtl
    case Some(t) => t
  }

  /** Expiry is strict: an entry is still served at the very millisecond of its expiry time. */
  predicate Expired(e: Entry, now: int) {
    now > e.expiry
  }

  /** What `get(key)` returns at time `now`; `None` is the source's `null`. */
  function Lookup(c: Store, key: string, now: int): (r: Option<Value>)
    ensures r.Some? <==> key in c && now <= c[key].expiry
    ensures r.Some? ==> r.value == c[key].data
  {
    if key in c && !Expired(c[key], now) then Some(c[key].data) else None
  }

  /** The map after `get(key)` at time `now`: an expired entry under `key` is dropped. */
  function AfterGet(c: Store, key: string, now: int): (r: Store)
    ensures forall k :: k in r ==> k in c && r[k] == c[k]
    ensures forall k :: k in c && k != key ==> k in r
    ensures key in r <==> Lookup(c, key, now).Some?
  {
    if key in c && Expired(c[key], now) then c - {key} else c
  }

  /** The map after `set(key, data, ttl)` at time `now`. */
  function Stored(c: Store, key: string, data: Value, ttl: Option<int>, now: int): (r: Store)
    ensures r.Keys == c.Keys + {key}
    ensures r[key].data == data && r[key].expiry == now + EffectiveTtl(ttl)
    ensures forall k :: k in c && k != key ==> r[k] == c[k]
  {
    c[key := Entry(data, now + EffectiveTtl(ttl))]
  }

  /** `key.startsWith(prefix)`. */
  predicate StartsWith(key: string, prefix: string) {
    prefix <= key
  }

  /** The keys among `keys` that start with `prefix`. */
  function Prefixed(keys: set<string>, prefix: string): set<string> {
    set k | k in keys && StartsWith(k, prefix)
  }

  /** The map after `deleteByPrefix(prefix)`. */
  function WithoutPrefix(c: Store, prefix: string): (r: Store)
    ensures forall k :: k in r ==> !StartsWith(k, prefix) && k in c && r[k] == c[k]
    ensures forall k :: k in c && !StartsWith(k, prefix) ==> k in r
  {
    map k | k in c && !StartsWith(k, prefix) :: c[k]
  }

  /** The number of entries `deleteByPrefix` removes is the number of keys that start with the prefix. */
  lemma PrefixCount(c: Store, prefix: string)
    ensures |c| - |WithoutPrefix(c, prefix)| == |Prefixed(c.Keys, prefix)|
  {
    var r := WithoutPrefix(c, prefix);
    assert r.Keys == c.Keys - Prefixed(c.Keys, prefix);
    assert c.Keys == r.Keys + Prefixed(c.Keys, prefix);
  }

  /** Visiting one more key adds one to the count of prefixed keys exactly when that key starts with the prefix. */
  lemma PrefixedAdd(visited: set<string>, key: string, prefix: string)
    requires key !in visited
    ensures |Prefixed(visited + {key}, prefix)|
            == |Prefixed(visited, prefix)| + (if StartsWith(key, prefix) then 1 else 0)
  {
    if StartsWith(key, prefix) {
      assert Prefixed(visited + {key}, prefix) == Prefixed(visited, prefix) + {key};
    } else {
      assert Prefixed(visited + {key}, prefix) == Prefixed(visited, prefix);
    }
  }

  class CacheManager {
    var cache: Store

    /** `static cache = new Map()`. */
    constructor ()
      ensures cache == map[]
    {
      cache := map[];
    }

    /** `CacheManager.get(key)`. */
    method Get(key: string, now: int) returns (r: Option<Value>)
      modifies this
      ensures r == Lookup(old(cache), key, now)
      ensures cache == AfterGet(old(cache), key, now)
    {
      if key !in cache {
        return None;
      }
      var item := cache[key];
      if now > item.expiry {
        cache := cache - {key};
        return None;
      }
      r := Some(item.data);
    }

    /** `CacheManager.set(key, data, ttl)`; `ttl == None` is an omitted argument. */
    method Set(key: string, data: Value, ttl: Option<int>, now: int)
      modifies this
      ensures cache == Stored(old(cache), key, data, ttl, now)
    {
      var t := if ttl.Some? then ttl.value else DefaultTtl;
      cache := cache[key := Entry(data, now + t)];
    }

    /** `CacheManager.delete(key)`: only `key` goes. */
    method Delete(key: string)
      modifies this
      ensures key !in cache
      ensures forall k :: k != key ==> (k in cache <==> k in old(cache))
      ensures forall k :: k in cache ==> cache[k] == old(cache)[k]
    {
      cache := cache - {key};
    }

    /** `CacheManager.clear()`. */
    method Clear()
      modifies this
      ensures cache == map[]
    {
      cache := map[];
    }

    /**
     * `CacheManager.deleteByPrefix(prefix)`: walks a snapshot of the keys and
     * deletes those starting with `prefix`.  `count` is the number the source
     * logs.
     */
    method DeleteByPrefix(prefix: string) returns (count: nat)
      modifies this
      ensures cache == WithoutPrefix(old(cache), prefix)
      ensures forall k :: k in cache ==> !StartsWith(k, prefix)
      ensures forall k :: k in old(cache) && !StartsWith(k, prefix) ==> k in cache && cache[k] == old(cache)[k]
      ensures count == |old(cache)| - |cache| == |Prefixed(old(cache).Keys, prefix)|
    {
      var keys := cache.Keys;
      ghost var visited: set<string> := {};
      count := 0;
      while keys != {}
        invariant keys + visited == old(cache).Keys && keys !! visited
        invariant forall k :: k in cache <==> k in old(cache) && (k in keys || !StartsWith(k, prefix))
        invariant forall k :: k in cache ==> cache[k] == old(cache)[k]
        invariant count == |Prefixed(visited, prefix)|
        decreases keys
      {
        var key :| key in keys;
        PrefixedAdd(visited, key, prefix);
        if StartsWith(key, prefix) {
          cache := cache - {key};
          count := count + 1;
        }
        keys := keys - {key};
        visited := visited + {key};
      }
      assert cache == WithoutPrefix(old(cache), prefix);
      PrefixCount(old(cache), prefix);
    }
  }

  /** A key that was never stored, or was deleted, reads as `null`. */
  lemma MissWithoutEntry(c: Store, key: string, now: int)
    requires key !in c
    ensures Lookup(c, key, now) == None && AfterGet(c, key, now) == c
  {
  }

  /**
   * After `set(key, data, ttl)` at time `t`, `get(key)` at `now` returns `data`
   * up to and including `t + ttl`, and afterwards returns `null` and drops the key.
   */
  lemma GetAfterSet(c: Store, key: string, data: Value, ttl: Option<int>, t: int, now: int)
    ensures Lookup(Stored(c, key, data, ttl, t), key, now)
            == if now <= t + EffectiveTtl(ttl) then Some(data) else None
    ensures now > t + EffectiveTtl(ttl) ==> key !in AfterGet(Stored(c, key, data, ttl, t), key, now)
    ensures ttl == None ==> Stored(c, key, data, ttl, t)[key].expiry == t + 300000
  {
  }

  /** Expiry is permanent: an entry served at some time was served at every earlier time. */
  lemma ExpiryIsFinal(c: Store, key: string, t1: int, t2: int)
    requires t1 <= t2 && Lookup(c, key, t2).Some?
    ensures Lookup(c, key, t1) == Lookup(c, key, t2)
  {
  }

  /** A `get` changes nothing but the key it reads, and repeating it at the same time gives the same answer. */
  lemma GetOnlyTouchesItsKey(c: Store, key: string, now: int)
    ensures forall k :: k != key ==> (k in AfterGet(c, key, now) <==> k in c)
    ensures forall k :: k in AfterGet(c, key, now) ==> AfterGet(c, key, now)[k] == c[k]
    ensures Lookup(AfterGet(c, key, now), key, now) == Lookup(c, key, now)
    ensures AfterGet(AfterGet(c, key, now), key, now) == AfterGet(c, key, now)
  {
  }
}
