/** The in-memory TTL cache: a dictionary from key to value and absolute expiry time.
    Reads expire entries lazily; an insert that grows the dictionary past its maximum
    size triggers a sweep of the entries that have already expired (live entries are
    never evicted). Keys are digests of a canonical serialisation of the arguments. */
module Caching {
  import opened Wrappers
  import opened PyText
  import Canonical
  import Config

  /** `{"value": ..., "expires_at": ...}`. */
  datatype Entry<V> = Entry(value: V, expiresAt: int)

  /** `ttl or CACHE_TTL_SECONDS`: an absent or zero TTL means the configured default. */
  function EffectiveTtl(ttl: Option<int>, settings: Config.Settings): (t: int)
    ensures TruthyInt(ttl) ==> t == ttl.value
    ensures !TruthyInt(ttl) ==> t == settings.cacheTtlSeconds
    ensures settings.Valid() && (ttl.None? || ttl.value >= 0) ==> t > 0
  {
    if TruthyInt(ttl) then ttl.value else settings.cacheTtlSeconds
  }

  /** The in-memory branch of `get` at clock reading `now`: the value while
      `now < expires_at`; at or after expiry, a miss that also deletes the entry. */
  function Lookup<V>(m: map<string, Entry<V>>, key: string, now: int): (r: (Option<V>, map<string, Entry<V>>))
    ensures r.0.Some? <==> key in m && now < m[key].expiresAt
    ensures r.0.Some? ==> r.0.value == m[key].value
    ensures key in m && m[key].expiresAt <= now ==> r.1 == m - {key}
    ensures !(key in m && m[key].expiresAt <= now) ==> r.1 == m
  {
    if key in m then
      if now < m[key].expiresAt then (Some(m[key].value), m) else (None, m - {key})
    else (None, m)
  }

  /** `_cleanup_expired`: the entries whose expiry is not yet past. */
  function Sweep<V>(m: map<string, Entry<V>>, now: int): (r: map<string, Entry<V>>)
    ensures forall k :: k in r <==> k in m && now <= m[k].expiresAt
    ensures forall k :: k in r ==> r[k] == m[k]
  {
    map k | k in m && !(m[k].expiresAt < now) :: m[k]
  }

  /** The in-memory branch of `set`: overwrite the entry, then sweep if the dictionary
      has grown past `maxSize`. */
  function Store<V>(m: map<string, Entry<V>>, key: string, value: V, ttl: int, now: int, maxSize: int)
    : (r: map<string, Entry<V>>)
    ensures r.Keys <= m.Keys + {key}
    ensures forall k :: k in r && k != key ==> r[k] == m[k]
    ensures ttl >= 0 ==> key in r && r[key] == Entry(value, now + ttl)
  {
    var m1 := m[key := Entry(value, now + ttl)];
    if |m1| > maxSize then Sweep(m1, now) else m1
  }

  /** Reading a key before `now + ttl`, after storing it with a positive TTL at `now`,
      returns the stored value, whatever the cache held before and whether or not the
      insert triggered a sweep. */
  lemma GetAfterSet<V>(m: map<string, Entry<V>>, key: string, value: V, ttl: int, now: int, maxSize: int, t: int)
    requires 0 < ttl && t < now + ttl
    ensures Lookup(Store(m, key, value, ttl, now, maxSize), key, t).0 == Some(value)
  {
    var m1 := m[key := Entry(value, now + ttl)];
    assert key in m1 && now <= m1[key].expiresAt;
  }

  /** Reading a key at or after `now + ttl`, after storing it at `now`, misses, and
      the key is gone from the cache afterwards. */
  lemma GetAfterExpiry<V>(m: map<string, Entry<V>>, key: string, value: V, ttl: int, now: int, maxSize: int, t: int)
    requires t >= now + ttl
    ensures var r := Lookup(Store(m, key, value, ttl, now, maxSize), key, t);
            r.0 == None && key !in r.1
  {
  }

  /** An insert that keeps the dictionary within its maximum removes nothing; one that takes
      it past the maximum removes exactly the expired entries. Every entry kept, including
      the one just written when its TTL is not negative, keeps its value and expiry. */
  lemma StoreEvictsOnlyExpired<V>(m: map<string, Entry<V>>, key: string, value: V, ttl: int, now: int, maxSize: int)
    ensures var r := Store(m, key, value, ttl, now, maxSize);
            var m1 := m[key := Entry(value, now + ttl)];
            && (|m1| <= maxSize ==> r == m1)
            && (|m1| > maxSize ==> forall k :: k in m1 ==> (k in r <==> now <= m1[k].expiresAt))
            && (forall k :: k in m && k != key && now <= m[k].expiresAt ==> k in r && r[k] == m[k])
            && (ttl >= 0 ==> key in r && r[key] == Entry(value, now + ttl))
            && (forall k :: k in m && k != key && k !in r ==> m[k].expiresAt < now)
            && r.Keys <= m.Keys + {key}
  {
  }

  /** When every entry is still live, the size sweep removes nothing: the insert keeps every
      old key and adds the new one, so a cache already at its maximum grows past it. */
  lemma LiveOverflowTolerated<V>(m: map<string, Entry<V>>, key: string, value: V, ttl: int, now: int, maxSize: int)
    requires ttl >= 0
    requires forall k :: k in m ==> now <= m[k].expiresAt
    ensures Store(m, key, value, ttl, now, maxSize) == m[key := Entry(value, now + ttl)]
    ensures key !in m && |m| >= maxSize ==> |Store(m, key, value, ttl, now, maxSize)| > maxSize
  {
  }

  /** An instance: with a maximum of one and a live entry already held, a second live entry
      leaves two. */
  lemma LiveOverflowExample(now: int)
    ensures |Store(map["a" := Entry(1, now + 10)], "b", 2, 10, now, 1)| == 2
  {
    LiveOverflowTolerated(map["a" := Entry(1, now + 10)], "b", 2, 10, now, 1);
  }

  /** An entry whose expiry equals the clock reading is no longer served, yet the sweep keeps it. */
  lemma ExpiryBoundary<V>(m: map<string, Entry<V>>, key: string, now: int)
    requires key in m && m[key].expiresAt == now
    ensures Lookup(m, key, now).0 == None && key in Sweep(m, now)
  {
  }

  /** `_generate_key(*args, **kwargs)`: `md5(json.dumps({"args": args, "kwargs": kwargs},
      sort_keys=True))`, with the serialiser and the digest given as functions. */
  function GenerateKey<V>(args: seq<V>, kwargs: seq<(string, V)>,
                          serialise: (seq<V>, seq<(string, V)>) -> string, digest: string -> string): string
  {
    digest(serialise(args, Canonical.SortByKey(kwargs)))
  }

  /** The key ignores the order in which the keyword arguments were passed. */
  lemma GenerateKeyOrderIndependent<V>(args: seq<V>, kw1: seq<(string, V)>, kw2: seq<(string, V)>,
                                       serialise: (seq<V>, seq<(string, V)>) -> string, digest: string -> string)
    requires Canonical.KeysUnique(kw1) && Canonical.KeysUnique(kw2)
    requires multiset(kw1) == multiset(kw2)
    ensures GenerateKey(args, kw1, serialise, digest) == GenerateKey(args, kw2, serialise, digest)
  {
    Canonical.SortByKeyOrderIndependent(kw1, kw2);
  }

  /** The cache service with its in-memory dictionary `_cache`. */
  class CacheService<V> {
    const settings: Config.Settings
    var entries: map<string, Entry<V>>

    constructor (settings: Config.Settings)
      ensures this.settings == settings && entries == map[]
    {
      this.settings := settings;
      entries := map[];
    }

    /** `get`: a miss without touching the dictionary when caching is disabled. */
    method Get(key: string, now: int) returns (r: Option<V>)
      modifies this
      ensures !settings.enableCache ==> r == None && entries == old(entries)
      ensures settings.enableCache ==> (r, entries) == Lookup(old(entries), key, now)
    {
      if !settings.enableCache {
        return None;
      }
      if key in entries {
        var entry := entries[key];
        if now < entry.expiresAt {
          return Some(entry.value);
        } else {
          entries := entries - {key};
        }
      }
      r := None;
    }

    /** `set`: a no-op when caching is disabled. */
    method Set(key: string, value: V, ttl: Option<int>, now: int)
      modifies this
      ensures !settings.enableCache ==> entries == old(entries)
      ensures settings.enableCache ==>
        entries == Store(old(entries), key, value, EffectiveTtl(ttl, settings), now, settings.cacheMaxSize)
    {
      if !settings.enableCache {
        return;
      }
      var t := EffectiveTtl(ttl, settings);
      entries := entries[key := Entry(value, now + t)];
      if |entries| > settings.cacheMaxSize {
        CleanupExpired(now);
      }
    }

    /** `delete`: removes the key if present; applies whether or not caching is enabled. */
    method Delete(key: string)
      modifies this
      ensures entries == old(entries) - {key}
    {
      entries := entries - {key};
    }

    /** `clear`: empties the dictionary; applies whether or not caching is enabled. */
    method Clear()
      modifies this
      ensures entries == map[]
    {
      entries := map[];
    }

    /** `_cleanup_expired`: collects the expired keys, then deletes them one by one. */
    method CleanupExpired(now: int)
      modifies this
      ensures entries == Sweep(old(entries), now)
    {
      var expiredKeys := set k | k in entries && entries[k].expiresAt < now;
      var remaining := expiredKeys;
      while remaining != {}
        invariant remaining <= expiredKeys
        invariant entries == old(entries) - (expiredKeys - remaining)
        decreases remaining
      {
        var k :| k in remaining;
        entries := entries - {k};
        remaining := remaining - {k};
      }
      assert entries == Sweep(old(entries), now);
    }
  }
}
