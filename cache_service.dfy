/** The generic TTL cache of `CacheService.js`: a map from key to an entry
    holding the value, its absolute expiry time and its insertion time, plus
    hit and miss counters. Time is passed in explicitly as `now`, in
    milliseconds, where the source reads the system clock. */
module CacheService {
  import opened Wrappers

  /** Lifetime, in milliseconds, used when the TTL argument is missing or zero. */
  const DefaultTtlMillis: int := 3600000

  /** One stored item: the value, its absolute expiry and its creation time (ms). */
  datatype Entry<V> = Entry(value: V, exp: int, created: int)

  /** The snapshot `getCacheStats` returns. */
  datatype Stats = Stats(hits: nat, misses: nat, size: nat)

  /** Absolute expiry that `setCacheItem` computes at time `now`. A TTL that is
      omitted (`None`) or zero is falsy in JavaScript and selects the default
      of one hour; any other TTL, negative ones included, counts in seconds. */
  function ExpiryFor(ttl: Option<int>, now: int): (exp: int)
    ensures ttl == None || ttl == Some(0) ==> exp == now + DefaultTtlMillis
    ensures ttl.Some? && ttl.value != 0 ==> exp == now + ttl.value * 1000
  {
    now + (if ttl.Some? && ttl.value != 0 then ttl.value * 1000 else DefaultTtlMillis)
  }

  /** The keys that a sweep at time `now` deletes: those whose expiry is
      strictly before `now`. */
  function ExpiredKeys<K, V>(m: map<K, Entry<V>>, now: int): (ks: set<K>)
    ensures ks <= m.Keys
    ensures forall k :: k in m ==> (k in ks <==> m[k].exp < now)
  {
    set k | k in m && m[k].exp < now
  }

  /** The entries that survive a sweep at time `now`. */
  function Swept<K, V>(m: map<K, Entry<V>>, now: int): (r: map<K, Entry<V>>)
    ensures r.Keys == m.Keys - ExpiredKeys(m, now)
    ensures forall k :: k in r ==> r[k] == m[k] && now <= r[k].exp
  {
    map k | k in m && now <= m[k].exp :: m[k]
  }

  /** Removing the expired keys shrinks the map by exactly their number, so
      the count a sweep returns is the number of entries it deleted. */
  lemma SweptSize<K, V>(m: map<K, Entry<V>>, now: int)
    ensures |Swept(m, now)| + |ExpiredKeys(m, now)| == |m|
  {
  }

  /** A second sweep at the same time finds nothing to delete and changes nothing. */
  lemma SweptIdempotent<K, V>(m: map<K, Entry<V>>, now: int)
    ensures ExpiredKeys(Swept(m, now), now) == {}
    ensures Swept(Swept(m, now), now) == Swept(m, now)
  {
  }

  /** An entry just stored at time `now` survives a sweep at `now`, with its
      value, exactly when its TTL is omitted or non-negative: the TTL is not
      validated, and a negative one yields an expiry before `now`. */
  lemma StoredLiveIff<K, V>(m: map<K, Entry<V>>, k: K, v: V, ttl: Option<int>, now: int)
    ensures var m' := m[k := Entry(v, ExpiryFor(ttl, now), now)];
      k in Swept(m', now) <==> (ttl.Some? ==> ttl.value >= 0)
    ensures var m' := m[k := Entry(v, ExpiryFor(ttl, now), now)];
      k in Swept(m', now) ==> Swept(m', now)[k].value == v
  {
  }

  /** A negative TTL stores an entry whose expiry is at least a second
      before the time it is stored, so it is expired at once and the next
      sweep removes it. */
  lemma NegativeTtlExpires<K, V>(m: map<K, Entry<V>>, k: K, v: V, t: int, now: int)
    requires t < 0
    ensures var m' := m[k := Entry(v, ExpiryFor(Some(t), now), now)];
      m'[k].exp <= now - 1000 && k in ExpiredKeys(m', now) && k !in Swept(m', now)
  {
  }

  /** The cache store: the source's module-level `cache` Map and `cacheStats`
      object, held by one instance. */
  class Cache<K(==), V> {
    var entries: map<K, Entry<V>>
    var hits: nat
    var misses: nat

    constructor ()
      ensures entries == map[] && hits == 0 && misses == 0
    {
      entries := map[];
      hits, misses := 0, 0;
    }

    /** `getCacheItem`: the stored value, expired or not, counting a hit; or
        `None`, counting a miss. The entries are untouched. */
    method Get(key: K) returns (r: Option<V>)
      modifies this`hits, this`misses
      ensures key in entries ==> r == Some(entries[key].value)
      ensures key !in entries ==> r == None
      ensures hits == old(hits) + (if key in entries then 1 else 0)
      ensures misses == old(misses) + (if key in entries then 0 else 1)
      ensures hits + misses == old(hits) + old(misses) + 1
    {
      if key in entries {
        hits := hits + 1;
        return Some(entries[key].value);
      }
      misses := misses + 1;
      return None;
    }

    /** `setCacheItem`: stores `v` under `k` with the expiry `ExpiryFor`
        gives, replacing any previous entry; other keys and the counters are
        unchanged. */
    method Set(k: K, v: V, ttl: Option<int>, now: int)
      modifies this`entries
      // Every other key keeps its entry: the map update touches `k` only.
      ensures entries == old(entries)[k := Entry(v, ExpiryFor(ttl, now), now)]
    {
      entries := entries[k := Entry(v, ExpiryFor(ttl, now), now)];
    }

    /** `isNotExpired`: false for a missing key, otherwise whether the expiry
        has not yet passed; an entry whose expiry equals `now` is still valid. */
    function IsNotExpired(key: K, now: int): (b: bool)
      reads this
      ensures b <==> key in entries && now <= entries[key].exp
      ensures b <==> key in Swept(entries, now)
    {
      if key !in entries then false
      else if !(entries[key].exp < now) then true
      else false
    }

    /** `getCacheStats`: a copy of the counters and the number of stored keys. */
    function GetStats(): (s: Stats)
      reads this
      ensures s.hits == hits && s.misses == misses && s.size == |entries.Keys|
    {
      Stats(hits, misses, |entries|)
    }

    /** The first pass of `clearExpiredItems`: every key whose expiry is
        before `now`, each listed once. */
    method CollectExpired(now: int) returns (keysToDelete: seq<K>)
      ensures forall k :: k in keysToDelete <==> k in ExpiredKeys(entries, now)
      ensures |keysToDelete| == |ExpiredKeys(entries, now)|
    {
      keysToDelete := [];
      ghost var marked: set<K> := {};
      var unvisited := entries.Keys;
      while unvisited != {}
        invariant unvisited <= entries.Keys
        invariant marked == ExpiredKeys(entries, now) - unvisited
        invariant forall k :: k in marked <==> k in keysToDelete
        invariant |keysToDelete| == |marked|
        decreases unvisited
      {
        var key :| key in unvisited;
        if entries[key].exp < now {
          keysToDelete := keysToDelete + [key];
          marked := marked + {key};
        }
        unvisited := unvisited - {key};
      }
    }

    /** The second pass of `clearExpiredItems`: deletes each listed key. */
    method DeleteAll(keys: seq<K>)
      modifies this`entries
      ensures forall k :: k in entries <==> k in old(entries) && k !in keys
      ensures forall k :: k in entries ==> entries[k] == old(entries)[k]
    {
      for i := 0 to |keys|
        invariant forall k :: k in entries <==> k in old(entries) && k !in keys[..i]
        invariant forall k :: k in entries ==> entries[k] == old(entries)[k]
      {
        assert keys[..i + 1] == keys[..i] + [keys[i]];
        entries := entries - {keys[i]};
      }
      assert keys[..|keys|] == keys;
    }

    /** `clearExpiredItems`: deletes exactly the entries whose expiry is
        before `now`, keeps every other entry as it was, and returns how many
        it deleted. */
    method ClearExpiredItems(now: int) returns (removed: nat)
      modifies this`entries
      ensures entries == Swept(old(entries), now)
      ensures removed == |ExpiredKeys(old(entries), now)|
      ensures removed == |old(entries)| - |entries|
    {
      var keysToDelete := CollectExpired(now);
      DeleteAll(keysToDelete);
      assert entries == Swept(old(entries), now);
      SweptSize(old(entries), now);
      removed := |keysToDelete|;
    }
  }

  /** A value just stored with a non-negative TTL is valid at the same time
      and is what the next lookup returns, as a hit. */
  method SetThenGet<K, V>(c: Cache<K, V>, k: K, v: V, ttl: Option<int>, now: int)
    returns (valid: bool, r: Option<V>)
    requires ttl.Some? ==> ttl.value >= 0
    modifies c
    ensures valid && r == Some(v)
    ensures c.hits == old(c.hits) + 1 && c.misses == old(c.misses)
  {
    c.Set(k, v, ttl, now);
    valid := c.IsNotExpired(k, now);
    r := c.Get(k);
  }

  /** A second sweep at the same time removes nothing. */
  method SweepTwice<K, V>(c: Cache<K, V>, now: int) returns (first: nat, second: nat)
    modifies c
    ensures first == |ExpiredKeys(old(c.entries), now)| && second == 0
    ensures c.entries == Swept(old(c.entries), now)
  {
    first := c.ClearExpiredItems(now);
    SweptIdempotent(old(c.entries), now);
    second := c.ClearExpiredItems(now);
  }

  /** The life of one entry, with a one-second TTL: once the clock has passed
      its expiry it is reported expired, `Get` still returns it, a sweep
      removes exactly it, and a later `Get` misses. */
  method ExpiryScenario(t0: int)
    returns (valid: bool, stale: Option<int>, removed: nat, after: Option<int>, stats: Stats)
    ensures !valid && stale == Some(42) && removed == 1 && after == None
    ensures stats == Stats(1, 1, 0)
  {
    var c := new Cache<string, int>();
    c.Set("a", 42, Some(1), t0);
    valid := c.IsNotExpired("a", t0 + 1001);
    stale := c.Get("a");
    assert ExpiredKeys(c.entries, t0 + 1001) == {"a"};
    removed := c.ClearExpiredItems(t0 + 1001);
    after := c.Get("a");
    stats := c.GetStats();
  }

  /** With no TTL argument an entry lives for exactly the default hour: it is
      valid at the last millisecond and expired one millisecond later. */
  method DefaultTtlScenario(t0: int) returns (atLimit: bool, pastLimit: bool)
    ensures atLimit && !pastLimit
  {
    var c := new Cache<string, int>();
    c.Set("b", 42, None, t0);
    atLimit := c.IsNotExpired("b", t0 + DefaultTtlMillis);
    pastLimit := c.IsNotExpired("b", t0 + DefaultTtlMillis + 1);
  }
}
