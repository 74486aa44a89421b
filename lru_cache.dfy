/** The least-recently-used cache: values in a map, a last-use stamp per key. */
module LruCache {
  import opened Wrappers
  import opened ICache

  /** `k` was used no later than any other key. */
  ghost predicate IsLeastRecent(times: map<string, nat>, k: string) {
    k in times && forall j :: j in times ==> times[k] <= times[j]
  }

  /** No two keys share a stamp. */
  ghost predicate DistinctStamps(times: map<string, nat>) {
    forall a, b :: a in times && b in times && a != b ==> times[a] != times[b]
  }

  /** Stamping a key with a reading later than every stamp keeps the stamps distinct and makes it the latest. */
  lemma StampLatest(times: map<string, nat>, key: string, t: nat, after: map<string, nat>)
    requires DistinctStamps(times) && forall k :: k in times ==> times[k] < t
    requires after == times[key := t]
    ensures DistinctStamps(after) && key in after && after[key] == t
    ensures forall k :: k in after ==> after[k] < t + 1
    ensures forall k :: k in after && k != key ==> after[k] < t
  {
  }

  /** Dropping a key keeps the stamps distinct and in the past. */
  lemma StampRemoval(times: map<string, nat>, key: string, t: nat)
    requires DistinctStamps(times) && forall k :: k in times ==> times[k] < t
    ensures DistinctStamps(times - {key}) && forall k :: k in times - {key} ==> (times - {key})[k] < t
  {
  }

  class LRUCache {
    const cacheSize: int
    var cache: map<string, string>
    var nEntriesInCache: int
    var lruTimes: map<string, nat>
    /** A logical clock standing in for `new Date()`: every reading is later than the ones before. */
    var clock: nat

    /** The counter and both maps agree; stamps are distinct and in the past. */
    ghost predicate Valid()
      reads this
    {
      && 1 <= cacheSize
      && nEntriesInCache == |cache|
      && cache.Keys == lruTimes.Keys
      && |cache| <= cacheSize
      && (forall k :: k in lruTimes ==> lruTimes[k] < clock)
      && DistinctStamps(lruTimes)
    }

    constructor (cacheSize: int)
      requires 1 <= cacheSize
      ensures Valid()
      ensures this.cacheSize == cacheSize && cache == map[] && lruTimes == map[]
    {
      this.cacheSize := cacheSize;
      cache := map[];
      nEntriesInCache := 0;
      lruTimes := map[];
      clock := 0;
    }

    /** Reads the clock; the next reading is later. */
    method Now() returns (t: nat)
      modifies this`clock
      ensures t == old(clock) && clock == old(clock) + 1
    {
      t := clock;
      clock := clock + 1;
    }

    method GetCacheSize() returns (n: int)
      ensures n == cacheSize
    {
      n := cacheSize;
    }

    /** Membership, reading nothing but the map. */
    method InCache(key: string) returns (b: bool)
      ensures b <==> key in cache
    {
      b := key in cache;
    }

    /**
     * Stamps the key as the most recently used and returns its value, or
     * none (Java's null) when it is not cached. The stamp is written either
     * way, so a miss leaves a stamp for a key the cache does not hold.
     */
    method GetKV(key: string) returns (v: Option<string>)
      requires Valid()
      modifies this
      ensures v.Some? <==> key in old(cache)
      ensures v.Some? ==> v.value == old(cache)[key]
      ensures cache == old(cache) && nEntriesInCache == old(nEntriesInCache)
      ensures lruTimes == old(lruTimes)[key := old(clock)] && clock == old(clock) + 1
      ensures forall k :: k in lruTimes && k != key ==> lruTimes[k] < lruTimes[key]
      ensures Valid() <==> key in old(cache)
    {
      var t := Now();
      StampLatest(lruTimes, key, t, lruTimes[key := t]);
      lruTimes := lruTimes[key := t];
      v := if key in cache then Some(cache[key]) else None;
    }

    /**
     * The key whose stamp is earliest, scanning the keys in an unspecified
     * order and keeping a running minimum; none when there are no keys.
     */
    method GetLruTime() returns (lruKey: Option<string>)
      ensures lruKey.None? <==> lruTimes == map[]
      ensures lruKey.Some? ==> IsLeastRecent(lruTimes, lruKey.value)
    {
      lruKey := None;
      var keys := lruTimes.Keys;
      while keys != {}
        invariant keys <= lruTimes.Keys
        invariant lruKey.None? ==> keys == lruTimes.Keys
        invariant lruKey.Some? ==> lruKey.value in lruTimes
        invariant lruKey.Some? ==>
          forall k :: k in lruTimes && k !in keys ==> lruTimes[lruKey.value] <= lruTimes[k]
        decreases keys
      {
        var key :| key in keys;
        if lruKey.None? || lruTimes[key] < lruTimes[lruKey.value] {
          lruKey := Some(key);
        }
        keys := keys - {key};
      }
      if lruKey.None? {
        assert lruTimes.Keys == {};
      }
    }

    /**
     * An update replaces the value and refreshes the stamp; an insert into
     * a full cache first evicts the least recently used key (`evicted`).
     * Either way the key ends up with the latest stamp.
     */
    method PutKV(key: string, value: string) returns (ghost evicted: Option<string>)
      requires Valid()
      modifies this
      ensures Valid()
      ensures PutContract(old(cache), cache, key, value, cacheSize)
      ensures evicted.Some? <==> key !in old(cache) && old(nEntriesInCache) >= cacheSize
      ensures evicted.None? ==>
        cache == old(cache)[key := value] && lruTimes == old(lruTimes)[key := old(clock)]
      ensures evicted.Some? ==>
        && IsLeastRecent(old(lruTimes), evicted.value)
        && cache == (old(cache) - {evicted.value})[key := value]
        && lruTimes == (old(lruTimes) - {evicted.value})[key := old(clock)]
      ensures forall k :: k in lruTimes && k != key ==> lruTimes[k] < lruTimes[key]
      ensures clock == old(clock) + 1
    {
      evicted := None;
      var present := InCache(key);
      if present {
        Refresh(key, value);
        return;
      }
      if nEntriesInCache >= cacheSize {
        var victim := EvictLeastRecent();
        evicted := Some(victim);
      }
      Insert(key, value);
    }

    /** The update step of `PutKV`: a cached key gets the new value and the latest stamp. */
    method Refresh(key: string, value: string)
      requires Valid() && key in cache
      modifies this
      ensures Valid()
      ensures cache == old(cache)[key := value] && lruTimes == old(lruTimes)[key := old(clock)]
      ensures forall k :: k in lruTimes && k != key ==> lruTimes[k] < lruTimes[key]
      ensures clock == old(clock) + 1
    {
      SizeOfUpdate(cache, key, value);
      cache := cache[key := value];
      var t := Now();
      StampLatest(lruTimes, key, t, lruTimes[key := t]);
      lruTimes := lruTimes[key := t];
    }

    /** The eviction step of `PutKV`: a full cache drops its least recently used key. */
    method EvictLeastRecent() returns (victim: string)
      requires Valid() && nEntriesInCache >= cacheSize
      modifies this
      ensures Valid() && |cache| < cacheSize && clock == old(clock)
      ensures victim in old(cache) && IsLeastRecent(old(lruTimes), victim)
      ensures cache == old(cache) - {victim} && lruTimes == old(lruTimes) - {victim}
    {
      assert lruTimes.Keys == cache.Keys;
      var keyToEvict := GetLruTime();
      victim := keyToEvict.value;
      SizeOfRemoval(cache, victim);
      StampRemoval(lruTimes, victim, clock);
      cache := cache - {victim};
      nEntriesInCache := nEntriesInCache - 1;
      lruTimes := lruTimes - {victim};
    }

    /** The insert step shared by both branches of `PutKV`: a fresh key, room for it. */
    method Insert(key: string, value: string)
      requires Valid() && key !in cache && |cache| < cacheSize
      modifies this
      ensures Valid()
      ensures cache == old(cache)[key := value] && lruTimes == old(lruTimes)[key := old(clock)]
      ensures forall k :: k in lruTimes && k != key ==> lruTimes[k] < lruTimes[key]
      ensures clock == old(clock) + 1
    {
      SizeOfUpdate(cache, key, value);
      cache := cache[key := value];
      nEntriesInCache := nEntriesInCache + 1;
      var t := Now();
      StampLatest(lruTimes, key, t, lruTimes[key := t]);
      lruTimes := lruTimes[key := t];
    }

    /**
     * Removes the key from both maps but decrements the counter whether or
     * not the key was cached: the invariant survives exactly when it was.
     */
    method DeleteKV(key: string)
      requires Valid()
      modifies this
      ensures cache == old(cache) - {key} && lruTimes == old(lruTimes) - {key}
      ensures nEntriesInCache == old(nEntriesInCache) - 1 && clock == old(clock)
      ensures Valid() <==> key in old(cache)
    {
      ghost var cached := key in cache;
      if cached {
        SizeOfRemoval(cache, key);
        StampRemoval(lruTimes, key, clock);
      } else {
        assert cache - {key} == cache;
      }
      cache := cache - {key};
      nEntriesInCache := nEntriesInCache - 1;
      lruTimes := lruTimes - {key};
      if cached {
        assert Valid();
      } else {
        assert nEntriesInCache != |cache|;
      }
    }

    /** After clearing, no key is cached and the counter is zero. */
    method Clear()
      requires 1 <= cacheSize
      modifies this
      ensures Valid()
      ensures cache == map[] && lruTimes == map[] && nEntriesInCache == 0
    {
      cache := map[];
      nEntriesInCache := 0;
      lruTimes := map[];
    }
  }

  /** Capacity 2: put key1, put key2 fills the cache without evicting. */
  method LruTwoKeys() returns (c: LRUCache)
    ensures fresh(c) && c.Valid() && c.cacheSize == 2 && c.nEntriesInCache == 2
    ensures c.cache.Keys == {"key1", "key2"}
  {
    c := new LRUCache(2);
    ghost var e1 := c.PutKV("key1", "value");
    assert e1.None? && c.cache == map["key1" := "value"] && c.nEntriesInCache == 1;
    ghost var one := c.cache;
    assert "key2" !in one;
    ghost var e2 := c.PutKV("key2", "value");
    assert e2.None? && c.cache == one["key2" := "value"];
    assert c.cache.Keys == one.Keys + {"key2"};
  }

  /** Then get key1: key2 is now the least recently used. */
  method LruFilled() returns (c: LRUCache)
    ensures fresh(c) && c.Valid() && c.cacheSize == 2 && c.nEntriesInCache == 2
    ensures c.cache.Keys == {"key1", "key2"} && c.lruTimes["key2"] < c.lruTimes["key1"]
  {
    c := LruTwoKeys();
    var _ := c.GetKV("key1");
  }

  /** Continuing: key2 is cached, and putting key3 evicts it. */
  method LruEvictionScenario() returns (inCacheBefore: bool, inCacheAfter: bool)
    ensures inCacheBefore && !inCacheAfter
  {
    var c := LruFilled();
    inCacheBefore := c.InCache("key2");
    ghost var full, stamps := c.cache, c.lruTimes;
    assert !IsLeastRecent(stamps, "key1");
    assert "key3" != "key1" && "key3" != "key2";
    assert "key3" !in full;
    ghost var evicted := c.PutKV("key3", "value");
    assert evicted.Some? && evicted.value in full;
    assert evicted == Some("key2");
    assert "key2" !in full - {"key2"} && "key2" != "key3";
    inCacheAfter := c.InCache("key2");
  }
}
