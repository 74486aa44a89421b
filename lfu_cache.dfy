/** The least-frequently-used cache: values in a map, a usage count per key. */
module LfuCache {
  import opened Wrappers
  import opened ICache

  /** `k` has been used no more often than any other key. */
  ghost predicate IsLeastUsed(usages: map<string, nat>, k: string) {
    k in usages && forall j :: j in usages ==> usages[k] <= usages[j]
  }

  /** Every count is at least one: a key enters with one use. */
  ghost predicate Counted(usages: map<string, nat>) {
    forall k :: k in usages ==> 1 <= usages[k]
  }

  /** A key used strictly more often than another is never the least used. */
  lemma MoreUsedIsNotLeastUsed(usages: map<string, nat>, a: string, b: string)
    requires a in usages && b in usages && usages[b] < usages[a]
    ensures !IsLeastUsed(usages, a)
  {
  }

  class LFUCache {
    const cacheSize: int
    var cache: map<string, string>
    var nEntriesInCache: int
    var lfuUsages: map<string, nat>

    /** The counter and both maps agree; every count is positive. */
    ghost predicate Valid()
      reads this
    {
      && 1 <= cacheSize
      && nEntriesInCache == |cache|
      && cache.Keys == lfuUsages.Keys
      && |cache| <= cacheSize
      && Counted(lfuUsages)
    }

    constructor (cacheSize: int)
      requires 1 <= cacheSize
      ensures Valid()
      ensures this.cacheSize == cacheSize && cache == map[] && lfuUsages == map[]
    {
      this.cacheSize := cacheSize;
      cache := map[];
      nEntriesInCache := 0;
      lfuUsages := map[];
    }

    method GetCacheSize() returns (n: int)
      ensures n == cacheSize
    {
      n := cacheSize;
    }

    /** Membership, reading nothing but the map. */
    method InCache(key: string) returns (b: bool)
      ensures b <==> key in cache
    {
      b := key in cache;
    }

    /**
     * Counts one more use and returns the value. The key must be cached:
     * for any other key the source unboxes a missing count and fails.
     */
    method GetKV(key: string) returns (v: string)
      requires Valid() && key in cache
      modifies this`lfuUsages
      ensures Valid()
      ensures v == cache[key]
      ensures lfuUsages == old(lfuUsages)[key := old(lfuUsages)[key] + 1]
    {
      lfuUsages := lfuUsages[key := lfuUsages[key] + 1];
      v := cache[key];
    }

    /**
     * The key with the smallest count, scanning the keys in an unspecified
     * order and keeping a running minimum; none when there are no keys.
     */
    method GetLfuKey() returns (lfuKey: Option<string>)
      ensures lfuKey.None? <==> lfuUsages == map[]
      ensures lfuKey.Some? ==> IsLeastUsed(lfuUsages, lfuKey.value)
    {
      lfuKey := None;
      var keys := lfuUsages.Keys;
      while keys != {}
        invariant keys <= lfuUsages.Keys
        invariant lfuKey.None? ==> keys == lfuUsages.Keys
        invariant lfuKey.Some? ==> lfuKey.value in lfuUsages
        invariant lfuKey.Some? ==>
          forall k :: k in lfuUsages && k !in keys ==> lfuUsages[lfuKey.value] <= lfuUsages[k]
        decreases keys
      {
        var key :| key in keys;
        if lfuKey.None? || lfuUsages[key] < lfuUsages[lfuKey.value] {
          lfuKey := Some(key);
        }
        keys := keys - {key};
      }
      if lfuKey.None? {
        assert lfuUsages.Keys == {};
      }
    }

    /**
     * An update replaces the value and counts one more use; an insert into
     * a full cache first evicts a least used key (`evicted`), and the new
     * key starts with one use.
     */
    method PutKV(key: string, value: string) returns (ghost evicted: Option<string>)
      requires Valid()
      modifies this
      ensures Valid()
      ensures PutContract(old(cache), cache, key, value, cacheSize)
      ensures evicted.Some? <==> key !in old(cache) && old(nEntriesInCache) >= cacheSize
      ensures key in old(cache) ==>
        cache == old(cache)[key := value] && lfuUsages == old(lfuUsages)[key := old(lfuUsages)[key] + 1]
      ensures key !in old(cache) && evicted.None? ==>
        cache == old(cache)[key := value] && lfuUsages == old(lfuUsages)[key := 1]
      ensures evicted.Some? ==>
        && IsLeastUsed(old(lfuUsages), evicted.value)
        && cache == (old(cache) - {evicted.value})[key := value]
        && lfuUsages == (old(lfuUsages) - {evicted.value})[key := 1]
    {
      evicted := None;
      var present := InCache(key);
      if present {
        SizeOfUpdate(cache, key, value);
        cache := cache[key := value];
        lfuUsages := lfuUsages[key := lfuUsages[key] + 1];
        return;
      }
      if nEntriesInCache >= cacheSize {
        var victim := EvictLeastUsed();
        evicted := Some(victim);
      }
      Insert(key, value);
    }

    /** The eviction step of `PutKV`: a full cache drops a least used key. */
    method EvictLeastUsed() returns (victim: string)
      requires Valid() && nEntriesInCache >= cacheSize
      modifies this
      ensures Valid() && |cache| < cacheSize
      ensures victim in old(cache) && IsLeastUsed(old(lfuUsages), victim)
      ensures cache == old(cache) - {victim} && lfuUsages == old(lfuUsages) - {victim}
    {
      assert lfuUsages.Keys == cache.Keys;
      var keyToEvict := GetLfuKey();
      victim := keyToEvict.value;
      SizeOfRemoval(cache, victim);
      cache := cache - {victim};
      nEntriesInCache := nEntriesInCache - 1;
      lfuUsages := lfuUsages - {victim};
    }

    /** The insert step of `PutKV`: a fresh key, room for it, one use. */
    method Insert(key: string, value: string)
      requires Valid() && key !in cache && |cache| < cacheSize
      modifies this
      ensures Valid()
      ensures cache == old(cache)[key := value] && lfuUsages == old(lfuUsages)[key := 1]
    {
      SizeOfUpdate(cache, key, value);
      cache := cache[key := value];
      nEntriesInCache := nEntriesInCache + 1;
      lfuUsages := lfuUsages[key := 1];
    }

    /**
     * Removes the key from both maps but decrements the counter whether or
     * not the key was cached: the invariant survives exactly when it was.
     */
    method DeleteKV(key: string)
      requires Valid()
      modifies this
      ensures cache == old(cache) - {key} && lfuUsages == old(lfuUsages) - {key}
      ensures nEntriesInCache == old(nEntriesInCache) - 1
      ensures Valid() <==> key in old(cache)
    {
      if key in cache {
        SizeOfRemoval(cache, key);
      } else {
        assert cache - {key} == cache;
      }
      cache := cache - {key};
      nEntriesInCache := nEntriesInCache - 1;
      lfuUsages := lfuUsages - {key};
    }

    /** After clearing, no key is cached and the counter is zero. */
    method Clear()
      requires 1 <= cacheSize
      modifies this
      ensures Valid()
      ensures cache == map[] && lfuUsages == map[] && nEntriesInCache == 0
    {
      cache := map[];
      nEntriesInCache := 0;
      lfuUsages := map[];
    }
  }

  /** Capacity 2: put key1 and key2, each with one use. */
  method LfuTwoKeys() returns (c: LFUCache)
    ensures fresh(c) && c.Valid() && c.cacheSize == 2 && c.nEntriesInCache == 2
    ensures c.cache.Keys == {"key1", "key2"} && c.lfuUsages["key1"] == 1 && c.lfuUsages["key2"] == 1
  {
    c := new LFUCache(2);
    ghost var e1 := c.PutKV("key1", "value");
    assert e1.None? && c.cache == map["key1" := "value"];
    assert "key2" != "key1";
    ghost var e2 := c.PutKV("key2", "value");
    assert e2.None?;
  }

  /** Then get key1 once and key2 twice: key1 is now the least used. */
  method LfuFilled() returns (c: LFUCache)
    ensures fresh(c) && c.Valid() && c.cacheSize == 2 && c.nEntriesInCache == 2
    ensures c.cache.Keys == {"key1", "key2"} && c.lfuUsages["key1"] == 2 && c.lfuUsages["key2"] == 3
  {
    c := LfuTwoKeys();
    assert "key2" != "key1";
    var _ := c.GetKV("key1");
    assert c.lfuUsages["key1"] == 2 && c.lfuUsages["key2"] == 1;
    var _ := c.GetKV("key2");
    assert c.lfuUsages["key1"] == 2 && c.lfuUsages["key2"] == 2;
    var _ := c.GetKV("key2");
  }

  /** Continuing: key1 is cached, and putting key3 evicts it. */
  method LfuEvictionScenario() returns (inCacheBefore: bool, inCacheAfter: bool)
    ensures inCacheBefore && !inCacheAfter
  {
    var c := LfuFilled();
    inCacheBefore := c.InCache("key1");
    ghost var full, usages := c.cache, c.lfuUsages;
    MoreUsedIsNotLeastUsed(usages, "key2", "key1");
    assert "key3" != "key1" && "key3" != "key2";
    assert "key3" !in full;
    ghost var evicted := c.PutKV("key3", "value");
    assert evicted.Some? && evicted.value in full;
    assert evicted == Some("key1");
    assert "key1" !in full - {"key1"} && "key1" != "key3";
    inCacheAfter := c.InCache("key1");
  }
}
