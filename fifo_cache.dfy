/** The first-in-first-out cache: values in a map, keys queued in insertion order. */
module FifoCache {
  import opened Wrappers
  import opened ICache

  predicate NoDuplicates(xs: seq<string>) {
    forall i, j :: 0 <= i < j < |xs| ==> xs[i] != xs[j]
  }

  lemma NoDuplicatesTail(xs: seq<string>)
    requires xs != [] && NoDuplicates(xs)
    ensures NoDuplicates(xs[1..]) && xs[0] !in xs[1..]
  {
  }

  lemma NoDuplicatesCons(a: string, r: seq<string>)
    requires a !in r && NoDuplicates(r)
    ensures NoDuplicates([a] + r)
  {
    var s := [a] + r;
    forall i, j | 0 <= i < j < |s| ensures s[i] != s[j] {
      if i == 0 {
        assert s[j] == r[j - 1];
      } else {
        assert s[i] == r[i - 1] && s[j] == r[j - 1];
      }
    }
  }

  lemma NoDuplicatesSnoc(r: seq<string>, a: string)
    requires a !in r && NoDuplicates(r)
    ensures NoDuplicates(r + [a])
  {
  }

  /** Where `x` first occurs. */
  function FirstIndex(xs: seq<string>, x: string): (i: nat)
    requires x in xs
    ensures i < |xs| && xs[i] == x && x !in xs[..i]
  {
    if xs[0] == x then 0
    else
      var i := FirstIndex(xs[1..], x) + 1;
      assert xs[..i] == [xs[0]] + xs[1..][..i - 1];
      i
  }

  /**
   * `LinkedList.remove(Object)`: drop the first occurrence of `x`, if any,
   * keeping every other element in its order.
   */
  function RemoveFirst(xs: seq<string>, x: string): (r: seq<string>)
    ensures x !in xs ==> r == xs
    ensures x in xs ==> r == xs[..FirstIndex(xs, x)] + xs[FirstIndex(xs, x) + 1..]
    ensures |r| == if x in xs then |xs| - 1 else |xs|
    ensures forall k :: k != x ==> (k in r <==> k in xs)
  {
    if xs == [] then []
    else if xs[0] == x then xs[1..]
    else
      var t := xs[1..];
      var r := RemoveFirst(t, x);
      assert xs == [xs[0]] + t;
      assert x in xs ==> x in t && FirstIndex(xs, x) == FirstIndex(t, x) + 1;
      assert x in xs ==>
        && xs[..FirstIndex(xs, x)] == [xs[0]] + t[..FirstIndex(t, x)]
        && xs[FirstIndex(xs, x) + 1..] == t[FirstIndex(t, x) + 1..];
      [xs[0]] + r
  }

  /** From a duplicate-free queue, removing a key removes it entirely and keeps the queue duplicate-free. */
  lemma {:induction false} RemoveFirstKeepsNoDuplicates(xs: seq<string>, x: string)
    requires NoDuplicates(xs)
    ensures NoDuplicates(RemoveFirst(xs, x)) && x !in RemoveFirst(xs, x)
  {
    if xs != [] && xs[0] != x {
      NoDuplicatesTail(xs);
      RemoveFirstKeepsNoDuplicates(xs[1..], x);
      NoDuplicatesCons(xs[0], RemoveFirst(xs[1..], x));
    } else if xs != [] {
      NoDuplicatesTail(xs);
    }
  }

  class FIFOCache {
    const cacheSize: int
    var cache: map<string, string>
    var nEntriesInCache: int
    /** The cached keys, earliest insertion first. */
    var fifoOrder: seq<string>

    /** The counter, the map and the queue agree, within capacity. */
    ghost predicate Valid()
      reads this
    {
      1 <= cacheSize && Queued() && |cache| <= cacheSize
    }

    /** The counter, the map and the queue agree. */
    ghost predicate Queued()
      reads this
    {
      && nEntriesInCache == |cache| == |fifoOrder|
      && NoDuplicates(fifoOrder)
      && (forall k :: k in cache <==> k in fifoOrder)
    }

    constructor (cacheSize: int)
      requires 1 <= cacheSize
      ensures Valid()
      ensures this.cacheSize == cacheSize && cache == map[] && fifoOrder == []
    {
      this.cacheSize := cacheSize;
      cache := map[];
      nEntriesInCache := 0;
      fifoOrder := [];
    }

    method GetCacheSize() returns (n: int)
      ensures n == cacheSize
    {
      n := cacheSize;
    }

    /** Membership, reading nothing but the map. */
    method InCache(key: string) returns (b: bool)
      ensures b <==> key in cache
    {
      b := key in cache;
    }

    /**
     * The cached value, or none (Java's null) for a key that is not cached.
     * Nothing changes, so gets never affect the eviction order.
     */
    method GetKV(key: string) returns (v: Option<string>)
      ensures v.Some? <==> key in cache
      ensures v.Some? ==> v.value == cache[key]
    {
      v := if key in cache then Some(cache[key]) else None;
    }

    /**
     * An update replaces only the value; an insert into a full cache first
     * evicts the head of `fifoOrder`, then queues the new key last.
     */
    method PutKV(key: string, value: string)
      requires Valid()
      modifies this
      ensures Valid()
      ensures PutContract(old(cache), cache, key, value, cacheSize)
      ensures key in old(cache) ==>
        cache == old(cache)[key := value] && fifoOrder == old(fifoOrder)
      ensures key !in old(cache) && old(nEntriesInCache) < cacheSize ==>
        cache == old(cache)[key := value] && fifoOrder == old(fifoOrder) + [key]
      ensures key !in old(cache) && old(nEntriesInCache) >= cacheSize ==>
        && cache == (old(cache) - {old(fifoOrder)[0]})[key := value]
        && fifoOrder == old(fifoOrder)[1..] + [key]
    {
      var present := InCache(key);
      if present {
        cache := cache[key := value];
        return;
      }
      if nEntriesInCache >= cacheSize {
        EvictOldest();
      }
      Append(key, value);
    }

    /** A full cache drops the head of the queue, from the queue and from the map. */
    method EvictOldest()
      requires Valid() && nEntriesInCache >= cacheSize
      modifies this
      ensures Queued() && |cache| == cacheSize - 1
      ensures cache == old(cache) - {old(fifoOrder)[0]} && fifoOrder == old(fifoOrder)[1..]
    {
      var keyToEvict := fifoOrder[0];
      NoDuplicatesTail(fifoOrder);
      SizeOfRemoval(cache, keyToEvict);
      fifoOrder := fifoOrder[1..];
      cache := cache - {keyToEvict};
      nEntriesInCache := nEntriesInCache - 1;
    }

    /** A key that is not cached enters the map and joins the queue last. */
    method Append(key: string, value: string)
      requires Queued() && 1 <= cacheSize && |cache| < cacheSize && key !in cache
      modifies this
      ensures Valid()
      ensures cache == old(cache)[key := value] && fifoOrder == old(fifoOrder) + [key]
    {
      SizeOfUpdate(cache, key, value);
      NoDuplicatesSnoc(fifoOrder, key);
      cache := cache[key := value];
      nEntriesInCache := nEntriesInCache + 1;
      fifoOrder := fifoOrder + [key];
    }

    /**
     * Removes the key from the map and the queue but decrements the counter
     * whether or not the key was cached: the invariant survives exactly when
     * it was.
     */
    method DeleteKV(key: string)
      requires Valid()
      modifies this
      ensures cache == old(cache) - {key}
      ensures fifoOrder == RemoveFirst(old(fifoOrder), key)
      ensures nEntriesInCache == old(nEntriesInCache) - 1
      ensures Valid() <==> key in old(cache)
    {
      if key in cache {
        SizeOfRemoval(cache, key);
      } else {
        assert cache - {key} == cache;
      }
      RemoveFirstKeepsNoDuplicates(fifoOrder, key);
      cache := cache - {key};
      nEntriesInCache := nEntriesInCache - 1;
      fifoOrder := RemoveFirst(fifoOrder, key);
    }

    /** After clearing, no key is cached and the counter is zero. */
    method Clear()
      requires 1 <= cacheSize
      modifies this
      ensures Valid()
      ensures cache == map[] && fifoOrder == [] && nEntriesInCache == 0
    {
      cache := map[];
      nEntriesInCache := 0;
      fifoOrder := [];
    }
  }

  /** Capacity 2 after putting key1 and key2: key1 heads the queue. */
  method FifoTwoKeys() returns (c: FIFOCache)
    ensures fresh(c) && c.Valid() && c.cacheSize == 2 && c.nEntriesInCache == 2
    ensures c.fifoOrder == ["key1", "key2"] && "key1" in c.cache
  {
    c := new FIFOCache(2);
    c.PutKV("key1", "value");
    assert c.fifoOrder == ["key1"];
    c.PutKV("key2", "value");
  }

  /** Continuing: get key1 (no effect on the order), put key3 evicts key1. */
  method FifoEvictionScenario() returns (inCacheBefore: bool, inCacheAfter: bool)
    ensures inCacheBefore && !inCacheAfter
  {
    var c := FifoTwoKeys();
    var _ := c.GetKV("key1");
    inCacheBefore := c.InCache("key1");
    ghost var full := c.cache;
    assert "key3" !in full;
    c.PutKV("key3", "value");
    assert c.cache == (full - {"key1"})["key3" := "value"];
    assert "key1" !in full - {"key1"} && "key1" != "key3";
    inCacheAfter := c.InCache("key1");
  }
}
