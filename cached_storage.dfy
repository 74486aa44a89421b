/**
 * Write-through coordination of a cache in front of persistent storage:
 * reads are served by the cache on a hit and by storage on a miss; writes
 * go to storage first and reach the cache only when storage accepted them.
 */
module CachedStore {
  import opened Wrappers
  import opened Lines
  import opened ICache
  import opened StrategyCache
  import opened PersistentStorage

  /** Every cached pair agrees with what its storage file reads as. */
  ghost predicate CoherentMaps(cached: map<string, string>, directory: map<string, string>) {
    forall k :: k in cached ==> k in directory && FirstLine(directory[k]) == Some(cached[k])
  }

  /** A write-through put of a single-line, non-empty value keeps the cache coherent. */
  lemma PutKeepsCoherent(before: map<string, string>, after: map<string, string>,
                         directory: map<string, string>, key: string, value: string, capacity: int)
    requires CoherentMaps(before, directory)
    requires 1 <= capacity && |before| <= capacity
    requires PutContract(before, after, key, value, capacity)
    requires IsLine(value) && value != ""
    ensures CoherentMaps(after, directory[key := value])
  {
    PutContractBounds(before, after, key, value, capacity);
    FirstLineOfLine(value);
  }

  /** Deleting a key from both tiers keeps the cache coherent. */
  lemma DeleteKeepsCoherent(cached: map<string, string>, directory: map<string, string>, key: string)
    requires CoherentMaps(cached, directory)
    ensures CoherentMaps(cached - {key}, directory - {key})
  {
  }

  /** Clearing storage alone leaves every cached key stale. */
  lemma ClearedStorageIsIncoherent(cached: map<string, string>, key: string)
    requires key in cached
    ensures !CoherentMaps(cached, map[])
  {
  }

  /**
   * What a read returns: the cached value on a hit, the storage result on
   * a miss.
   */
  function ReadThrough(cached: map<string, string>, directory: map<string, string>,
                       key: string, faults: FsFaults): Result<Option<string>, StorageError>
  {
    if key in cached then Success(Some(cached[key])) else Lookup(directory, key, faults)
  }

  /** On a coherent store a hit reads exactly what storage holds. */
  lemma CoherentHitAgreesWithStorage(cached: map<string, string>, directory: map<string, string>,
                                     key: string)
    requires CoherentMaps(cached, directory) && key in cached
    ensures ReadThrough(cached, directory, key, NoFaults) == Lookup(directory, key, NoFaults)
  {
  }

  class CachedStorage {
    const cacheStrategy: CacheStrategy
    const cache: Cache
    const storage: Storage
    ghost const Repr: set<object>

    ghost predicate Valid()
      reads this, Repr
    {
      && Repr == {cache, storage} + cache.Repr
      && storage !in cache.Repr && cache !in cache.Repr
      && cache.Valid() && cache.strategy == cacheStrategy
      && 1 <= cache.Capacity()
    }

    /** The cache holds nothing the storage would not return. */
    ghost predicate Coherent()
      reads this, Repr
      requires Valid()
    {
      CoherentMaps(cache.Contents(), storage.directory)
    }

    /**
     * Builds the cache the strategy names and opens storage under
     * `rootDir`; the cache starts empty, storage holds `existing`.
     */
    constructor (rootDir: string, cacheStrategy: CacheStrategy, cacheSize: int,
                 existing: map<string, string>)
      requires 1 <= cacheSize
      ensures Valid() && fresh(Repr) && Coherent()
      ensures this.cacheStrategy == cacheStrategy && cache.Capacity() == cacheSize
      ensures storage.rootDir == rootDir
      ensures cache.Contents() == map[] && storage.directory == existing
    {
      this.cacheStrategy := cacheStrategy;
      var c := new Cache(cacheStrategy, cacheSize);
      var s := new Storage(rootDir, existing);
      cache, storage := c, s;
      Repr := {c, s} + c.Repr;
    }

    method GetCacheStrategy() returns (s: CacheStrategy)
      ensures s == cacheStrategy
    {
      s := cacheStrategy;
    }

    method GetCacheSize() returns (n: int)
      requires Valid()
      ensures n == cache.Capacity()
    {
      n := cache.GetCacheSize();
    }

    /** Delegates to storage; changes nothing. */
    method InStorage(key: string) returns (b: bool)
      requires Valid()
      ensures b <==> key in storage.directory
    {
      b := storage.InStorage(key);
    }

    /** Delegates to the cache; changes nothing. */
    method InCache(key: string) returns (b: bool)
      requires Valid()
      ensures b <==> key in cache.Contents()
    {
      b := cache.InCache(key);
    }

    /**
     * A hit returns the cached value and updates the policy's recency or
     * usage data; a miss returns what storage returns, including its
     * errors, and neither fills nor touches the cache.
     */
    method GetKV(key: string, faults: FsFaults) returns (r: Result<Option<string>, StorageError>)
      requires Valid()
      modifies cache.Repr
      ensures Valid() && r == ReadThrough(old(cache.Contents()), old(storage.directory), key, faults)
      ensures cache.Contents() == old(cache.Contents()) && cache.Capacity() == old(cache.Capacity())
      ensures storage.directory == old(storage.directory)
      ensures key in old(cache.Contents()) ==> cache.Touched(key)
      ensures key !in old(cache.Contents()) ==> unchanged(cache.Repr)
    {
      var hit := InCache(key);
      if hit {
        var v := cache.GetKV(key);
        r := Success(Some(v));
      } else {
        r := storage.GetKV(key, faults);
      }
    }

    /**
     * Writes storage first; only if that succeeded is the pair put into the
     * cache. A single-line, non-empty value keeps the cache coherent, and so
     * does a failed write.
     */
    method PutKV(key: string, value: string, faults: FsFaults) returns (r: Outcome<StorageError>)
      requires Valid()
      modifies Repr
      ensures Valid() && cache.Capacity() == old(cache.Capacity())
      ensures r == WriteOutcome(old(storage.directory), key, faults)
      ensures storage.directory == Written(old(storage.directory), key, value, faults)
      ensures r.Fail? ==> cache.Contents() == old(cache.Contents()) && unchanged(cache.Repr)
      ensures r.Pass? ==> PutContract(old(cache.Contents()), cache.Contents(), key, value, cache.Capacity())
      ensures r.Pass? ==> key in cache.Contents() && cache.Contents()[key] == value
      ensures old(Coherent()) && (r.Fail? || (IsLine(value) && value != "")) ==> Coherent()
    {
      ghost var cached0, directory0, coherent0 := cache.Contents(), storage.directory, Coherent();
      r := storage.PutKV(key, value, faults);
      assert cache.Valid() && cache.Contents() == cached0;
      if r.Fail? {
        return;
      }
      assert storage.directory == directory0[key := value];
      cache.PutKV(key, value);
      PutContractBounds(cached0, cache.Contents(), key, value, cache.Capacity());
      if coherent0 && IsLine(value) && value != "" {
        PutKeepsCoherent(cached0, cache.Contents(), directory0, key, value, cache.Capacity());
      }
    }

    /**
     * The delete the server calls: storage first, then the cache, which is
     * asked only when it holds the key. A storage error leaves both tiers
     * as they were.
     */
    method DeleteKV(key: string, faults: FsFaults) returns (r: Outcome<StorageError>)
      requires Valid()
      modifies Repr
      ensures Valid() && cache.Capacity() == old(cache.Capacity())
      ensures r == Fail(NotFound) <==> key !in old(storage.directory)
      ensures r == Fail(FileSystemFailure) <==> key in old(storage.directory) && faults.deleteFails
      ensures r.Fail? ==>
        storage.directory == old(storage.directory) && cache.Contents() == old(cache.Contents())
      ensures r.Fail? ==> unchanged(cache.Repr)
      ensures r.Pass? ==>
        storage.directory == old(storage.directory) - {key} && cache.Contents() == old(cache.Contents()) - {key}
      ensures r.Pass? && old(Coherent()) ==> Coherent()
    {
      ghost var cached0, directory0, coherent0 := cache.Contents(), storage.directory, Coherent();
      r := storage.DeleteKV(key, faults);
      assert cache.Valid() && cache.Contents() == cached0;
      if r.Fail? {
        return;
      }
      DropFromCache(key);
      assert storage.directory == directory0 - {key};
      if coherent0 {
        DeleteKeepsCoherent(cached0, directory0, key);
      }
    }

    /** Removes the key from the cache when the cache holds it; storage is untouched. */
    method DropFromCache(key: string)
      requires Valid()
      modifies cache.Repr
      ensures Valid() && cache.Capacity() == old(cache.Capacity())
      ensures cache.Contents() == old(cache.Contents()) - {key}
      ensures storage.directory == old(storage.directory)
    {
      ghost var directory0 := storage.directory;
      var cached := cache.InCache(key);
      if cached {
        cache.DeleteKV(key);
        assert cache.Valid();
      } else {
        assert cache.Contents() - {key} == cache.Contents();
      }
      assert storage.directory == directory0;
    }

    /** Empties the cache only; storage is untouched. */
    method ClearCache()
      requires Valid()
      modifies cache.Repr
      ensures Valid() && Coherent()
      ensures cache.Contents() == map[] && cache.Capacity() == old(cache.Capacity())
      ensures storage.directory == old(storage.directory)
    {
      cache.Clear();
    }

    /**
     * Clears storage only; the cache keeps its pairs even when they are now
     * stale. A failed clear leaves storage as `Storage.Clear` says.
     */
    method ClearStorage(undeletable: set<string>) returns (r: Outcome<StorageError>)
      requires Valid()
      modifies storage
      ensures Valid()
      ensures r.Pass? <==> old(storage.directory).Keys !! undeletable
      ensures r.Pass? ==> storage.directory == map[]
      ensures r.Fail? ==> r.error == FileSystemFailure
      ensures r.Fail? ==> exists k :: k in storage.directory && k in undeletable
      ensures forall k :: k in old(storage.directory) && k in undeletable ==> k in storage.directory
      ensures storage.directory.Keys <= old(storage.directory).Keys
      ensures forall k :: k in storage.directory ==> storage.directory[k] == old(storage.directory)[k]
      ensures cache.Contents() == old(cache.Contents())
    {
      r := storage.Clear(undeletable);
    }
  }
}
