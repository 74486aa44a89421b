/**
 * The storage server's key-value front: a port, a cached storage rooted at
 * the fixed data directory, and the dispatch of a put with no value to a
 * delete.
 */
module Server {
  import opened Wrappers
  import opened Lines
  import opened ICache
  import opened StrategyCache
  import opened PersistentStorage
  import opened CachedStore

  /** The directory all keys are stored under. */
  const PERSISTENT_STORAGE_ROOT_DIR: string := "data"

  /** A put with no value, or an empty one, is a delete. */
  predicate IsDeletion(value: Option<string>) {
    value.None? || value.value == ""
  }

  /**
   * What a put does to storage, as an outcome: a delete of a missing key
   * is not found and a failing delete is a filesystem failure; a write
   * ends as storage's write does.
   */
  function PutOutcome(directory: map<string, string>, key: string, value: Option<string>, faults: FsFaults)
    : (r: Outcome<StorageError>)
    ensures IsDeletion(value) ==> (r == Fail(NotFound) <==> key !in directory)
    ensures IsDeletion(value) ==> (r == Fail(FileSystemFailure) <==> key in directory && faults.deleteFails)
    ensures !IsDeletion(value) ==> r == WriteOutcome(directory, key, faults)
  {
    if IsDeletion(value) then
      if key !in directory then Fail(NotFound)
      else if faults.deleteFails then Fail(FileSystemFailure)
      else Pass
    else WriteOutcome(directory, key, faults)
  }

  /** Without faults, a put stores any value and deletes only keys that exist. */
  lemma PutOutcomeWithoutFaults(directory: map<string, string>, key: string, value: Option<string>)
    ensures PutOutcome(directory, key, value, NoFaults).Pass? <==> !IsDeletion(value) || key in directory
  {
  }

  /** The part of a server's state its answers depend on: both tiers and the capacity. */
  datatype ServerView = ServerView(stored: map<string, string>, cached: map<string, string>, capacity: int)

  /**
   * How a put changes the server. A delete that storage accepts removes
   * the key from both tiers, one it refuses changes nothing. A write
   * changes storage as storage's write does; when it succeeds the cache
   * takes the pair as its strategy's put does, and otherwise the cache is
   * untouched.
   */
  ghost predicate PutStep(before: ServerView, key: string, value: Option<string>, faults: FsFaults,
                          after: ServerView)
  {
    && after.capacity == before.capacity
    && if IsDeletion(value) then
         if PutOutcome(before.stored, key, value, faults).Pass? then
           after.stored == before.stored - {key} && after.cached == before.cached - {key}
         else after == before
       else
         && after.stored == Written(before.stored, key, value.value, faults)
         && if WriteOutcome(before.stored, key, faults).Pass? then
              PutContract(before.cached, after.cached, key, value.value, before.capacity)
            else after.cached == before.cached
  }

  /**
   * A put of a value without faults is read back by the next read, from
   * the cache, whatever the strategy evicted to make room.
   */
  lemma PutThenRead(before: ServerView, key: string, value: string, after: ServerView)
    requires 1 <= before.capacity && |before.cached| <= before.capacity
    requires value != ""
    requires PutStep(before, key, Some(value), NoFaults, after)
    ensures ReadThrough(after.cached, after.stored, key, NoFaults) == Success(Some(value))
    ensures after.stored == before.stored[key := value]
  {
    WrittenWithoutFaults(before.stored, key, value);
    PutContractBounds(before.cached, after.cached, key, value, before.capacity);
  }

  class KVServer {
    const port: int
    const cachedStorage: CachedStorage
    /** The listening socket's host; there is none before the server runs. */
    var serverHost: Option<string>
    ghost const Repr: set<object>

    ghost predicate Valid()
      reads this, Repr
    {
      && Repr == {cachedStorage} + cachedStorage.Repr
      && this !in Repr
      && cachedStorage.Valid()
    }

    /** What storage holds. */
    ghost function Stored(): map<string, string>
      reads this, Repr
      requires Valid()
    {
      cachedStorage.storage.directory
    }

    /** What the cache holds. */
    ghost function Cached(): map<string, string>
      reads this, Repr
      requires Valid()
    {
      cachedStorage.cache.Contents()
    }

    /** Both tiers and the capacity, as the answers to requests see them. */
    ghost function View(): ServerView
      reads this, Repr
      requires Valid()
    {
      ServerView(Stored(), Cached(), cachedStorage.cache.Capacity())
    }

    /** A server on `port` whose storage already holds `persisted` from earlier runs. */
    constructor (port: int, cacheStrategy: CacheStrategy, cacheSize: int, persisted: map<string, string>)
      requires 1 <= cacheSize
      ensures Valid() && fresh(Repr) && cachedStorage.Coherent()
      ensures this.port == port && serverHost == None
      ensures cachedStorage.cacheStrategy == cacheStrategy && cachedStorage.cache.Capacity() == cacheSize
      ensures cachedStorage.storage.rootDir == PERSISTENT_STORAGE_ROOT_DIR
      ensures Stored() == persisted && Cached() == map[]
    {
      this.port := port;
      var cs := new CachedStorage(PERSISTENT_STORAGE_ROOT_DIR, cacheStrategy, cacheSize, persisted);
      cachedStorage := cs;
      serverHost := None;
      Repr := {cs} + cs.Repr;
    }

    method GetPort() returns (p: int)
      ensures p == port
    {
      p := port;
    }

    /** None until the server socket exists. */
    method GetHostname() returns (h: Option<string>)
      ensures h == serverHost
    {
      h := serverHost;
    }

    method GetCacheStrategy() returns (s: CacheStrategy)
      requires Valid()
      ensures s == cachedStorage.cacheStrategy
    {
      s := cachedStorage.GetCacheStrategy();
    }

    method GetCacheSize() returns (n: int)
      requires Valid()
      ensures n == cachedStorage.cache.Capacity()
    {
      n := cachedStorage.GetCacheSize();
    }

    method InStorage(key: string) returns (b: bool)
      requires Valid()
      ensures b <==> key in Stored()
    {
      b := cachedStorage.InStorage(key);
    }

    method InCache(key: string) returns (b: bool)
      requires Valid()
      ensures b <==> key in Cached()
    {
      b := cachedStorage.InCache(key);
    }

    /**
     * Passes straight through to the cached storage: the pairs in both
     * tiers stay as they are, and a hit updates the policy's data.
     */
    method GetKV(key: string, faults: FsFaults) returns (r: Result<Option<string>, StorageError>)
      requires Valid()
      modifies cachedStorage.cache.Repr
      ensures Valid() && r == ReadThrough(old(Cached()), old(Stored()), key, faults)
      ensures View() == old(View())
      ensures key in old(Cached()) ==> cachedStorage.cache.Touched(key)
      ensures key !in old(Cached()) ==> unchanged(cachedStorage.cache.Repr)
    {
      r := cachedStorage.GetKV(key, faults);
    }

    /**
     * A null or empty value deletes the key from storage and then from
     * the cache; any other value is written to storage and then the cache.
     */
    method PutKV(key: string, value: Option<string>, faults: FsFaults) returns (r: Outcome<StorageError>)
      requires Valid()
      modifies Repr
      ensures Valid()
      ensures r == PutOutcome(old(Stored()), key, value, faults)
      ensures PutStep(old(View()), key, value, faults, View())
      ensures r.Pass? && !IsDeletion(value) ==> key in Cached() && Cached()[key] == value.value
      ensures forall k :: k != key && k in Cached() ==> k in old(Cached()) && Cached()[k] == old(Cached())[k]
      ensures old(cachedStorage.Coherent()) && (IsDeletion(value) || IsLine(value.value)) ==>
        cachedStorage.Coherent()
      ensures r.Fail? ==> unchanged(cachedStorage.cache.Repr)
    {
      if value.None? || value.value == "" {
        r := cachedStorage.DeleteKV(key, faults);
        if r.Fail? {
          assert r.error == NotFound || r.error == FileSystemFailure;
        }
      } else {
        r := cachedStorage.PutKV(key, value.value, faults);
        if r.Pass? {
          PutContractBounds(old(Cached()), Cached(), key, value.value, cachedStorage.cache.Capacity());
        }
      }
    }

    method ClearCache()
      requires Valid()
      modifies cachedStorage.cache.Repr
      ensures Valid() && Cached() == map[] && Stored() == old(Stored())
    {
      cachedStorage.ClearCache();
    }

    method ClearStorage(undeletable: set<string>) returns (r: Outcome<StorageError>)
      requires Valid()
      modifies cachedStorage.storage
      ensures Valid() && Cached() == old(Cached())
      ensures r.Pass? <==> old(Stored()).Keys !! undeletable
      ensures r.Pass? ==> Stored() == map[]
      ensures r.Fail? ==> r.error == FileSystemFailure
      ensures r.Fail? ==> exists k :: k in Stored() && k in undeletable
      ensures forall k :: k in old(Stored()) && k in undeletable ==> k in Stored()
      ensures Stored().Keys <= old(Stored()).Keys
      ensures forall k :: k in Stored() ==> Stored()[k] == old(Stored())[k]
    {
      r := cachedStorage.ClearStorage(undeletable);
    }
  }

  /** A fresh FIFO server of capacity 4 reports no host, its port, strategy and capacity. */
  method SelfInfoScenario(persisted: map<string, string>)
    returns (hostname: Option<string>, port: int, strategy: CacheStrategy, cacheSize: int)
    ensures hostname == None && port == 4000 && strategy == FIFO && cacheSize == 4
  {
    var server := new KVServer(4000, FIFO, 4, persisted);
    var _ := server.ClearStorage({});
    hostname := server.GetHostname();
    port := server.GetPort();
    strategy := server.GetCacheStrategy();
    cacheSize := server.GetCacheSize();
  }

  /** After clearing storage, a put of foo2=bar2 followed by a get returns bar2. */
  method PutGetScenario(persisted: map<string, string>) returns (response: Result<Option<string>, StorageError>)
    ensures response == Success(Some("bar2"))
  {
    var server := new KVServer(4000, FIFO, 4, persisted);
    var _ := server.ClearStorage({});
    assert !IsDeletion(Some("bar2"));
    var put := server.PutKV("foo2", Some("bar2"), NoFaults);
    response := server.GetKV("foo2", NoFaults);
  }

  /**
   * A put, then clearing storage, then a get: the get is served by the
   * cache, which still holds the pair, so it returns bar2 rather than
   * failing with not found.
   */
  method ClearStorageScenario(persisted: map<string, string>) returns (response: Result<Option<string>, StorageError>)
    ensures response == Success(Some("bar2"))
  {
    var server := new KVServer(4000, FIFO, 4, persisted);
    var _ := server.ClearStorage({});
    assert !IsDeletion(Some("bar2"));
    var put := server.PutKV("foo2", Some("bar2"), NoFaults);
    var cleared := server.ClearStorage({});
    response := server.GetKV("foo2", NoFaults);
  }
}
