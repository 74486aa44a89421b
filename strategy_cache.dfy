/**
 * The cache a server holds: one of the three policies, chosen once by the
 * strategy and then reached only through the `ICache` operations.
 */
module StrategyCache {
  import opened Wrappers
  import opened ICache
  import FifoCache
  import LruCache
  import LfuCache

  /** The replacement strategy, fixed when the server is built. */
  datatype CacheStrategy = FIFO | LRU | LFU

  class Cache {
    const strategy: CacheStrategy
    const fifo: FifoCache.FIFOCache?
    const lru: LruCache.LRUCache?
    const lfu: LfuCache.LFUCache?
    ghost const Repr: set<object>

    /** Exactly the policy object the strategy names is present, and it is the whole footprint. */
    ghost predicate Wired()
      reads this
    {
      match strategy
      case FIFO => fifo != null && Repr == {fifo}
      case LRU => lru != null && Repr == {lru}
      case LFU => lfu != null && Repr == {lfu}
    }

    ghost predicate Valid()
      reads this, Repr
    {
      && Wired()
      && match strategy
         case FIFO => fifo.Valid()
         case LRU => lru.Valid()
         case LFU => lfu.Valid()
    }

    /** The cached key-value pairs, whatever the policy. */
    ghost function Contents(): map<string, string>
      reads this, Repr
      requires Wired()
    {
      match strategy
      case FIFO => fifo.cache
      case LRU => lru.cache
      case LFU => lfu.cache
    }

    /** The configured capacity. */
    ghost function Capacity(): int
      reads this, Repr
      requires Wired()
    {
      match strategy
      case FIFO => fifo.cacheSize
      case LRU => lru.cacheSize
      case LFU => lfu.cacheSize
    }

    /** Builds the policy the strategy names, empty and with the given capacity. */
    constructor (strategy: CacheStrategy, cacheSize: int)
      requires 1 <= cacheSize
      ensures Valid() && fresh(Repr)
      ensures this.strategy == strategy && Contents() == map[] && Capacity() == cacheSize
    {
      this.strategy := strategy;
      match strategy {
        case FIFO =>
          var c := new FifoCache.FIFOCache(cacheSize);
          fifo, lru, lfu := c, null, null;
          Repr := {c};
        case LRU =>
          var c := new LruCache.LRUCache(cacheSize);
          fifo, lru, lfu := null, c, null;
          Repr := {c};
        case LFU =>
          var c := new LfuCache.LFUCache(cacheSize);
          fifo, lru, lfu := null, null, c;
          Repr := {c};
      }
    }

    method GetCacheSize() returns (n: int)
      requires Wired()
      ensures n == Capacity()
    {
      match strategy {
        case FIFO => n := fifo.GetCacheSize();
        case LRU => n := lru.GetCacheSize();
        case LFU => n := lfu.GetCacheSize();
      }
    }

    /** Membership; changes nothing. */
    method InCache(key: string) returns (b: bool)
      requires Wired()
      ensures b <==> key in Contents()
    {
      match strategy {
        case FIFO => b := fifo.InCache(key);
        case LRU => b := lru.InCache(key);
        case LFU => b := lfu.InCache(key);
      }
    }

    /**
     * What a get of a cached key does to the policy's own data: FIFO
     * leaves its queue alone, LRU gives the key the clock's current
     * reading, LFU adds one to the key's count.
     */
    twostate predicate Touched(key: string)
      reads this, Repr
    {
      && Wired()
      && match strategy
         case FIFO => fifo.fifoOrder == old(fifo.fifoOrder)
         case LRU => lru.lruTimes == old(lru.lruTimes)[key := old(lru.clock)] && lru.clock == old(lru.clock) + 1
         case LFU =>
           key in old(lfu.lfuUsages) && lfu.lfuUsages == old(lfu.lfuUsages)[key := old(lfu.lfuUsages)[key] + 1]
    }

    /**
     * The cached value of a key the caller has checked is cached. The
     * pairs stay as they are; the policy's recency or usage data is
     * updated as `Touched` says.
     */
    method GetKV(key: string) returns (v: string)
      requires Valid() && key in Contents()
      modifies Repr
      ensures Valid() && Contents() == old(Contents())
      ensures v == Contents()[key]
      ensures Touched(key)
    {
      match strategy {
        case FIFO =>
          var r := fifo.GetKV(key);
          v := r.value;
        case LRU =>
          var r := lru.GetKV(key);
          v := r.value;
        case LFU =>
          v := lfu.GetKV(key);
      }
    }

    /** Whatever the policy, a put follows the shared contract. */
    method PutKV(key: string, value: string)
      requires Valid()
      modifies Repr
      ensures Valid() && Capacity() == old(Capacity())
      ensures PutContract(old(Contents()), Contents(), key, value, Capacity())
    {
      match strategy {
        case FIFO => fifo.PutKV(key, value);
        case LRU => ghost var _ := lru.PutKV(key, value);
        case LFU => ghost var _ := lfu.PutKV(key, value);
      }
    }

    /** Removes the key; the invariant survives exactly when the key was cached. */
    method DeleteKV(key: string)
      requires Valid()
      modifies Repr
      ensures Wired() && Contents() == old(Contents()) - {key} && Capacity() == old(Capacity())
      ensures Valid() <==> key in old(Contents())
    {
      match strategy {
        case FIFO => fifo.DeleteKV(key);
        case LRU => lru.DeleteKV(key);
        case LFU => lfu.DeleteKV(key);
      }
    }

    /** Empties the cache; this restores the invariant even after a miscounted delete. */
    method Clear()
      requires Wired() && 1 <= Capacity()
      modifies Repr
      ensures Valid() && Contents() == map[] && Capacity() == old(Capacity())
    {
      match strategy {
        case FIFO => fifo.Clear();
        case LRU => lru.Clear();
        case LFU => lfu.Clear();
      }
    }
  }
}
