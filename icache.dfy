/**
 * The cache contract shared by every eviction policy, stated on the
 * key-value map a cache holds. The operations themselves are the methods of
 * the policy classes and of the strategy dispatcher `StrategyCache.Cache`.
 */
module ICache {

  /**
   * What `putKV` does to the cached pairs: updating a cached key, or
   * inserting while there is room, changes only that key; inserting into a
   * full cache first evicts exactly one cached key.
   */
  ghost predicate PutContract(before: map<string, string>, after: map<string, string>,
                              key: string, value: string, capacity: int)
  {
    if key in before || |before| < capacity then after == before[key := value]
    else exists victim :: victim in before && after == (before - {victim})[key := value]
  }

  lemma SizeOfUpdate(m: map<string, string>, key: string, value: string)
    ensures |m[key := value]| == if key in m then |m| else |m| + 1
  {
    if key in m {
      assert m[key := value].Keys == m.Keys;
    } else {
      assert m[key := value].Keys == m.Keys + {key};
    }
  }

  lemma SizeOfRemoval(m: map<string, string>, key: string)
    requires key in m
    ensures |m - {key}| == |m| - 1
  {
    assert (m - {key}).Keys == m.Keys - {key};
  }

  /**
   * Whatever the policy, a put leaves the key mapped to the value, keeps
   * the cache within a positive capacity and keeps every other surviving
   * pair as it was.
   */
  lemma PutContractBounds(before: map<string, string>, after: map<string, string>,
                          key: string, value: string, capacity: int)
    requires 1 <= capacity && |before| <= capacity
    requires PutContract(before, after, key, value, capacity)
    ensures key in after && after[key] == value
    ensures |after| <= capacity
    ensures forall k :: k in after && k != key ==> k in before && after[k] == before[k]
    ensures key in before ==> |after| == |before|
  {
    if key in before || |before| < capacity {
      SizeOfUpdate(before, key, value);
    } else {
      var victim :| victim in before && after == (before - {victim})[key := value];
      SizeOfRemoval(before, victim);
      SizeOfUpdate(before - {victim}, key, value);
    }
  }
}
