/** The bounded memoizer of src/brain/memo.utils.ts. */
module Memo {
  import opened Sequences
  import opened OrderedMap

  /** The keys a call displaces: the oldest entry, if `key` is new and the cache is full. */
  predicate Displaces<K(==,!new), V>(cache: Map<K, V>, maxSize: int, key: K) {
    key !in cache.vals && |cache.keys| >= maxSize && |cache.keys| > 0
  }

  /** Tombstones are kept oldest first and no more than `maxSize` of them. */
  function Bury<K>(evictedKeys: seq<K>, maxSize: int, key: K): seq<K> {
    if |evictedKeys| + 1 > maxSize then (evictedKeys + [key])[1..] else evictedKeys + [key]
  }

  /** A hit leaves the tombstones alone; a miss lifts that of `key` and buries the key it displaces. */
  function TombstonesAfter<K(==,!new), V>(cache: Map<K, V>, evictedKeys: seq<K>, maxSize: int, key: K): seq<K> {
    if key in cache.vals then evictedKeys
    else if Displaces(cache, maxSize, key) then Bury(Without(evictedKeys, key), maxSize, cache.keys[0])
    else Without(evictedKeys, key)
  }

  /** First in, first out: a hit moves nothing, a new key goes to the end, and the oldest leaves a full cache. */
  lemma CacheIsFifo<K(!new), V>(cache: Map<K, V>, maxSize: int, key: K, value: V)
    requires Valid(cache) && maxSize >= 1 && |cache.keys| <= maxSize
    ensures var after := Remember(cache, maxSize, key, value);
            && after.keys == (if key in cache.vals then cache.keys
                              else if |cache.keys| < maxSize then cache.keys + [key]
                              else cache.keys[1..] + [key])
            && (forall k :: k in after.vals ==>
                  if k in cache.vals then after.vals[k] == cache.vals[k] else k == key && after.vals[k] == value)
  {
    if key !in cache.vals && |cache.keys| >= maxSize { assert cache.keys[0] in cache.keys; }
  }

  class Memoize<K(==,!new), V> {
    const maxSize: int
    var cache: Map<K, V>
    var evictedKeys: seq<K> // tombstones, oldest first
    var hits: int
    var misses: int
    var evictions: int
    var recomputesAfterEvict: int

    /** Both tables are bounded, and a cached key has no tombstone. */
    ghost predicate Valid()
      reads this
    {
      && maxSize >= 1 && OrderedMap.Valid(cache) && |cache.keys| <= maxSize
      && Distinct(evictedKeys) && |evictedKeys| <= maxSize
      && forall k :: k in evictedKeys ==> k !in cache.vals
    }

    /** Every cached verdict is the one `f` gives. */
    ghost predicate Agrees(f: K -> V)
      reads this
    {
      forall k :: k in cache.vals ==> cache.vals[k] == f(k)
    }

    constructor (maxSize: int)
      ensures Valid() && this.maxSize == Max(1, maxSize) && cache == Map([], map[])
    {
      this.maxSize := Max(1, maxSize);
      cache, evictedKeys := Map([], map[]), [];
      hits, misses, evictions, recomputesAfterEvict := 0, 0, 0, 0;
    }

    /** `f` is the function whose call on `key` the closure stands for. */
    method Call(key: K, f: K -> V) returns (value: V)
      requires Valid() && Agrees(f)
      modifies this
      ensures Valid() && Agrees(f) && value == f(key)
      ensures cache == Remember(old(cache), maxSize, key, f(key))
      ensures evictedKeys == TombstonesAfter(old(cache), old(evictedKeys), maxSize, key)
      ensures evictions == old(evictions) + if Displaces(old(cache), maxSize, key) then 1 else 0
      ensures hits + misses == old(hits) + old(misses) + 1 && (hits > old(hits) <==> key in old(cache).vals)
      ensures recomputesAfterEvict == old(recomputesAfterEvict) + if key in old(evictedKeys) then 1 else 0
    {
      if key in cache.vals {
        hits := hits + 1;
        return cache.vals[key];
      }
      misses := misses + 1;
      ForgetTombstone(key);
      value := f(key);
      Store(key, value, f);
    }

    /** A computed value enters the cache, at the cost of the oldest entry when it is full. */
    method Store(key: K, value: V, ghost f: K -> V)
      requires Valid() && Agrees(f) && key !in cache.vals && key !in evictedKeys && value == f(key)
      modifies `cache, `evictions, `evictedKeys
      ensures Valid() && Agrees(f) && cache == Remember(old(cache), maxSize, key, value)
      ensures var full := Displaces(old(cache), maxSize, key);
              && evictedKeys == (if full then Bury(old(evictedKeys), maxSize, old(cache).keys[0]) else old(evictedKeys))
              && evictions == old(evictions) + if full then 1 else 0
    {
      if |cache.keys| >= maxSize {
        EvictOldest(key, f);
      }
      PutValid(cache, key, value);
      cache := Put(cache, key, value);
    }

    /** A missed key that was evicted before counts as a recomputation. */
    method ForgetTombstone(key: K)
      requires Valid()
      modifies `evictedKeys, `recomputesAfterEvict
      ensures Valid() && key !in evictedKeys && evictedKeys == Without(old(evictedKeys), key)
      ensures recomputesAfterEvict == old(recomputesAfterEvict) + if key in old(evictedKeys) then 1 else 0
    {
      WithoutMembers(evictedKeys, key);
      WithoutDistinct(evictedKeys, key);
      if key in evictedKeys {
        recomputesAfterEvict := recomputesAfterEvict + 1;
      }
      evictedKeys := Without(evictedKeys, key);
    }

    method EvictOldest(ghost key: K, ghost f: K -> V)
      requires Valid() && |cache.keys| == maxSize && key !in evictedKeys && key !in cache.vals && Agrees(f)
      modifies `cache, `evictions, `evictedKeys
      ensures Valid() && |cache.keys| == maxSize - 1 && key !in evictedKeys && key !in cache.vals && Agrees(f)
      ensures cache == Remove(old(cache), old(cache).keys[0])
      ensures evictedKeys == Bury(old(evictedKeys), maxSize, old(cache).keys[0]) && evictions == old(evictions) + 1
    {
      var oldest := cache.keys[0];
      assert oldest in cache.keys;
      RemoveValid(cache, oldest);
      cache := Remove(cache, oldest);
      evictions := evictions + 1;
      assert oldest !in evictedKeys;
      DistinctAppend(evictedKeys, oldest);
      evictedKeys := evictedKeys + [oldest];
      assert evictedKeys[|evictedKeys| - 1] == oldest;
      if |evictedKeys| > maxSize {
        assert evictedKeys[1..][|evictedKeys| - 2] == oldest;
        evictedKeys := evictedKeys[1..];
      }
    }
  }
}
