/** The bounded TTL cache of src/brain/ttl.utils.ts; the clock is the caller's. */
module Ttl {
  import opened Sequences
  import opened OrderedMap

  datatype Timed<+V> = Timed(expiresAt: real, value: V)

  /** The live value of `key`, as `peek` sees it. */
  function Live<K(==,!new), V>(m: Map<K, Timed<V>>, key: K, now: real): Option<V> {
    if key in m.vals && m.vals[key].expiresAt > now then Some(m.vals[key].value) else None
  }

  function AfterGet<K(==,!new), V>(m: Map<K, Timed<V>>, key: K, now: real): Map<K, Timed<V>> {
    if key !in m.vals then m
    else if m.vals[key].expiresAt <= now then Remove(m, key)
    else Touch(m, key, m.vals[key])
  }

  function AfterSet<K(==,!new), V>(
    m: Map<K, Timed<V>>, maxSize: int, key: K, value: V, ttlMs: real, now: real): Map<K, Timed<V>>
  {
    var kept := if |m.keys| >= maxSize && key !in m.vals && |m.keys| > 0 then Remove(m, m.keys[0]) else m;
    Touch(kept, key, Timed(now + ttlMs, value))
  }

  ghost predicate Bounded<K(!new), V>(m: Map<K, Timed<V>>, maxSize: int) {
    maxSize >= 1 && Valid(m) && |m.keys| <= maxSize
  }

  lemma GetKeepsBound<K(!new), V>(m: Map<K, Timed<V>>, maxSize: int, key: K, now: real)
    requires Bounded(m, maxSize)
    ensures Bounded(AfterGet(m, key, now), maxSize)
    ensures forall k :: k in AfterGet(m, key, now).vals ==> k in m.vals && AfterGet(m, key, now).vals[k] == m.vals[k]
  {
    if key in m.vals {
      RemoveValid(m, key);
      TouchValid(m, key, m.vals[key]);
      TouchShape(m, key, m.vals[key]);
    }
  }

  lemma SetKeepsBound<K(!new), V>(m: Map<K, Timed<V>>, maxSize: int, key: K, value: V, ttlMs: real, now: real)
    requires Bounded(m, maxSize)
    ensures Bounded(AfterSet(m, maxSize, key, value, ttlMs, now), maxSize)
    ensures var m' := AfterSet(m, maxSize, key, value, ttlMs, now);
            && key in m'.vals && m'.vals[key] == Timed(now + ttlMs, value)
            && forall k :: k in m'.vals && k != key ==> k in m.vals && m'.vals[k] == m.vals[k]
  {
    var timed := Timed(now + ttlMs, value);
    if |m.keys| >= maxSize && key !in m.vals {
      assert m.keys[0] in m.keys;
      RemoveValid(m, m.keys[0]);
      TouchValid(Remove(m, m.keys[0]), key, timed);
      TouchShape(Remove(m, m.keys[0]), key, timed);
    } else {
      TouchValid(m, key, timed);
      TouchShape(m, key, timed);
    }
  }

  /** A read moves a live key to the recent end and drops a dead one; a write puts its key there. */
  lemma RecentEnd<K(!new), V>(m: Map<K, Timed<V>>, maxSize: int, key: K, value: V, ttlMs: real, now: real)
    requires Bounded(m, maxSize)
    ensures var others := Without(m.keys, key);
            && AfterGet(m, key, now).keys == (if key !in m.vals then m.keys
                                              else if now < m.vals[key].expiresAt then others + [key]
                                              else others)
            && AfterSet(m, maxSize, key, value, ttlMs, now).keys
               == (if key !in m.vals && |m.keys| == maxSize then m.keys[1..] else others) + [key]
  {
    var timed := Timed(now + ttlMs, value);
    TouchShape(m, key, timed);
    if key in m.vals { TouchShape(m, key, m.vals[key]); }
    if key !in m.vals && |m.keys| == maxSize {
      TouchShape(Remove(m, m.keys[0]), key, timed);
    }
  }

  class TtlCache<K(==,!new), V> {
    const maxSize: int
    var entries: Map<K, Timed<V>>
    var hits: int
    var misses: int
    var expired: int
    var evictions: int

    ghost predicate Valid()
      reads this
    {
      Bounded(entries, maxSize)
    }

    constructor (maxSize: int)
      ensures Valid() && this.maxSize == Max(1, maxSize) && entries == Map([], map[])
    {
      this.maxSize := Max(1, maxSize);
      entries := Map([], map[]);
      hits, misses, expired, evictions := 0, 0, 0, 0;
    }

    /** A value is returned exactly while it is live; reading a dead one drops it. */
    method Get(key: K, now: real) returns (value: Option<V>)
      requires Valid()
      modifies `entries, `hits, `misses, `expired
      ensures Valid() && entries == AfterGet(old(entries), key, now)
      ensures value == Live(old(entries), key, now)
      ensures hits == old(hits) + if value.Some? then 1 else 0
      ensures misses == old(misses) + if value.None? then 1 else 0
      ensures expired == old(expired) + if value.None? && key in old(entries).vals then 1 else 0
    {
      GetKeepsBound(entries, maxSize, key, now);
      if key !in entries.vals {
        misses := misses + 1;
        return None;
      }
      var entry := entries.vals[key];
      if entry.expiresAt <= now {
        misses := misses + 1;
        expired := expired + 1;
        entries := Remove(entries, key);
        return None;
      }
      entries := Remove(entries, key);
      entries := Put(entries, key, entry);
      hits := hits + 1;
      return Some(entry.value);
    }

    method Set(key: K, value: V, ttlMs: real, now: real)
      requires Valid()
      modifies `entries, `evictions
      ensures Valid() && entries == AfterSet(old(entries), maxSize, key, value, ttlMs, now)
      ensures evictions == old(evictions) + if |old(entries).keys| >= maxSize && key !in old(entries).vals then 1 else 0
      ensures Live(entries, key, now) == if ttlMs > 0.0 then Some(value) else None
    {
      SetKeepsBound(entries, maxSize, key, value, ttlMs, now);
      if |entries.keys| >= maxSize && key !in entries.vals {
        entries := Remove(entries, entries.keys[0]);
        evictions := evictions + 1;
      }
      entries := Remove(entries, key);
      entries := Put(entries, key, Timed(now + ttlMs, value));
    }
  }
}
