/** The bounded LRU cache of src/brain/lru.utils.ts. */
module Lru {
  import opened Sequences
  import opened OrderedMap

  /** What `get` leaves: a hit moves to the most-recently-used end. */
  function AfterGet<K(==,!new), V>(m: Map<K, V>, k: K): Map<K, V> {
    if k in m.vals then Touch(m, k, m.vals[k]) else m
  }

  /** The key that `set` pushes out, if any. */
  function Victim<K(==,!new), V>(m: Map<K, V>, maxSize: int, k: K): Option<K> {
    if k !in m.vals && |m.keys| >= maxSize && |m.keys| > 0 then Some(m.keys[0]) else None
  }

  function AfterSet<K(==,!new), V>(m: Map<K, V>, maxSize: int, k: K, v: V): Map<K, V> {
    var victim := Victim(m, maxSize, k);
    Touch(if victim.Some? then Remove(m, victim.value) else m, k, v)
  }

  class LruCache<K(==,!new), V> {
    const maxSize: int
    var entries: Map<K, V>
    var hits: int
    var misses: int
    var sets: int
    var reuseSets: int
    var evictions: int

    ghost predicate Valid()
      reads this
    {
      maxSize >= 1 && OrderedMap.Valid(entries) && |entries.keys| <= maxSize
    }

    constructor (maxSize: int)
      ensures Valid() && entries == Map([], map[]) && this.maxSize == Max(1, maxSize)
      ensures hits == misses == sets == reuseSets == evictions == 0
    {
      this.maxSize := Max(1, maxSize);
      entries := Map([], map[]);
      hits, misses, sets, reuseSets, evictions := 0, 0, 0, 0, 0;
    }

    method Get(key: K) returns (value: Option<V>)
      requires Valid()
      modifies `entries, `hits, `misses
      ensures Valid() && entries == AfterGet(old(entries), key)
      ensures value == if key in old(entries).vals then Some(old(entries).vals[key]) else None
      ensures hits + misses == old(hits) + old(misses) + 1 && (hits > old(hits) <==> value.Some?)
    {
      if key !in entries.vals {
        misses := misses + 1;
        return None;
      }
      var v := entries.vals[key];
      TouchValid(entries, key, v);
      entries := Remove(entries, key);
      entries := Put(entries, key, v);
      hits := hits + 1;
      return Some(v);
    }

    /** The eviction callback is the caller's: `evicted` is what it is called with. */
    method Set(key: K, value: V) returns (evicted: Option<(K, V)>)
      requires Valid()
      modifies `entries, `sets, `reuseSets, `evictions
      ensures Valid() && entries == AfterSet(old(entries), maxSize, key, value)
      ensures var victim := Victim(old(entries), maxSize, key);
              && (evicted.Some? <==> victim.Some?)
              && (victim.Some? ==> evicted.value.0 == victim.value && victim.value in old(entries).vals
                                   && evicted.value.1 == old(entries).vals[victim.value])
      ensures sets == old(sets) + 1
      ensures reuseSets == old(reuseSets) + if key in old(entries).vals then 1 else 0
      ensures evictions == old(evictions) + if evicted.Some? then 1 else 0
    {
      evicted := None;
      sets := sets + 1;
      if key in entries.vals {
        reuseSets := reuseSets + 1;
        TouchValid(entries, key, value);
        entries := Remove(entries, key);
      } else if |entries.keys| >= maxSize {
        var oldest := entries.keys[0];
        assert oldest in entries.keys;
        evicted := Some((oldest, entries.vals[oldest]));
        RemoveValid(entries, oldest);
        entries := Remove(entries, oldest);
        evictions := evictions + 1;
        TouchValid(entries, key, value);
        assert Remove(entries, key) == entries;
      } else {
        TouchValid(entries, key, value);
        assert Remove(entries, key) == entries;
      }
      entries := Put(entries, key, value);
    }

    method Peek(key: K) returns (value: Option<V>)
      ensures value == if key in entries.vals then Some(entries.vals[key]) else None
    {
      value := if key in entries.vals then Some(entries.vals[key]) else None;
    }

    method Delete(key: K) returns (present: bool)
      requires Valid()
      modifies `entries
      ensures Valid() && entries == Remove(old(entries), key) && present == (key in old(entries).vals)
    {
      RemoveValid(entries, key);
      present := key in entries.vals;
      entries := Remove(entries, key);
    }
  }

  // ----- recency -----

  datatype Op<K, V> = Get(k: K) | Set(k: K, v: V)

  function Apply<K(==,!new), V>(m: Map<K, V>, maxSize: int, op: Op<K, V>): Map<K, V> {
    match op
    case Get(k) => AfterGet(m, k)
    case Set(k, v) => AfterSet(m, maxSize, k, v)
  }

  function Run<K(==,!new), V>(m: Map<K, V>, maxSize: int, ops: seq<Op<K, V>>): Map<K, V>
    decreases |ops|
  {
    if ops == [] then m else Run(Apply(m, maxSize, ops[0]), maxSize, ops[1..])
  }

  /** The keys an operation list uses: every set, and every get that hits. */
  function Touches<K(==,!new), V>(m: Map<K, V>, maxSize: int, ops: seq<Op<K, V>>): seq<K>
    decreases |ops|
  {
    if ops == [] then []
    else (if ops[0].Set? || ops[0].k in m.vals then [ops[0].k] else [])
         + Touches(Apply(m, maxSize, ops[0]), maxSize, ops[1..])
  }

  /** Position of the last use of `k`, -1 if it was never used. */
  function LastUse<K(==,!new)>(touched: seq<K>, k: K): int {
    if touched == [] then -1
    else if touched[|touched| - 1] == k then |touched| - 1
    else LastUse(touched[..|touched| - 1], k)
  }

  ghost predicate UsedInOrder<K(!new)>(keys: seq<K>, touched: seq<K>) {
    forall i, j :: 0 <= i < j < |keys| ==> LastUse(touched, keys[i]) < LastUse(touched, keys[j])
  }

  /**
   * `keys` are the `maxSize` most recently used distinct keys of `touched`, least recent
   * first: all were used, and a used key that is missing was used before all of them, which
   * only happens once the cache is full.
   */
  ghost predicate MostRecent<K(!new)>(keys: seq<K>, maxSize: int, touched: seq<K>) {
    && |keys| <= maxSize
    && UsedInOrder(keys, touched)
    && (forall i :: 0 <= i < |keys| ==> LastUse(touched, keys[i]) >= 0)
    && (forall k :: LastUse(touched, k) >= 0 && k !in keys ==>
          |keys| == maxSize && |keys| > 0 && LastUse(touched, k) < LastUse(touched, keys[0]))
  }

  lemma LastUseAppend<K(!new)>(touched: seq<K>, x: K)
    ensures forall k :: LastUse(touched + [x], k) == if k == x then |touched| else LastUse(touched, k)
  {
    assert (touched + [x])[..|touched|] == touched;
  }

  lemma {:induction false} LastUseBound<K(!new)>(touched: seq<K>, k: K)
    ensures -1 <= LastUse(touched, k) < |touched|
    decreases |touched|
  {
    if touched != [] {
      LastUseBound(touched[..|touched| - 1], k);
    }
  }

  lemma {:induction false} WithoutKeepsOrder<K(!new)>(keys: seq<K>, touched: seq<K>, x: K)
    requires UsedInOrder(keys, touched)
    ensures UsedInOrder(Without(keys, x), touched)
    ensures Without(keys, x) != [] && keys[0] != x ==> Without(keys, x)[0] == keys[0]
    decreases |keys|
  {
    if keys != [] {
      var tail := keys[1..];
      assert forall i :: 0 <= i < |tail| ==> tail[i] == keys[i + 1];
      WithoutKeepsOrder(tail, touched, x);
      WithoutMembers(tail, x);
      var rest := Without(tail, x);
      forall j | 0 <= j < |rest|
        ensures LastUse(touched, keys[0]) < LastUse(touched, rest[j])
      {
        assert rest[j] in rest;
        var i :| 0 <= i < |tail| && tail[i] == rest[j];
        assert keys[i + 1] == rest[j];
      }
    }
  }

  /** The keys that survive a use of `k`: a key that does not was used before all of them, and leaves no room. */
  ghost predicate Survive<K(!new)>(keys: seq<K>, kept: seq<K>, maxSize: int, touched: seq<K>, k: K) {
    && UsedInOrder(kept, touched) && |kept| < maxSize
    && (forall x :: x in kept ==> x in keys && x != k)
    && (forall x :: x in keys && x !in kept && x != k ==>
          |kept| == maxSize - 1 && (kept != [] ==> LastUse(touched, x) < LastUse(touched, kept[0])))
    && (|keys| == maxSize ==> |kept| == maxSize - 1)
  }

  lemma KeptWasUsed<K(!new)>(keys: seq<K>, kept: seq<K>, maxSize: int, touched: seq<K>, k: K, i: int)
    requires MostRecent(keys, maxSize, touched) && Survive(keys, kept, maxSize, touched, k) && 0 <= i < |kept|
    ensures kept[i] != k && 0 <= LastUse(touched, kept[i]) < |touched|
  {
    assert kept[i] in kept;
    var j :| 0 <= j < |keys| && keys[j] == kept[i];
    LastUseBound(touched, kept[i]);
  }

  lemma DisplacedIsOlder<K(!new)>(keys: seq<K>, kept: seq<K>, maxSize: int, touched: seq<K>, k: K, x: K)
    requires MostRecent(keys, maxSize, touched) && Survive(keys, kept, maxSize, touched, k)
    requires LastUse(touched, x) >= 0 && x != k && x !in kept
    ensures |kept| == maxSize - 1 && (kept != [] ==> LastUse(touched, x) < LastUse(touched, kept[0]))
  {
    if x !in keys && kept != [] {
      assert kept[0] in kept;
      var i :| 0 <= i < |keys| && keys[i] == kept[0];
    }
  }

  /** Keeping the order of the survivors, a use of `k` moves it to the recent end. */
  lemma UseIsMostRecent<K(!new)>(keys: seq<K>, kept: seq<K>, maxSize: int, touched: seq<K>, k: K)
    requires MostRecent(keys, maxSize, touched) && Survive(keys, kept, maxSize, touched, k)
    ensures MostRecent(kept + [k], maxSize, touched + [k])
  {
    var keys', touched' := kept + [k], touched + [k];
    LastUseAppend(touched, k);
    forall i | 0 <= i < |kept| ensures keys'[i] != k && 0 <= LastUse(touched', keys'[i]) < |touched| {
      KeptWasUsed(keys, kept, maxSize, touched, k, i);
    }
    forall x | LastUse(touched', x) >= 0 && x !in keys'
      ensures |keys'| == maxSize && LastUse(touched', x) < LastUse(touched', keys'[0])
    {
      assert x != k && x !in kept;
      DisplacedIsOlder(keys, kept, maxSize, touched, k, x);
      LastUseBound(touched, x);
      if kept != [] { KeptWasUsed(keys, kept, maxSize, touched, k, 0); }
    }
  }

  lemma TouchIsMostRecent<K(!new), V>(m: Map<K, V>, maxSize: int, touched: seq<K>, k: K, v: V)
    requires Valid(m) && maxSize >= 1 && MostRecent(m.keys, maxSize, touched)
    requires k in m.vals || |m.keys| < maxSize
    ensures MostRecent(Touch(m, k, v).keys, maxSize, touched + [k])
  {
    WithoutMembers(m.keys, k);
    WithoutDistinct(m.keys, k);
    WithoutKeepsOrder(m.keys, touched, k);
    TouchShape(m, k, v);
    UseIsMostRecent(m.keys, Without(m.keys, k), maxSize, touched, k);
  }

  lemma EvictIsMostRecent<K(!new), V>(m: Map<K, V>, maxSize: int, touched: seq<K>, k: K, v: V)
    requires Valid(m) && maxSize >= 1 && MostRecent(m.keys, maxSize, touched)
    requires k !in m.vals && |m.keys| == maxSize
    ensures MostRecent(Touch(Remove(m, m.keys[0]), k, v).keys, maxSize, touched + [k])
  {
    var oldest, kept := m.keys[0], m.keys[1..];
    assert k !in m.keys;
    assert Without(m.keys, oldest) == kept;
    assert Without(kept, k) == kept;
    TouchShape(Remove(m, oldest), k, v);
    assert forall i :: 0 <= i < |kept| ==> kept[i] == m.keys[i + 1];
    UseIsMostRecent(m.keys, kept, maxSize, touched, k);
  }

  lemma ApplyIsMostRecent<K(!new), V>(m: Map<K, V>, maxSize: int, touched: seq<K>, op: Op<K, V>)
    requires Valid(m) && maxSize >= 1 && MostRecent(m.keys, maxSize, touched)
    ensures Valid(Apply(m, maxSize, op))
    ensures MostRecent(Apply(m, maxSize, op).keys, maxSize,
                       touched + if op.Set? || op.k in m.vals then [op.k] else [])
  {
    var k := op.k;
    if op.Set? {
      if Victim(m, maxSize, k).Some? {
        assert m.keys[0] in m.keys;
        RemoveValid(m, m.keys[0]);
        TouchValid(Remove(m, m.keys[0]), k, op.v);
        EvictIsMostRecent(m, maxSize, touched, k, op.v);
      } else {
        TouchValid(m, k, op.v);
        TouchIsMostRecent(m, maxSize, touched, k, op.v);
      }
    } else if k in m.vals {
      TouchValid(m, k, m.vals[k]);
      TouchIsMostRecent(m, maxSize, touched, k, m.vals[k]);
    } else {
      assert touched + [] == touched;
    }
  }

  lemma {:induction false} RunIsMostRecent<K(!new), V>(m: Map<K, V>, maxSize: int, touched: seq<K>, ops: seq<Op<K, V>>)
    requires Valid(m) && maxSize >= 1 && MostRecent(m.keys, maxSize, touched)
    ensures Valid(Run(m, maxSize, ops))
    ensures MostRecent(Run(m, maxSize, ops).keys, maxSize, touched + Touches(m, maxSize, ops))
    decreases |ops|
  {
    if ops == [] {
      assert touched + [] == touched;
    } else {
      var used := if ops[0].Set? || ops[0].k in m.vals then [ops[0].k] else [];
      var m' := Apply(m, maxSize, ops[0]);
      var rest := Touches(m', maxSize, ops[1..]);
      assert Touches(m, maxSize, ops) == used + rest;
      ConcatAssociates(touched, used, rest);
      assert Run(m, maxSize, ops) == Run(m', maxSize, ops[1..]);
      ApplyIsMostRecent(m, maxSize, touched, ops[0]);
      RunIsMostRecent(m', maxSize, touched + used, ops[1..]);
    }
  }

  /** Without deletions the cache holds exactly the `maxSize` most recently used keys, in order of use. */
  lemma CacheHoldsMostRecent<K(!new), V>(maxSize: int, ops: seq<Op<K, V>>)
    requires maxSize >= 1
    ensures var empty: Map<K, V> := Map([], map[]);
            MostRecent(Run(empty, maxSize, ops).keys, maxSize, Touches(empty, maxSize, ops))
  {
    var empty: Map<K, V> := Map([], map[]);
    RunIsMostRecent(empty, maxSize, [], ops);
    assert [] + Touches(empty, maxSize, ops) == Touches(empty, maxSize, ops);
  }

  // ----- values -----

  /** The value most recently set for `k`, starting from what `m` holds. */
  function LastSet<K(==,!new), V>(m: Map<K, V>, ops: seq<Op<K, V>>, k: K): Option<V> {
    if ops == [] then (if k in m.vals then Some(m.vals[k]) else None)
    else if ops[|ops| - 1].Set? && ops[|ops| - 1].k == k then Some(ops[|ops| - 1].v)
    else LastSet(m, ops[..|ops| - 1], k)
  }

  lemma {:induction false} RunAppend<K(!new), V>(m: Map<K, V>, maxSize: int, ops: seq<Op<K, V>>, op: Op<K, V>)
    ensures Run(m, maxSize, ops + [op]) == Apply(Run(m, maxSize, ops), maxSize, op)
    decreases |ops|
  {
    if ops == [] {
      assert ops + [op] == [op];
      assert Run(Apply(m, maxSize, op), maxSize, []) == Apply(m, maxSize, op);
    } else {
      assert (ops + [op])[1..] == ops[1..] + [op];
      RunAppend(Apply(m, maxSize, ops[0]), maxSize, ops[1..], op);
    }
  }

  lemma RunLast<K(!new), V>(m: Map<K, V>, maxSize: int, ops: seq<Op<K, V>>)
    requires ops != []
    ensures Run(m, maxSize, ops) == Apply(Run(m, maxSize, ops[..|ops| - 1]), maxSize, ops[|ops| - 1])
  {
    InitAndLast(ops);
    RunAppend(m, maxSize, ops[..|ops| - 1], ops[|ops| - 1]);
  }

  lemma ApplyValue<K(!new), V>(m: Map<K, V>, maxSize: int, op: Op<K, V>, k: K)
    ensures var m' := Apply(m, maxSize, op);
            && (k in m'.vals ==> if op.Set? && op.k == k then m'.vals[k] == op.v
                                 else k in m.vals && m'.vals[k] == m.vals[k])
            && (op.Set? ==> op.k in m'.vals)
  {
    if op.Set? {
      TouchShape(m, op.k, op.v);
      if |m.keys| > 0 { TouchShape(Remove(m, m.keys[0]), op.k, op.v); }
    } else if op.k in m.vals {
      TouchShape(m, op.k, m.vals[op.k]);
    }
  }

  /** Whatever was evicted and bumped in between, a cached key holds the value last set for it. */
  lemma {:induction false} CacheHoldsLastSet<K(!new), V>(m: Map<K, V>, maxSize: int, ops: seq<Op<K, V>>, k: K)
    requires k in Run(m, maxSize, ops).vals
    ensures LastSet(m, ops, k) == Some(Run(m, maxSize, ops).vals[k])
    decreases |ops|
  {
    if ops != [] {
      var init, op := ops[..|ops| - 1], ops[|ops| - 1];
      RunLast(m, maxSize, ops);
      ApplyValue(Run(m, maxSize, init), maxSize, op, k);
      if !(op.Set? && op.k == k) { CacheHoldsLastSet(m, maxSize, init, k); }
    }
  }
}
