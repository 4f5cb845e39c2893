/** The bounded duplicate counter of src/brain/group.utils.ts. */
module GroupCounting {
  import opened Sequences
  import opened OrderedMap
  import L = Lru

  /** A group: how many entries it stands for, and what the caller keeps with it. */
  datatype Group<+P> = Group(count: int, payload: P)

  datatype Counters = Counters(absorbed: int, started: int, taken: int, drained: int, evicted: int)

  datatype Groups<!K(==), +P> = Groups(entries: Map<K, Group<P>>, counters: Counters)

  function Absorb<K(==,!new), P>(g: Groups<K, P>, k: K): Groups<K, P> {
    if k !in g.entries.vals then g
    else
      var group := g.entries.vals[k];
      Groups(Touch(g.entries, k, group.(count := group.count + 1)),
             g.counters.(absorbed := g.counters.absorbed + 1))
  }

  function Start<K(==,!new), P>(g: Groups<K, P>, maxSize: int, k: K, group: Group<P>): Groups<K, P> {
    var c := g.counters;
    Groups(L.AfterSet(g.entries, maxSize, k, group),
           c.(started := c.started + 1,
              evicted := c.evicted + if L.Victim(g.entries, maxSize, k).Some? then 1 else 0))
  }

  function Take<K(==,!new), P>(g: Groups<K, P>, k: K): Groups<K, P> {
    if k !in g.entries.vals then g
    else Groups(Remove(g.entries, k), g.counters.(taken := g.counters.taken + 1))
  }

  /** One round of the drain loop: key `k` of the snapshot is visited and removed. */
  function DrainOne<K(==,!new), P>(g: Groups<K, P>, k: K): Groups<K, P> {
    if k !in g.entries.vals then g.(entries := Remove(g.entries, k))
    else Groups(Remove(g.entries, k), g.counters.(drained := g.counters.drained + 1))
  }

  /** Every group ever started is live, or was taken, drained or evicted. */
  ghost predicate Balanced<K(!new), P>(g: Groups<K, P>) {
    var c := g.counters;
    Valid(g.entries) && c.started == |g.entries.keys| + c.taken + c.drained + c.evicted
  }

  lemma RemovalsKeepBalance<K(!new), P>(g: Groups<K, P>, k: K)
    requires Balanced(g)
    ensures Balanced(Take(g, k)) && Balanced(DrainOne(g, k)) && Balanced(Absorb(g, k))
  {
    RemoveValid(g.entries, k);
    if k in g.entries.vals {
      TouchValid(g.entries, k, Absorb(g, k).entries.vals[k]);
    }
  }

  /** `start` keeps the balance exactly on absent keys: a present one is overwritten, not counted out. */
  lemma StartBalancedIff<K(!new), P>(g: Groups<K, P>, maxSize: int, k: K, group: Group<P>)
    requires Balanced(g) && maxSize >= 1
    ensures Balanced(Start(g, maxSize, k, group)) <==> k !in g.entries.vals
  {
    var victim := L.Victim(g.entries, maxSize, k);
    if victim.Some? {
      assert g.entries.keys[0] in g.entries.keys;
      RemoveValid(g.entries, victim.value);
      TouchValid(Remove(g.entries, victim.value), k, group);
    } else {
      TouchValid(g.entries, k, group);
    }
  }

  /** Starting the same group twice: two were started, one is live, and none was taken, drained or evicted. */
  lemma StartingTwiceUnbalances<K(!new), P>(k: K, group: Group<P>)
    ensures var empty := Groups(Map([], map[]), Counters(0, 0, 0, 0, 0));
            var twice := Start(Start(empty, 8, k, group), 8, k, group);
            && Balanced(empty) && !Balanced(twice)
            && twice.counters == Counters(0, 2, 0, 0, 0) && twice.entries.vals.Keys == {k}
  {
    var empty: Groups<K, P> := Groups(Map([], map[]), Counters(0, 0, 0, 0, 0));
    StartBalancedIff(empty, 8, k, group);
    StartBalancedIff(Start(empty, 8, k, group), 8, k, group);
  }

  class GroupCounter<K(==,!new), P> {
    const groups: L.LruCache<K, Group<P>>
    var counters: Counters

    ghost function Model(): Groups<K, P>
      reads this, groups
    {
      Groups(groups.entries, counters)
    }

    ghost predicate Valid()
      reads this, groups
    {
      groups.Valid()
    }

    constructor (maxSize: int)
      ensures Valid() && fresh(groups) && groups.maxSize == Max(1, maxSize)
      ensures Model() == Groups(Map([], map[]), Counters(0, 0, 0, 0, 0))
    {
      groups := new L.LruCache(maxSize);
      counters := Counters(0, 0, 0, 0, 0);
    }

    method AbsorbKey(key: K) returns (absorbed: bool)
      requires Valid()
      modifies this, groups
      ensures Valid() && Model() == Absorb(old(Model()), key)
      ensures absorbed == (key in old(groups.entries).vals)
    {
      ghost var before := groups.entries;
      var group := groups.Get(key);
      if group.None? { return false; }
      counters := counters.(absorbed := counters.absorbed + 1);
      // The cache holds the same group object: bumping its count shows in the entry.
      var bumped := group.value.(count := group.value.count + 1);
      TouchOverwrite(before, key, group.value, bumped);
      TouchValid(before, key, bumped);
      groups.entries := Map(groups.entries.keys, groups.entries.vals[key := bumped]);
      return true;
    }

    /** `evicted` is the group the eviction callback receives. */
    method StartGroup(key: K, group: Group<P>) returns (evicted: Option<(K, Group<P>)>)
      requires Valid()
      modifies this, groups
      ensures Valid() && Model() == Start(old(Model()), groups.maxSize, key, group)
      ensures var victim := L.Victim(old(groups.entries), groups.maxSize, key);
              && (evicted.Some? <==> victim.Some?)
              && (victim.Some? ==> evicted.value.0 == victim.value && victim.value in old(groups.entries).vals
                                   && evicted.value.1 == old(groups.entries).vals[victim.value])
    {
      counters := counters.(started := counters.started + 1);
      evicted := groups.Set(key, group);
      if evicted.Some? {
        counters := counters.(evicted := counters.evicted + 1);
      }
    }

    method TakeGroup(key: K) returns (group: Option<Group<P>>)
      requires Valid()
      modifies this, groups
      ensures Valid() && Model() == Take(old(Model()), key)
      ensures group == if key in old(groups.entries).vals then Some(old(groups.entries).vals[key]) else None
    {
      group := groups.Peek(key);
      if group.Some? {
        counters := counters.(taken := counters.taken + 1);
        var _ := groups.Delete(key);
      }
    }

    /** The body of the drain loop for one snapshotted key; the caller visits `group`. */
    method DrainKey(key: K) returns (group: Option<Group<P>>)
      requires Valid()
      modifies this, groups
      ensures Valid() && Model() == DrainOne(old(Model()), key)
      ensures group == if key in old(groups.entries).vals then Some(old(groups.entries).vals[key]) else None
    {
      group := groups.Peek(key);
      var _ := groups.Delete(key);
      if group.Some? {
        counters := counters.(drained := counters.drained + 1);
      }
    }
  }
}
