/** The class of src/resolvers/index.resolver.ts; every method is a step of module Resolvers. */
module ResolverSets {
  import opened Sequences
  import F = ResolverFailures
  import K = CacheKeys
  import R = Resolvers
  import T = Ttl

  class ResolverSet {
    const config: map<string, R.Resolver>
    const cache: T.TtlCache<string, R.Additions>
    var inFlight: map<string, int>
    var active: map<int, R.Lookup>   // the promises the event loop still owes
    var answers: map<int, R.Answer>
    var nextLookup: int
    ghost var log: seq<R.Success>

    ghost function Model(): R.State
      reads this, cache
    {
      R.State(cache.entries, inFlight, active, nextLookup, answers, log)
    }

    ghost predicate Valid()
      reads this, cache
    {
      cache.Valid() && cache.maxSize == R.CACHE_CAP && R.Inv(config, Model())
    }

    constructor (config: map<string, R.Resolver>)
      ensures Valid() && fresh(cache) && this.config == config && Model() == R.Initial()
    {
      this.config := config;
      cache := new T.TtlCache(R.CACHE_CAP);
      inFlight, active, answers, nextLookup, log := map[], map[], map[], 0, [];
    }

    /** resolveAll up to its await. */
    method CollectLookups(context: seq<(string, K.Value)>, now: real) returns (collected: R.Collected)
      requires Valid()
      modifies this, cache
      ensures Valid()
      ensures (Model(), collected) == R.Collect(config, old(Model()), context, now, R.Collected(map[], []))
    {
      collected := R.Collected(map[], []);
      for i := 0 to |context|
        invariant Valid()
        invariant R.Collect(config, old(Model()), context, now, R.Collected(map[], []))
               == R.Collect(config, Model(), context[i..], now, collected)
      {
        assert context[i..][0] == context[i] && context[i..][1..] == context[i + 1..];
        var (key, value) := context[i];
        if key in config {
          var reply := AskOne(key, value, now);
          match reply
          case Warm(fields) => collected := collected.(additions := collected.additions + fields);
          case Joined(id) => collected := collected.(lookups := collected.lookups + [id]);
        }
      }
    }

    /** One context key with a resolver: a warm hit, or a lookup to wait for. */
    method AskOne(key: string, value: K.Value, now: real) returns (reply: R.Reply)
      requires Valid() && key in config
      modifies this, cache
      ensures Valid() && (Model(), reply) == R.Ask(old(Model()), key, value, now)
    {
      R.AskKeepsInv(config, Model(), key, value, now);
      var cacheKey := K.CacheKey(key, value);
      var warm := cache.Get(cacheKey, now);
      if warm.Some? { return R.Warm(warm.value); }
      reply := Dedupe(cacheKey, key, value);
    }

    method Dedupe(cacheKey: string, key: string, value: K.Value) returns (reply: R.Reply)
      modifies `inFlight, `active, `nextLookup
      ensures (Model(), reply) == R.Dedupe(old(Model()), cacheKey, key, value)
    {
      if cacheKey in inFlight {
        var id := inFlight[cacheKey];
        if id in active {
          active := active[id := active[id].(joiners := active[id].joiners + 1)];
        }
        return R.Joined(id);
      }
      var id := nextLookup;
      nextLookup := id + 1;
      active := active[id := R.Lookup(key, value, 1)];
      inFlight := inFlight[cacheKey := id];
      return R.Joined(id);
    }

    /** lookup after its await, and the `finally` that follows. */
    method ResumeLookup(id: int, outcome: R.Outcome, now: real)
      requires Valid() && id in active
      modifies this, cache
      ensures Valid() && Model() == R.Step(config, old(Model()), R.Settled(id, outcome, now))
    {
      R.StepKeepsInv(config, Model(), R.Settled(id, outcome, now));
      SettleLookup(id, outcome, now);
    }

    method SettleLookup(id: int, outcome: R.Outcome, now: real)
      requires cache.Valid() && cache.maxSize == R.CACHE_CAP && id in active && active[id].key in config
      modifies this, cache
      ensures cache.Valid() && Model() == R.Settle(old(Model()), config[old(active)[id].key], id, outcome, now)
    {
      var key := active[id].key;
      var cacheKey := K.CacheKey(key, active[id].value);
      var resolver := config[key];
      var fields := R.ToFields(resolver, outcome);
      if fields.Some? {
        cache.Set(cacheKey, fields.value, resolver.ttlMs, now);
        log := log + [R.Success(cacheKey, key, active[id].value, fields.value, now, resolver.ttlMs)];
      }
      answers := answers[id := R.AnswerOf(resolver, key, outcome)];
      inFlight := inFlight - {cacheKey};
      active := active - {id};
    }

    /** resolveAll after its await: merge what the awaited lookups answered, in order. */
    method MergeAnswers(additions: R.Additions, results: seq<R.Answer>) returns (merged: Option<R.Additions>)
      ensures merged == R.Merge(additions, results)
      ensures merged.None? <==> exists i :: 0 <= i < |results| && results[i].Failed?
    {
      F.MergeFailsIff(additions, results);
      var all := additions;
      for i := 0 to |results|
        invariant R.Merge(additions, results) == R.Merge(all, results[i..])
      {
        assert results[i..][0] == results[i] && results[i..][1..] == results[i + 1..];
        match results[i]
        case Failed => return None;
        case Absent =>
        case Fields(fields) => all := all + fields;
      }
      return Some(all);
    }
  }
}
