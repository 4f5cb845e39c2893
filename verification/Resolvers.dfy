/**
 * Enrichment lookups of src/resolvers/index.resolver.ts as a step machine: a TTL cache
 * plus lookups in flight, shared by everyone who asks for the same key and value.
 * A lookup is cut at its one await; `active` holds the lookups that have not settled.
 */
module Resolvers {
  import opened Sequences
  import opened OrderedMap
  import opened CacheKeys
  import T = Ttl

  type Additions = map<string, string>

  datatype Resolver = Resolver(target: Option<string>, markErrors: bool, markTimeouts: bool, ttlMs: real)

  /** How timedResolve ends. `Threw` is a resolver that throws before it returns a promise. */
  datatype Outcome =
    | Timeout
    | Rejected
    | Threw
    | Nothing                       // null or undefined
    | Object(fields: Additions)
    | Single(text: string)          // a scalar result

  /** What everyone awaiting a lookup receives. */
  datatype Answer = Absent | Fields(fields: Additions) | Failed

  const ERROR_MARKER := "[RESOLVER ERROR]"

  datatype Lookup = Lookup(key: string, value: Value, joiners: nat)

  /** A successful lookup, as it was stored. */
  datatype Success = Success(cacheKey: string, key: string, value: Value, fields: Additions, at: real, ttlMs: real)

  datatype State = State(
    cache: Map<string, T.Timed<Additions>>,
    inFlight: map<string, int>,     // cache key -> lookup
    active: map<int, Lookup>,       // lookups that have not settled
    nextLookup: int,
    answers: map<int, Answer>,      // lookups that have
    log: seq<Success>)              // history: successful lookups

  datatype Reply = Warm(fields: Additions) | Joined(lookup: int)

  const CACHE_CAP := 8192

  function Initial(): State { State(Map([], map[]), map[], map[], 0, map[], []) }

  /** One context key of resolveAll: a warm hit, or the lookup to wait for. */
  function Ask(s: State, key: string, value: Value, now: real): (State, Reply) {
    var ck := CacheKey(key, value);
    var warm := T.Live(s.cache, ck, now);
    var s' := s.(cache := T.AfterGet(s.cache, ck, now));
    if warm.Some? then (s', Warm(warm.value)) else Dedupe(s', ck, key, value)
  }

  /** Join the lookup that runs under this cache key; without one, a new lookup begins. */
  function Dedupe(s: State, ck: string, key: string, value: Value): (State, Reply) {
    if ck in s.inFlight then
      var id := s.inFlight[ck];
      if id !in s.active then (s, Joined(id))
      else
        var joined := s.active[id].(joiners := s.active[id].joiners + 1);
        (s.(active := s.active[id := joined]), Joined(id))
    else
      var id := s.nextLookup;
      var started := Lookup(key, value, 1);
      (s.(inFlight := s.inFlight[ck := id], active := s.active[id := started], nextLookup := id + 1), Joined(id))
  }

  function ToFields(r: Resolver, o: Outcome): Option<Additions> {
    match o
    case Object(fields) => Some(fields)
    case Single(text) => if r.target.None? then None else Some(map[r.target.value := text])
    case _ => None
  }

  function AnswerOf(r: Resolver, key: string, o: Outcome): Answer {
    match o
    case Threw => Failed
    case Timeout => if r.markTimeouts then Fields(map[key := ERROR_MARKER]) else Absent
    case Rejected => if r.markErrors then Fields(map[key := ERROR_MARKER]) else Absent
    case _ => var fields := ToFields(r, o); if fields.Some? then Fields(fields.value) else Absent
  }

  /** The rest of lookup after its await: store a success, leave inFlight, answer everyone. */
  function Settle(s: State, r: Resolver, id: int, o: Outcome, now: real): State
    requires id in s.active
  {
    var l := s.active[id];
    var ck := CacheKey(l.key, l.value);
    var fields := ToFields(r, o);
    var s' := if fields.Some? then
      s.(cache := T.AfterSet(s.cache, CACHE_CAP, ck, fields.value, r.ttlMs, now),
         log := s.log + [Success(ck, l.key, l.value, fields.value, now, r.ttlMs)]) else s;
    s'.(inFlight := s.inFlight - {ck}, active := s.active - {id}, answers := s.answers[id := AnswerOf(r, l.key, o)])
  }

  // ----- resolveAll -----

  /** What resolveAll has collected when it reaches its await: warm additions, and the lookups to wait for. */
  datatype Collected = Collected(additions: Additions, lookups: seq<int>)

  function Collect(
    config: map<string, Resolver>, s: State, context: seq<(string, Value)>, now: real, c: Collected): (State, Collected)
    decreases |context|
  {
    if context == [] then (s, c)
    else
      var (key, value) := context[0];
      if key !in config then Collect(config, s, context[1..], now, c)
      else
        var (s', reply) := Ask(s, key, value, now);
        var c' := match reply
          case Warm(fields) => c.(additions := c.additions + fields)
          case Joined(id) => c.(lookups := c.lookups + [id]);
        Collect(config, s', context[1..], now, c')
  }

  /** Later answers win; one failed lookup fails the call. */
  function Merge(additions: Additions, answers: seq<Answer>): Option<Additions>
    decreases |answers|
  {
    if answers == [] then Some(additions)
    else if answers[0].Failed? then None
    else Merge(if answers[0].Fields? then additions + answers[0].fields else additions, answers[1..])
  }

  /** The requests resolveAll makes are requests like any other, in context order. */
  function Requests(context: seq<(string, Value)>, now: real): seq<Event> {
    if context == [] then [] else [Request(context[0].0, context[0].1, now)] + Requests(context[1..], now)
  }

  lemma {:induction false} CollectIsRun(
    config: map<string, Resolver>, s: State, context: seq<(string, Value)>, now: real, c: Collected)
    ensures Collect(config, s, context, now, c).0 == Run(config, s, Requests(context, now))
    decreases |context|
  {
    if context != [] {
      var (key, value) := context[0];
      assert Requests(context, now)[1..] == Requests(context[1..], now);
      if key !in config {
        CollectIsRun(config, s, context[1..], now, c);
      } else {
        var (s', reply) := Ask(s, key, value, now);
        var c' := match reply
          case Warm(fields) => c.(additions := c.additions + fields)
          case Joined(id) => c.(lookups := c.lookups + [id]);
        CollectIsRun(config, s', context[1..], now, c');
      }
    }
  }

  datatype Event = Request(key: string, value: Value, now: real) | Settled(lookup: int, outcome: Outcome, now: real)

  /** `config` is the resolver of each configured key. */
  function Step(config: map<string, Resolver>, s: State, e: Event): State {
    match e
    case Request(key, value, now) => if key in config then Ask(s, key, value, now).0 else s
    case Settled(id, o, now) =>
      if id in s.active && s.active[id].key in config then Settle(s, config[s.active[id].key], id, o, now) else s
  }

  function Run(config: map<string, Resolver>, s: State, events: seq<Event>): State
    decreases |events|
  {
    if events == [] then s else Run(config, Step(config, s, events[0]), events[1..])
  }

  // ----- invariants over every interleaving -----

  /** In-flight keys and unsettled lookups correspond one to one. */
  ghost predicate OneLookupPerKey(s: State) {
    && (forall ck :: ck in s.inFlight ==>
          s.inFlight[ck] in s.active && CacheKey(s.active[s.inFlight[ck]].key, s.active[s.inFlight[ck]].value) == ck)
    && (forall id :: id in s.active ==>
          var ck := CacheKey(s.active[id].key, s.active[id].value); ck in s.inFlight && s.inFlight[ck] == id)
    && (forall id :: id in s.active || id in s.answers ==> id < s.nextLookup)
    && (forall id :: id in s.active ==> id !in s.answers)
  }

  ghost predicate Stored(log: seq<Success>, ck: string, entry: T.Timed<Additions>) {
    exists i :: 0 <= i < |log| && log[i].cacheKey == ck && log[i].fields == entry.value
                && entry.expiresAt == log[i].at + log[i].ttlMs
  }

  /** Everything cached is the result of a successful lookup that was logged under its key and value. */
  ghost predicate Provenance(config: map<string, Resolver>, s: State) {
    && T.Bounded(s.cache, CACHE_CAP)
    && (forall ck :: ck in s.cache.vals ==> Stored(s.log, ck, s.cache.vals[ck]))
    && (forall i :: 0 <= i < |s.log| ==> s.log[i].cacheKey == CacheKey(s.log[i].key, s.log[i].value)
                                         && s.log[i].key in config && s.log[i].ttlMs == config[s.log[i].key].ttlMs)
    && (forall id :: id in s.active ==> s.active[id].key in config)
  }

  ghost predicate Inv(config: map<string, Resolver>, s: State) {
    OneLookupPerKey(s) && Provenance(config, s)
  }

  lemma DedupeKeepsInv(config: map<string, Resolver>, s: State, ck: string, key: string, value: Value)
    requires Inv(config, s) && key in config && ck == CacheKey(key, value)
    ensures Inv(config, Dedupe(s, ck, key, value).0)
  {
    if ck in s.inFlight {
      var id := s.inFlight[ck];
      var joined := s.active[id].(joiners := s.active[id].joiners + 1);
      assert CacheKey(joined.key, joined.value) == ck;
    } else {
      var started := Lookup(key, value, 1);
      assert CacheKey(started.key, started.value) == ck;
    }
  }

  lemma AskKeepsInv(config: map<string, Resolver>, s: State, key: string, value: Value, now: real)
    requires Inv(config, s) && key in config
    ensures Inv(config, Ask(s, key, value, now).0)
  {
    var ck := CacheKey(key, value);
    T.GetKeepsBound(s.cache, CACHE_CAP, ck, now);
    var s' := s.(cache := T.AfterGet(s.cache, ck, now));
    assert Inv(config, s');
    DedupeKeepsInv(config, s', ck, key, value);
  }

  lemma StoredGrows(log: seq<Success>, x: Success, ck: string, entry: T.Timed<Additions>)
    requires Stored(log, ck, entry)
    ensures Stored(log + [x], ck, entry)
  {
    var i :| 0 <= i < |log| && log[i].cacheKey == ck && log[i].fields == entry.value
             && entry.expiresAt == log[i].at + log[i].ttlMs;
    assert (log + [x])[i] == log[i];
  }

  lemma SettleKeepsProvenance(config: map<string, Resolver>, s: State, id: int, o: Outcome, now: real)
    requires Inv(config, s) && id in s.active && s.active[id].key in config
    ensures Provenance(config, Settle(s, config[s.active[id].key], id, o, now))
  {
    var l, r := s.active[id], config[s.active[id].key];
    var ck, fields := CacheKey(l.key, l.value), ToFields(r, o);
    if fields.Some? {
      var success := Success(ck, l.key, l.value, fields.value, now, r.ttlMs);
      var s' := Settle(s, r, id, o, now);
      T.SetKeepsBound(s.cache, CACHE_CAP, ck, fields.value, r.ttlMs, now);
      assert s'.log[|s.log|] == success;
      forall k | k in s'.cache.vals ensures Stored(s'.log, k, s'.cache.vals[k]) {
        if k != ck { StoredGrows(s.log, success, k, s.cache.vals[k]); }
      }
    }
  }

  lemma SettleKeepsInv(config: map<string, Resolver>, s: State, id: int, o: Outcome, now: real)
    requires Inv(config, s) && id in s.active && s.active[id].key in config
    ensures Inv(config, Settle(s, config[s.active[id].key], id, o, now))
  {
    SettleKeepsProvenance(config, s, id, o, now);
  }

  lemma StepKeepsInv(config: map<string, Resolver>, s: State, e: Event)
    requires Inv(config, s)
    ensures Inv(config, Step(config, s, e))
  {
    match e
    case Request(key, value, now) => if key in config { AskKeepsInv(config, s, key, value, now); }
    case Settled(id, o, now) => if id in s.active { SettleKeepsInv(config, s, id, o, now); }
  }

  lemma {:induction false} RunKeepsInv(config: map<string, Resolver>, s: State, events: seq<Event>)
    requires Inv(config, s)
    ensures Inv(config, Run(config, s, events))
    decreases |events|
  {
    if events != [] {
      StepKeepsInv(config, s, events[0]);
      RunKeepsInv(config, Step(config, s, events[0]), events[1..]);
    }
  }

  // ----- results -----

  /** Over any interleaving there is at most one unsettled lookup per key and value. */
  lemma AtMostOneLookupPerKey(config: map<string, Resolver>, events: seq<Event>, id: int, id': int)
    ensures var s := Run(config, Initial(), events);
            id in s.active && id' in s.active ==>
              (id == id' <==> s.active[id].key == s.active[id'].key && s.active[id].value == s.active[id'].value)
  {
    RunKeepsInv(config, Initial(), events);
  }

  /**
   * A settling lookup leaves `inFlight`, alone of all keys, and fixes the one answer all its
   * joiners receive. What a success answers is what the cache then holds for its ttl;
   * timeouts, rejections and throws are never cached.
   */
  lemma SettlingIsExact(config: map<string, Resolver>, s: State, id: int, o: Outcome, now: real)
    requires Inv(config, s) && id in s.active
    ensures var s' := Step(config, s, Settled(id, o, now));
            var ck := CacheKey(s.active[id].key, s.active[id].value);
            && (forall k :: k in s'.inFlight <==> k in s.inFlight && k != ck)
            && s'.active == s.active - {id}
            && id in s'.answers && s'.answers == s.answers[id := s'.answers[id]]
            && (o.Timeout? || o.Rejected? || o.Threw? ==> s'.cache == s.cache && s'.log == s.log)
            && (o.Object? && config[s.active[id].key].ttlMs > 0.0 ==>
                  s'.answers[id] == Fields(o.fields) && T.Live(s'.cache, ck, now) == Some(o.fields))
  {
    if o.Object? {
      var l := s.active[id];
      T.SetKeepsBound(s.cache, CACHE_CAP, CacheKey(l.key, l.value), o.fields, config[l.key].ttlMs, now);
    }
  }

  /** An answer, once given, never changes. */
  lemma {:induction false} AnswersAreFinal(config: map<string, Resolver>, s: State, events: seq<Event>, id: int)
    requires Inv(config, s) && id in s.answers
    ensures var s' := Run(config, s, events); id in s'.answers && s'.answers[id] == s.answers[id]
    decreases |events|
  {
    if events != [] {
      StepKeepsInv(config, s, events[0]);
      AnswersAreFinal(config, Step(config, s, events[0]), events[1..], id);
    }
  }

  /** Asking again while a lookup is in flight joins it; nothing is started. */
  lemma SecondAskJoins(s: State, key: string, value: Value, now: real)
    requires OneLookupPerKey(s) && CacheKey(key, value) in s.inFlight
    requires T.Live(s.cache, CacheKey(key, value), now).None?
    ensures var (s', reply) := Ask(s, key, value, now);
            && reply == Joined(s.inFlight[CacheKey(key, value)])
            && s'.nextLookup == s.nextLookup && s'.inFlight == s.inFlight
  {
  }

  /**
   * A warm hit returns the fields of a lookup that succeeded for this very key and value
   * less than its resolver's ttl ago.
   */
  lemma WarmHitIsFresh(config: map<string, Resolver>, events: seq<Event>, key: string, value: Value, now: real)
    requires Unambiguous(config.Keys) && key in config
    ensures var s := Run(config, Initial(), events);
            var reply := Ask(s, key, value, now).1;
            reply.Warm? ==>
              exists i :: 0 <= i < |s.log| && s.log[i].key == key && s.log[i].value == value
                          && s.log[i].fields == reply.fields && now < s.log[i].at + s.log[i].ttlMs
  {
    RunKeepsInv(config, Initial(), events);
    CachedIsFresh(config, Run(config, Initial(), events), key, value, now);
  }

  lemma CachedIsFresh(config: map<string, Resolver>, s: State, key: string, value: Value, now: real)
    requires Unambiguous(config.Keys) && key in config && Provenance(config, s)
    ensures var live := T.Live(s.cache, CacheKey(key, value), now);
            live.Some? ==>
              exists i :: 0 <= i < |s.log| && s.log[i].key == key && s.log[i].value == value
                          && s.log[i].fields == live.value && now < s.log[i].at + s.log[i].ttlMs
  {
    var ck := CacheKey(key, value);
    if T.Live(s.cache, ck, now).Some? {
      assert Stored(s.log, ck, s.cache.vals[ck]);
      var i :| 0 <= i < |s.log| && s.log[i].cacheKey == ck && s.log[i].fields == s.cache.vals[ck].value
               && s.cache.vals[ck].expiresAt == s.log[i].at + s.log[i].ttlMs;
      CacheKeyInjective(key, value, s.log[i].key, s.log[i].value);
    }
  }
}
