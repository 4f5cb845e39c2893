/**
 * Whose answer a request of src/resolvers/index.resolver.ts gets: that of its own key and
 * value exactly if no two configured keys can collide.
 */
module ResolverCollisions {
  import opened CacheKeys
  import opened Resolvers
  import T = Ttl

  /** The fields come from a lookup of this key and value that succeeded. */
  ghost predicate OwnFields(s: State, key: string, value: Value, fields: Additions) {
    exists i :: 0 <= i < |s.log| && s.log[i].key == key && s.log[i].value == value && s.log[i].fields == fields
  }

  /** The lookup to wait for is one of this key and value. */
  predicate OwnLookup(s: State, key: string, value: Value, id: int) {
    id in s.active && s.active[id].key == key && s.active[id].value == value
  }

  /** After `events`, a request for `key` and `value` is answered, or will be, by a lookup of that key and value. */
  ghost predicate OwnReply(config: map<string, Resolver>, events: seq<Event>, key: string, value: Value, now: real) {
    var (s, reply) := Ask(Run(config, Initial(), events), key, value, now);
    match reply
    case Warm(fields) => OwnFields(s, key, value, fields)
    case Joined(id) => OwnLookup(s, key, value, id)
  }

  ghost predicate RepliesAreOwn(config: map<string, Resolver>) {
    forall events, key, value, now :: key in config ==> OwnReply(config, events, key, value, now)
  }

  lemma JoinedIsOwn(config: map<string, Resolver>, s: State, key: string, value: Value, now: real)
    requires Unambiguous(config.Keys) && key in config && Inv(config, s)
    ensures var (s', reply) := Ask(s, key, value, now); reply.Joined? ==> OwnLookup(s', key, value, reply.lookup)
  {
    var ck := CacheKey(key, value);
    if ck in s.inFlight {
      var id := s.inFlight[ck];
      assert id in s.active && s.active[id].key in config.Keys && key in config.Keys;
      var l := s.active[id];
      assert CacheKey(l.key, l.value) == ck;
      CacheKeyInjective(key, value, l.key, l.value);
    }
  }

  /** One request is enough: while its lookup runs, one for the other key joins it, whatever the ttl. */
  lemma ImitatorJoinsForeignLookup(config: map<string, Resolver>, a: string, b: string) returns (v: Value, w: Value)
    requires a in config && b in config && (Imitates(a, b) || Imitates(b, a))
    ensures var (s, reply) := Ask(Run(config, Initial(), [Request(a, v, 0.0)]), b, w, 0.0);
            reply == Joined(0) && 0 in s.active && s.active[0].key == a != b
  {
    if Imitates(a, b) { v, w := ImitatorCollides(a, b); } else { w, v := ImitatorCollides(b, a); }
    var s1 := Step(config, Initial(), Request(a, v, 0.0));
    assert [Request(a, v, 0.0)][1..] == [];
    assert Run(config, Initial(), [Request(a, v, 0.0)]) == s1;
    assert s1.active[0].key == a && s1.inFlight[CacheKey(b, w)] == 0;
  }

  /** Requests are answered by lookups of their own key and value exactly if no configured key imitates another. */
  lemma RepliesAreOwnIff(config: map<string, Resolver>)
    ensures RepliesAreOwn(config) <==> Unambiguous(config.Keys)
  {
    if Unambiguous(config.Keys) {
      forall events, key, value, now | key in config ensures OwnReply(config, events, key, value, now) {
        RunKeepsInv(config, Initial(), events);
        WarmHitIsFresh(config, events, key, value, now);
        JoinedIsOwn(config, Run(config, Initial(), events), key, value, now);
      }
    } else {
      var a, b :| a in config && b in config && Imitates(a, b);
      var v, w := ImitatorJoinsForeignLookup(config, a, b);
      assert !OwnReply(config, [Request(a, v, 0.0)], b, w, 0.0);
    }
  }

  // ----- warm answers under a clock that does not run backwards -----

  ghost predicate NotAfter(events: seq<Event>, now: real) {
    forall i :: 0 <= i < |events| ==> events[i].now <= now
  }

  /** Of two keys that can collide neither keeps its answers at all. */
  ghost predicate NothingLasts(config: map<string, Resolver>) {
    forall a, b :: a in config && b in config && Imitates(a, b) ==> config[a].ttlMs <= 0.0 && config[b].ttlMs <= 0.0
  }

  ghost predicate OwnWarmth(config: map<string, Resolver>, events: seq<Event>, key: string, value: Value, now: real) {
    var (s, reply) := Ask(Run(config, Initial(), events), key, value, now);
    reply.Warm? ==> OwnFields(s, key, value, reply.fields)
  }

  ghost predicate WarmHitsAreOwn(config: map<string, Resolver>) {
    forall events, key, value, now :: key in config && NotAfter(events, now) ==>
      OwnWarmth(config, events, key, value, now)
  }

  ghost predicate LoggedBefore(s: State, now: real) {
    forall i :: 0 <= i < |s.log| ==> s.log[i].at <= now
  }

  lemma StepLogsNow(config: map<string, Resolver>, s: State, e: Event, now: real)
    requires LoggedBefore(s, now) && e.now <= now
    ensures LoggedBefore(Step(config, s, e), now)
  {
  }

  /** Nothing is stored later than the last event. */
  lemma {:induction false} StoredBefore(config: map<string, Resolver>, s: State, events: seq<Event>, now: real)
    requires NotAfter(events, now) && LoggedBefore(s, now)
    ensures LoggedBefore(Run(config, s, events), now)
    decreases |events|
  {
    if events != [] {
      StepLogsNow(config, s, events[0], now);
      forall i | 0 <= i < |events[1..]| ensures events[1..][i].now <= now {
        assert events[1..][i] == events[i + 1];
      }
      StoredBefore(config, Step(config, s, events[0]), events[1..], now);
    }
  }

  lemma WarmIsOwn(config: map<string, Resolver>, s: State, key: string, value: Value, now: real)
    requires NothingLasts(config) && key in config && Inv(config, s)
    requires LoggedBefore(s, now)
    ensures var (s', reply) := Ask(s, key, value, now); reply.Warm? ==> OwnFields(s', key, value, reply.fields)
  {
    var ck := CacheKey(key, value);
    if T.Live(s.cache, ck, now).Some? {
      assert Stored(s.log, ck, s.cache.vals[ck]);
      var i :| 0 <= i < |s.log| && s.log[i].cacheKey == ck && s.log[i].fields == s.cache.vals[ck].value
               && s.cache.vals[ck].expiresAt == s.log[i].at + s.log[i].ttlMs;
      assert s.log[i].ttlMs > 0.0;
      CacheKeyInjective(key, value, s.log[i].key, s.log[i].value);
    }
  }

  lemma RunTwo(config: map<string, Resolver>, s: State, first: Event, second: Event)
    ensures Run(config, s, [first, second]) == Step(config, Step(config, s, first), second)
  {
    var s1 := Step(config, s, first);
    assert [first, second][1..] == [second] && [second][1..] == [];
    assert Run(config, s, [first, second]) == Run(config, s1, [second]);
    assert Run(config, s1, [second]) == Run(config, Step(config, s1, second), []);
  }

  /** A lookup that succeeds is logged, and its fields are stored until their time has passed. */
  lemma SuccessIsStored(config: map<string, Resolver>, s: State, id: int, fields: Additions, at: real)
    requires Inv(config, s) && id in s.active && s.active[id].key in config
    ensures var l := s.active[id];
            var ck, ttl := CacheKey(l.key, l.value), config[l.key].ttlMs;
            var s' := Step(config, s, Settled(id, Object(fields), at));
            && s'.log == s.log + [Success(ck, l.key, l.value, fields, at, ttl)]
            && ck in s'.cache.vals && s'.cache.vals[ck] == T.Timed(at + ttl, fields)
  {
    var l := s.active[id];
    T.SetKeepsBound(s.cache, CACHE_CAP, CacheKey(l.key, l.value), fields, config[l.key].ttlMs, at);
  }

  /** While the answer for one of two keys that can collide is kept, the other is answered with its fields. */
  lemma ImitatorGetsForeignFields(
    config: map<string, Resolver>, a: string, b: string, fields: Additions, at: real)
    returns (v: Value, w: Value)
    requires a in config && b in config && (Imitates(a, b) || Imitates(b, a)) && at + config[a].ttlMs > 0.0
    ensures var s := Run(config, Initial(), [Request(a, v, 0.0), Settled(0, Object(fields), at)]);
            Ask(s, b, w, 0.0).1 == Warm(fields) && |s.log| == 1 && s.log[0].key == a != b
  {
    if Imitates(a, b) { v, w := ImitatorCollides(a, b); } else { w, v := ImitatorCollides(b, a); }
    var request, settled := Request(a, v, 0.0), Settled(0, Object(fields), at);
    var s1 := Step(config, Initial(), request);
    StepKeepsInv(config, Initial(), request);
    RunTwo(config, Initial(), request, settled);
    assert s1.log == [] && s1.active[0] == Lookup(a, v, 1);
    SuccessIsStored(config, s1, 0, fields, at);
  }

  lemma ForeignWarmth(config: map<string, Resolver>, a: string, b: string)
    requires a in config && b in config && (Imitates(a, b) || Imitates(b, a)) && config[a].ttlMs > 0.0
    ensures !WarmHitsAreOwn(config)
  {
    var v, w := ImitatorGetsForeignFields(config, a, b, map[], 0.0);
    var events := [Request(a, v, 0.0), Settled(0, Object(map[]), 0.0)];
    assert NotAfter(events, 0.0) && !OwnWarmth(config, events, b, w, 0.0);
  }

  /**
   * Warm answers alone are the request's own exactly if no two keys that can collide have a positive ttl among
   * them.
   */
  lemma WarmHitsAreOwnIff(config: map<string, Resolver>)
    ensures WarmHitsAreOwn(config) <==> NothingLasts(config)
  {
    if NothingLasts(config) {
      forall events, key, value, now | key in config && NotAfter(events, now)
        ensures OwnWarmth(config, events, key, value, now)
      {
        RunKeepsInv(config, Initial(), events);
        StoredBefore(config, Initial(), events, now);
        WarmIsOwn(config, Run(config, Initial(), events), key, value, now);
      }
    } else {
      var a, b :| a in config && b in config && Imitates(a, b) && (config[a].ttlMs > 0.0 || config[b].ttlMs > 0.0);
      if config[a].ttlMs > 0.0 { ForeignWarmth(config, a, b); } else { ForeignWarmth(config, b, a); }
    }
  }

  /** Under a clock that may run backwards even an answer without a lifetime can come back to life. */
  lemma WarmHitsAtAnyTimeIff(config: map<string, Resolver>)
    ensures (forall events, key, value, now :: key in config ==> OwnWarmth(config, events, key, value, now))
            <==> Unambiguous(config.Keys)
  {
    if Unambiguous(config.Keys) {
      forall events, key, value, now | key in config ensures OwnWarmth(config, events, key, value, now) {
        WarmHitIsFresh(config, events, key, value, now);
      }
    } else {
      var a, b :| a in config && b in config && Imitates(a, b);
      var at := if config[a].ttlMs > 0.0 then 0.0 else 1.0 - config[a].ttlMs;
      var v, w := ImitatorGetsForeignFields(config, a, b, map[], at);
      assert !OwnWarmth(config, [Request(a, v, 0.0), Settled(0, Object(map[]), at)], b, w, 0.0);
    }
  }
}
