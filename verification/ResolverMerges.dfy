/** What resolveAll of src/resolvers/index.resolver.ts adds to a context, field by field. */
module ResolverMerges {
  import opened Sequences
  import opened OrderedMap
  import opened CacheKeys
  import opened Resolvers
  import F = ResolverFailures
  import T = Ttl

  // ----- one lookup -----

  /** The fields an outcome stands for; a scalar needs a name to go under, failures only count if they are marked. */
  predicate Answers(r: Resolver, key: string, o: Outcome, a: Answer) {
    match o
    case Threw => a == Failed
    case Nothing => a == Absent
    case Object(fields) => a == Fields(fields)
    case Single(text) => a == if r.target.Some? then Fields(map[r.target.value := text]) else Absent
    case Timeout => a == if r.markTimeouts then Fields(map[key := "[RESOLVER ERROR]"]) else Absent
    case Rejected => a == if r.markErrors then Fields(map[key := "[RESOLVER ERROR]"]) else Absent
  }

  /** An outcome is answered with its fields; those of a success, and no others, are stored for the lifetime. */
  lemma OutcomeIsAnswered(config: map<string, Resolver>, s: State, id: int, o: Outcome, now: real)
    requires Inv(config, s) && id in s.active
    ensures var s', l := Step(config, s, Settled(id, o, now)), s.active[id];
            var r, ck := config[l.key], CacheKey(l.key, l.value);
            && id in s'.answers && Answers(r, l.key, o, s'.answers[id])
            && if s'.answers[id].Fields? && !o.Timeout? && !o.Rejected? then
                 && ck in s'.cache.vals && s'.cache.vals[ck] == T.Timed(now + r.ttlMs, s'.answers[id].fields)
                 && s'.log == s.log + [Success(ck, l.key, l.value, s'.answers[id].fields, now, r.ttlMs)]
               else s'.cache == s.cache && s'.log == s.log
  {
    var l := s.active[id];
    var fields := ToFields(config[l.key], o);
    if fields.Some? {
      T.SetKeepsBound(s.cache, CACHE_CAP, CacheKey(l.key, l.value), fields.value, config[l.key].ttlMs, now);
    }
  }

  /** A request that finds neither a live answer nor a running lookup starts exactly one. */
  lemma FirstAskStarts(config: map<string, Resolver>, s: State, key: string, value: Value, now: real)
    requires Inv(config, s) && CacheKey(key, value) !in s.inFlight
    requires T.Live(s.cache, CacheKey(key, value), now).None?
    ensures var (s', reply) := Ask(s, key, value, now);
            && reply.Joined? && reply.lookup !in s.active && reply.lookup !in s.answers
            && s'.active == s.active[reply.lookup := Lookup(key, value, 1)]
            && s'.inFlight == s.inFlight[CacheKey(key, value) := reply.lookup]
            && s'.answers == s.answers && s'.log == s.log
  {
  }

  /** A live answer is given at once; nothing is started and no answer changes. */
  lemma WarmAskStartsNothing(s: State, key: string, value: Value, now: real)
    requires T.Live(s.cache, CacheKey(key, value), now).Some?
    ensures var (s', reply) := Ask(s, key, value, now);
            && reply == Warm(T.Live(s.cache, CacheKey(key, value), now).value)
            && s'.cache.vals == s.cache.vals
            && s'.active == s.active && s'.inFlight == s.inFlight && s'.answers == s.answers && s'.log == s.log
  {
    TouchShape(s.cache, CacheKey(key, value), s.cache.vals[CacheKey(key, value)]);
  }

  /** The cache holds at most 8192 answers, and a new one displaces another only when it is full. */
  lemma CacheIsBounded(config: map<string, Resolver>, events: seq<Event>, e: Event)
    ensures var s := Run(config, Initial(), events);
            && |s.cache.keys| <= 8192
            && (e.Settled? && |s.cache.keys| < 8192 ==>
                  forall k :: k in s.cache.vals ==> k in Step(config, s, e).cache.vals)
  {
    var s := Run(config, Initial(), events);
    RunKeepsInv(config, Initial(), events);
    if e.Settled? && e.lookup in s.active && |s.cache.keys| < 8192 {
      var l := s.active[e.lookup];
      var fields := ToFields(config[l.key], e.outcome);
      if fields.Some? {
        TouchShape(s.cache, CacheKey(l.key, l.value), T.Timed(e.now + config[l.key].ttlMs, fields.value));
      }
    }
  }

  // ----- what a call collects -----

  /** The reply to each pair that has a resolver, asked in order. */
  function Replies(config: map<string, Resolver>, s: State, context: seq<(string, Value)>, now: real): seq<Reply>
    decreases |context|
  {
    if context == [] then []
    else if context[0].0 !in config then Replies(config, s, context[1..], now)
    else
      var (s', reply) := Ask(s, context[0].0, context[0].1, now);
      [reply] + Replies(config, s', context[1..], now)
  }

  function Configured(config: map<string, Resolver>, context: seq<(string, Value)>): nat {
    if context == [] then 0 else (if context[0].0 in config then 1 else 0) + Configured(config, context[1..])
  }

  /** The state once the first pair has been asked. */
  function AfterFirst(config: map<string, Resolver>, s: State, context: seq<(string, Value)>, now: real): State
    requires context != []
  {
    if context[0].0 in config then Ask(s, context[0].0, context[0].1, now).0 else s
  }

  /** The requests before pair `i` begin with that of the first pair. */
  lemma PrefixShrinks(
    config: map<string, Resolver>, s: State, context: seq<(string, Value)>, now: real, i: nat)
    requires 0 < i < |context|
    ensures Configured(config, context[..i])
            == (if context[0].0 in config then 1 else 0) + Configured(config, context[1..][..i - 1])
    ensures Run(config, s, Requests(context[..i], now))
            == Run(config, AfterFirst(config, s, context, now), Requests(context[1..][..i - 1], now))
    ensures context[1..][i - 1] == context[i]
  {
    assert context[..i][0] == context[0] && context[..i][1..] == context[1..][..i - 1];
    assert Requests(context[..i], now)[1..] == Requests(context[1..][..i - 1], now);
  }

  /** The reply to pair `i` is the one its request gets after those before it. */
  ghost predicate AskedInTurn(
    config: map<string, Resolver>, s: State, context: seq<(string, Value)>, now: real, i: nat)
    requires i < |context|
  {
    var replies, k := Replies(config, s, context, now), Configured(config, context[..i]);
    && k < |replies|
    && replies[k] == Ask(Run(config, s, Requests(context[..i], now)), context[i].0, context[i].1, now).1
  }

  lemma FirstIsAsked(config: map<string, Resolver>, s: State, context: seq<(string, Value)>, now: real)
    requires context != [] && context[0].0 in config
    ensures AskedInTurn(config, s, context, now, 0)
  {
    assert context[..0] == [];
  }

  lemma LaterIsAsked(config: map<string, Resolver>, s: State, context: seq<(string, Value)>, now: real, i: nat)
    requires 0 < i < |context|
    requires AskedInTurn(config, AfterFirst(config, s, context, now), context[1..], now, i - 1)
    ensures AskedInTurn(config, s, context, now, i)
  {
    PrefixShrinks(config, s, context, now, i);
    RepliesCons(config, s, context, now);
  }

  lemma RepliesCons(config: map<string, Resolver>, s: State, context: seq<(string, Value)>, now: real)
    requires context != []
    ensures Replies(config, s, context, now)
            == (if context[0].0 in config then [Ask(s, context[0].0, context[0].1, now).1] else [])
               + Replies(config, AfterFirst(config, s, context, now), context[1..], now)
  {
    EmptyConcat(Replies(config, AfterFirst(config, s, context, now), context[1..], now));
  }

  /** Each pair with a resolver is asked once, in turn. */
  lemma {:induction false} EveryPairIsAsked(
    config: map<string, Resolver>, s: State, context: seq<(string, Value)>, now: real, i: nat)
    requires i < |context| && context[i].0 in config
    ensures |Replies(config, s, context, now)| == Configured(config, context)
    ensures AskedInTurn(config, s, context, now, i)
    decreases |context|
  {
    RepliesLength(config, s, context, now);
    if i == 0 {
      FirstIsAsked(config, s, context, now);
    } else {
      EveryPairIsAsked(config, AfterFirst(config, s, context, now), context[1..], now, i - 1);
      LaterIsAsked(config, s, context, now, i);
    }
  }

  lemma {:induction false} RepliesLength(
    config: map<string, Resolver>, s: State, context: seq<(string, Value)>, now: real)
    ensures |Replies(config, s, context, now)| == Configured(config, context)
    decreases |context|
  {
    if context != [] {
      var s' := if context[0].0 in config then Ask(s, context[0].0, context[0].1, now).0 else s;
      RepliesLength(config, s', context[1..], now);
    }
  }

  function Awaited(replies: seq<Reply>): seq<int> {
    if replies == [] then []
    else (if replies[0].Joined? then [replies[0].lookup] else []) + Awaited(replies[1..])
  }

  // ----- the last one wins -----

  /** The value of `field` in the last of `all` that has it. */
  function LastOf(all: seq<Additions>, field: string): Option<string> {
    if all == [] then None
    else if field in all[|all| - 1] then Some(all[|all| - 1][field])
    else LastOf(all[..|all| - 1], field)
  }

  function FieldOf(m: Additions, field: string): Option<string> {
    if field in m then Some(m[field]) else None
  }

  function WarmFields(replies: seq<Reply>): seq<Additions> {
    if replies == [] then []
    else (if replies[0].Warm? then [replies[0].fields] else []) + WarmFields(replies[1..])
  }

  function AnsweredFields(answers: seq<Answer>): seq<Additions> {
    if answers == [] then []
    else (if answers[0].Fields? then [answers[0].fields] else []) + AnsweredFields(answers[1..])
  }

  lemma {:induction false} LastOfConcat(a: seq<Additions>, b: seq<Additions>, field: string)
    ensures LastOf(a + b, field) == if LastOf(b, field).Some? then LastOf(b, field) else LastOf(a, field)
    decreases |b|
  {
    if b == [] {
      assert a + b == a;
    } else {
      assert (a + b)[..|a + b| - 1] == a + b[..|b| - 1];
      LastOfConcat(a, b[..|b| - 1], field);
    }
  }

  lemma LastOfOne(m: Additions, field: string)
    ensures LastOf([m], field) == FieldOf(m, field)
  {
    assert [m][..0] == [];
  }

  /** Merging the first two maps beforehand changes nothing. */
  lemma FirstTwoMerge(a: Additions, b: Additions, rest: seq<Additions>, field: string)
    ensures LastOf([a + b] + rest, field) == LastOf([a] + ([b] + rest), field)
  {
    LastOfConcat([a + b], rest, field);
    LastOfConcat([b], rest, field);
    LastOfConcat([a], [b] + rest, field);
    LastOfOne(a + b, field);
    LastOfOne(a, field);
    LastOfOne(b, field);
  }

  lemma {:induction false} MergeIsLastOf(additions: Additions, answers: seq<Answer>, field: string)
    requires Merge(additions, answers).Some?
    ensures FieldOf(Merge(additions, answers).value, field) == LastOf([additions] + AnsweredFields(answers), field)
    decreases |answers|
  {
    if answers == [] {
      assert [additions] + [] == [additions];
      LastOfOne(additions, field);
    } else {
      var rest := AnsweredFields(answers[1..]);
      if answers[0].Fields? {
        MergeIsLastOf(additions + answers[0].fields, answers[1..], field);
        FirstTwoMerge(additions, answers[0].fields, rest, field);
      } else {
        MergeIsLastOf(additions, answers[1..], field);
        EmptyConcat(rest);
      }
    }
  }

  lemma {:induction false} CollectIsLastOf(
    config: map<string, Resolver>, s: State, context: seq<(string, Value)>, now: real, c: Collected, field: string)
    ensures var (_, c') := Collect(config, s, context, now, c);
            var replies := Replies(config, s, context, now);
            && c'.lookups == c.lookups + Awaited(replies)
            && FieldOf(c'.additions, field) == LastOf([c.additions] + WarmFields(replies), field)
    decreases |context|
  {
    if context == [] {
      assert c.lookups + [] == c.lookups && [c.additions] + [] == [c.additions];
      LastOfOne(c.additions, field);
    } else if context[0].0 !in config {
      CollectIsLastOf(config, s, context[1..], now, c, field);
    } else {
      var (s', reply) := Ask(s, context[0].0, context[0].1, now);
      var rest := Replies(config, s', context[1..], now);
      match reply
      case Warm(fields) =>
        CollectIsLastOf(config, s', context[1..], now, c.(additions := c.additions + fields), field);
        FirstTwoMerge(c.additions, fields, WarmFields(rest), field);
        EmptyConcat(Awaited(rest));
      case Joined(id) =>
        CollectIsLastOf(config, s', context[1..], now, c.(lookups := c.lookups + [id]), field);
        ConcatAssociates(c.lookups, [id], Awaited(rest));
        EmptyConcat(WarmFields(rest));
    }
  }

  /**
   * What a call adds, field by field: the value in the last answer that has the field, of those it awaited; failing
   * that, in the last warm answer; and nothing else. It awaits exactly the lookups its requests joined, in order.
   */
  lemma ResultIsLastOf(config: map<string, Resolver>, s: State, context: seq<(string, Value)>, now: real,
                       answers: map<int, Answer>, field: string)
    ensures var (_, c) := Collect(config, s, context, now, Collected(map[], []));
            var replies := Replies(config, s, context, now);
            && c.lookups == Awaited(replies)
            && (F.AllAnswered(answers, c.lookups) && F.Promise(c, answers).Result? ==>
                  var awaited := AnsweredFields(F.AnswersTo(answers, c.lookups));
                  FieldOf(F.Promise(c, answers).additions, field) == LastOf(WarmFields(replies) + awaited, field))
  {
    var (_, c) := Collect(config, s, context, now, Collected(map[], []));
    var warm := WarmFields(Replies(config, s, context, now));
    CollectIsLastOf(config, s, context, now, Collected(map[], []), field);
    EmptyConcat(Awaited(Replies(config, s, context, now)));
    if F.AllAnswered(answers, c.lookups) && F.Promise(c, answers).Result? {
      F.PromiseIsMerge(c, answers);
      var awaited := AnsweredFields(F.AnswersTo(answers, c.lookups));
      MergeIsLastOf(c.additions, F.AnswersTo(answers, c.lookups), field);
      LastOfConcat([c.additions], awaited, field);
      LastOfConcat(warm, awaited, field);
      LastOfConcat([map[]], warm, field);
      LastOfOne(c.additions, field);
      LastOfOne(map[], field);
    }
  }
}
