/** When a resolveAll call of src/resolvers/index.resolver.ts yields no result. */
module ResolverFailures {
  import opened Sequences
  import opened OrderedMap
  import opened CacheKeys
  import opened Resolvers

  lemma FailedIffThrew(r: Resolver, key: string, o: Outcome)
    ensures AnswerOf(r, key, o) == Failed <==> o.Threw?
  {
  }

  /** Merging yields no result exactly if some awaited lookup rejected. */
  lemma {:induction false} MergeFailsIff(additions: Additions, answers: seq<Answer>)
    ensures Merge(additions, answers).None? <==> exists i :: 0 <= i < |answers| && answers[i].Failed?
    decreases |answers|
  {
    if answers != [] && !answers[0].Failed? {
      var additions' := if answers[0].Fields? then additions + answers[0].fields else additions;
      MergeFailsIff(additions', answers[1..]);
      assert forall i :: 0 < i < |answers| ==> answers[i] == answers[1..][i - 1];
    }
  }

  /** How a lookup that is unsettled in `s` ends over a run; None while it has not. */
  function OutcomeOf(config: map<string, Resolver>, s: State, events: seq<Event>, id: int): Option<Outcome>
    decreases |events|
  {
    if events == [] then None
    else if events[0].Settled? && events[0].lookup == id && id in s.active && s.active[id].key in config then
      Some(events[0].outcome)
    else OutcomeOf(config, Step(config, s, events[0]), events[1..], id)
  }

  /** A lookup stays what it is until it settles. */
  lemma ActiveUntilSettled(config: map<string, Resolver>, s: State, e: Event, id: int)
    requires Inv(config, s) && id in s.active && !(e.Settled? && e.lookup == id)
    ensures var s' := Step(config, s, e); id in s'.active && s'.active[id].key == s.active[id].key
  {
  }

  lemma {:induction false} AnswerFollowsOutcome(config: map<string, Resolver>, s: State, events: seq<Event>, id: int)
    requires Inv(config, s) && id in s.active
    ensures var o, s' := OutcomeOf(config, s, events, id), Run(config, s, events);
            && (o.Some? <==> id in s'.answers)
            && (o.Some? ==> s'.answers[id] == AnswerOf(config[s.active[id].key], s.active[id].key, o.value))
    decreases |events|
  {
    if events == [] {
    } else {
      var e := events[0];
      var s' := Step(config, s, e);
      StepKeepsInv(config, s, e);
      if e.Settled? && e.lookup == id {
        SettlingIsExact(config, s, id, e.outcome, e.now);
        AnswersAreFinal(config, s', events[1..], id);
      } else {
        ActiveUntilSettled(config, s, e, id);
        AnswerFollowsOutcome(config, s', events[1..], id);
      }
    }
  }

  lemma AskAwaitsActive(config: map<string, Resolver>, s: State, key: string, value: Value, now: real)
    requires Inv(config, s) && key in config
    ensures var (s', reply) := Ask(s, key, value, now);
            && (reply.Joined? ==> reply.lookup in s'.active)
            && forall id :: id in s.active ==> id in s'.active
  {
  }

  lemma CollectOne(
    config: map<string, Resolver>, s: State, key: string, value: Value, now: real, lookups: seq<int>)
    requires Inv(config, s) && key in config && forall i :: 0 <= i < |lookups| ==> lookups[i] in s.active
    ensures var (s', reply) := Ask(s, key, value, now);
            var lookups' := if reply.Joined? then lookups + [reply.lookup] else lookups;
            Inv(config, s') && forall i :: 0 <= i < |lookups'| ==> lookups'[i] in s'.active
  {
    AskKeepsInv(config, s, key, value, now);
    AskAwaitsActive(config, s, key, value, now);
  }

  /** Whatever resolveAll waits for is unsettled when it starts to wait. */
  lemma {:induction false} CollectAwaitsActive(
    config: map<string, Resolver>, s: State, context: seq<(string, Value)>, now: real, c: Collected)
    requires Inv(config, s) && forall i :: 0 <= i < |c.lookups| ==> c.lookups[i] in s.active
    ensures var (s', c') := Collect(config, s, context, now, c);
            Inv(config, s') && forall i :: 0 <= i < |c'.lookups| ==> c'.lookups[i] in s'.active
    decreases |context|
  {
    if context != [] {
      var (key, value) := context[0];
      if key !in config {
        CollectAwaitsActive(config, s, context[1..], now, c);
      } else {
        var (s', reply) := Ask(s, key, value, now);
        CollectOne(config, s, key, value, now, c.lookups);
        var c' := match reply
          case Warm(fields) => c.(additions := c.additions + fields)
          case Joined(id) => c.(lookups := c.lookups + [id]);
        CollectAwaitsActive(config, s', context[1..], now, c');
      }
    }
  }

  function AnswersTo(answers: map<int, Answer>, lookups: seq<int>): (r: seq<Answer>)
    requires forall i :: 0 <= i < |lookups| ==> lookups[i] in answers
    ensures |r| == |lookups| && forall i :: 0 <= i < |r| ==> r[i] == answers[lookups[i]]
  {
    if lookups == [] then [] else [answers[lookups[0]]] + AnswersTo(answers, lookups[1..])
  }

  /** What a call that awaits all of `lookups` has come to. */
  datatype Promised = Pending | Failure | Result(additions: Additions)

  predicate AllAnswered(answers: map<int, Answer>, lookups: seq<int>) {
    forall i :: 0 <= i < |lookups| ==> lookups[i] in answers
  }

  predicate SomeFailed(answers: map<int, Answer>, lookups: seq<int>) {
    exists i :: 0 <= i < |lookups| && lookups[i] in answers && answers[lookups[i]].Failed?
  }

  /** Promise.all and the merge behind it: the first rejection decides, an answer needs all of them. */
  function Promise(c: Collected, answers: map<int, Answer>): Promised {
    if SomeFailed(answers, c.lookups) then Failure
    else if !AllAnswered(answers, c.lookups) then Pending
    else
      var merged := Merge(c.additions, AnswersTo(answers, c.lookups));
      if merged.None? then Failure else Result(merged.value)
  }

  /** Once everything is answered the merge alone tells how the call ends. */
  lemma PromiseIsMerge(c: Collected, answers: map<int, Answer>)
    requires AllAnswered(answers, c.lookups)
    ensures var merged := Merge(c.additions, AnswersTo(answers, c.lookups));
            Promise(c, answers) == if merged.None? then Failure else Result(merged.value)
  {
    var results := AnswersTo(answers, c.lookups);
    MergeFailsIff(c.additions, results);
    if i :| 0 <= i < |c.lookups| && answers[c.lookups[i]].Failed? {
      assert results[i].Failed?;
    }
  }

  lemma RejectedIff(c: Collected, answers: map<int, Answer>)
    ensures Promise(c, answers) == Failure <==> SomeFailed(answers, c.lookups)
  {
    if AllAnswered(answers, c.lookups) {
      MergeFailsIff(c.additions, AnswersTo(answers, c.lookups));
    }
  }

  /**
   * After any history and over any later run, whether or not everything it awaits settles: a
   * resolveAll call has failed exactly if some lookup it awaits was thrown out of, and has a
   * result exactly if all of them settled and none was.
   */
  lemma ResolveAllFailsIff(
    config: map<string, Resolver>, before: seq<Event>, context: seq<(string, Value)>, now: real, later: seq<Event>)
    ensures var (s, c) := Collect(config, Run(config, Initial(), before), context, now, Collected(map[], []));
            var promise := Promise(c, Run(config, s, later).answers);
            && (promise == Failure <==>
                exists i :: 0 <= i < |c.lookups| && OutcomeOf(config, s, later, c.lookups[i]) == Some(Threw))
            && (promise.Result? <==>
                forall i :: 0 <= i < |c.lookups| ==>
                  var o := OutcomeOf(config, s, later, c.lookups[i]); o.Some? && o != Some(Threw))
  {
    var s0 := Run(config, Initial(), before);
    RunKeepsInv(config, Initial(), before);
    CollectAwaitsActive(config, s0, context, now, Collected(map[], []));
    var (s, c) := Collect(config, s0, context, now, Collected(map[], []));
    var answers := Run(config, s, later).answers;
    RejectedIff(c, answers);
    forall i | 0 <= i < |c.lookups|
      ensures var o := OutcomeOf(config, s, later, c.lookups[i]);
              && (o.Some? <==> c.lookups[i] in answers)
              && (o.Some? ==> (answers[c.lookups[i]].Failed? <==> o == Some(Threw)))
    {
      AnswerFollowsOutcome(config, s, later, c.lookups[i]);
      var key := s.active[c.lookups[i]].key;
      var o := OutcomeOf(config, s, later, c.lookups[i]);
      if o.Some? { FailedIffThrew(config[key], key, o.value); }
    }
  }

  /** One resolver that throws fails the call, although it would be skipped had it rejected. */
  lemma ThrowingResolverFailsTheCall()
    ensures var config := map["user" := Resolver(None, false, false, 60000.0)];
            var (s, c) := Collect(config, Initial(), [("user", Text("7"))], 0.0, Collected(map[], []));
            var thrown := Run(config, s, [Settled(0, Threw, 1.0)]).answers;
            var rejected := Run(config, s, [Settled(0, Rejected, 1.0)]).answers;
            c == Collected(map[], [0]) && Promise(c, thrown) == Failure && Promise(c, rejected) == Result(map[])
  {
    var config := map["user" := Resolver(None, false, false, 60000.0)];
    var context := [("user", Text("7"))];
    assert context[1..] == [];
    var (s1, reply) := Ask(Initial(), "user", Text("7"), 0.0);
    assert reply == Joined(0) && s1.active[0].key == "user";
    var (s, c) := Collect(config, Initial(), context, 0.0, Collected(map[], []));
    assert s == s1 && c == Collected(map[], [] + [0]);
    assert [Settled(0, Threw, 1.0)][1..] == [] && [Settled(0, Rejected, 1.0)][1..] == [];
    var rejected := Run(config, s, [Settled(0, Rejected, 1.0)]).answers;
    assert rejected == map[0 := Absent] && [0][1..] == [] && [Absent][1..] == [];
    assert AnswersTo(rejected, [0]) == [Absent];
  }
}
