/** Storm detection of src/writer/adaptive.writer.ts: a sliding error window with hysteresis. */
module Adaptive {
  import opened Sequences
  import opened Entries
  import opened OrderedMap
  import opened GroupCounting
  import R = Repeat

  datatype Config = Config(windowMs: real, errorRate: int, cooldownMs: real, sample: real)

  datatype Output = Plain(entry: Entry) | Summary(entry: Entry, count: int) | StormBegins | StormOver

  /** One call of observe: when, and how many errors the window held. */
  datatype Observation = Observation(now: real, windowed: int)

  datatype Storm = Storm(errors: seq<real>, throttled: bool, cooldownStart: Option<real>)

  datatype State = State(
    storm: Storm, groups: Groups<string, Entry>, out: seq<Output>,
    errorTimes: seq<real>,            // history: the time of every error entry
    observations: seq<Observation>)   // history

  const MAX_GROUPS := 500

  predicate IsError(e: Entry) { e.level == Error || e.level == Fatal }

  predicate IsSampled(e: Entry) { e.level == Debug || e.level == Info || e.level == Trace }

  function StormKey(e: Entry): string { R.Joined([LevelName(e.level), e.author, e.message], 0) }

  function Initial(): State {
    State(Storm([], false, None), Groups(Map([], map[]), Counters(0, 0, 0, 0, 0)), [], [], [])
  }

  /** `now` once per error entry. */
  function Stamps(entries: seq<Entry>, now: real): seq<real> {
    if entries == [] then [] else (if IsError(entries[0]) then [now] else []) + Stamps(entries[1..], now)
  }

  /** Shift the oldest stamps while they lie before the window. */
  function DropOld(errors: seq<real>, windowStart: real): seq<real> {
    if errors != [] && errors[0] < windowStart then DropOld(errors[1..], windowStart) else errors
  }

  function Windowed(c: Config, errors: seq<real>, entries: seq<Entry>, now: real): seq<real> {
    DropOld(errors + Stamps(entries, now), now - c.windowMs)
  }

  predicate Loud(c: Config, windowed: int) { windowed >= c.errorRate }

  /** Hysteresis: what the new window makes of the storm. */
  function NextStorm(c: Config, s: Storm, errors: seq<real>, now: real): Storm {
    if Loud(c, |errors|) then Storm(errors, true, None)
    else if !s.throttled then Storm(errors, false, s.cooldownStart)
    else
      var since := if s.cooldownStart.None? then now else s.cooldownStart.value;
      if now - since >= c.cooldownMs then Storm(errors, false, None) else Storm(errors, true, Some(since))
  }

  function WriteSummary(out: seq<Output>, group: Group<Entry>): seq<Output> {
    if group.count <= 1 then out else out + [Summary(group.payload, group.count)]
  }

  function DrainKeys(s: State, keys: seq<string>): State
    decreases |keys|
  {
    if keys == [] then s else DrainKeys(DrainKey(s, keys[0]), keys[1..])
  }

  function DrainKey(s: State, key: string): State {
    var s' := s.(groups := DrainOne(s.groups, key));
    if key in s.groups.entries.vals then s'.(out := WriteSummary(s.out, s.groups.entries.vals[key])) else s'
  }

  function FlushSummaries(s: State): State { DrainKeys(s, s.groups.entries.keys) }

  function Notify(s: State, notice: Output): State { s.(out := s.out + [notice]) }

  /** The window and the storm after an observation, before anything is written. */
  function Updated(c: Config, s: State, entries: seq<Entry>, now: real): State {
    var errors := Windowed(c, s.storm.errors, entries, now);
    s.(storm := NextStorm(c, s.storm, errors, now), errorTimes := s.errorTimes + Stamps(entries, now),
       observations := s.observations + [Observation(now, |errors|)])
  }

  /** Announce that the storm began or, after the summaries, that it is over. */
  function Announce(before: bool, s: State): State {
    if !before && s.storm.throttled then Notify(s, StormBegins)
    else if before && !s.storm.throttled then Notify(FlushSummaries(s), StormOver)
    else s
  }

  function Observe(c: Config, s: State, entries: seq<Entry>, now: real): State {
    Announce(s.storm.throttled, Updated(c, s, entries, now))
  }

  function GroupError(s: State, e: Entry): State {
    var key := StormKey(e);
    s.(groups := if key in s.groups.entries.vals then Absorb(s.groups, key)
                 else Start(s.groups, MAX_GROUPS, key, Group(1, e)))
  }

  function Pass(c: Config, s: State, e: Entry, draw: real): State {
    if IsError(e) then GroupError(s, e)
    else if IsSampled(e) && draw >= c.sample then s
    else s.(out := s.out + [Plain(e)])
  }

  function PassAll(c: Config, s: State, entries: seq<Entry>, draws: seq<real>): State
    requires |draws| == |entries|
    decreases |entries|
  {
    if entries == [] then s else PassAll(c, Pass(c, s, entries[0], draws[0]), entries[1..], draws[1..])
  }

  function Plains(entries: seq<Entry>): seq<Output> {
    if entries == [] then [] else [Plain(entries[0])] + Plains(entries[1..])
  }

  function PushEntries(c: Config, s: State, entries: seq<Entry>, draws: seq<real>, now: real): State
    requires |draws| == |entries|
  {
    var s' := Observe(c, s, entries, now);
    if !s'.storm.throttled || !s.storm.throttled then s'.(out := s'.out + Plains(entries))
    else PassAll(c, s', entries, draws)
  }

  datatype Event = Push(entries: seq<Entry>, draws: seq<real>, now: real) | Flush

  function Step(c: Config, s: State, e: Event): State {
    match e
    case Push(entries, draws, now) => if |draws| == |entries| then PushEntries(c, s, entries, draws, now) else s
    case Flush => FlushSummaries(s)
  }

  function Run(c: Config, s: State, events: seq<Event>): State
    decreases |events|
  {
    if events == [] then s else Run(c, Step(c, s, events[0]), events[1..])
  }

  // ----- what the window and the notices mean -----

  function Last(s: State): Option<real> {
    if s.observations == [] then None else Some(s.observations[|s.observations| - 1].now)
  }

  /** A clock that never runs backwards. */
  predicate Monotone(last: Option<real>, events: seq<Event>)
    decreases |events|
  {
    events == [] ||
    (events[0].Flush? && Monotone(last, events[1..])) ||
    (events[0].Push? && |events[0].draws| == |events[0].entries|
     && (last.Some? ==> last.value <= events[0].now) && Monotone(Some(events[0].now), events[1..]))
  }

  /** The stamps not older than `start`. */
  function NotBefore(times: seq<real>, start: real): seq<real> {
    if times == [] then [] else (if times[0] >= start then [times[0]] else []) + NotBefore(times[1..], start)
  }

  predicate Sorted(times: seq<real>) {
    forall i, j :: 0 <= i < j < |times| ==> times[i] <= times[j]
  }

  /** Replaying the notices: Some(on) if they alternate, starting with a beginning. */
  function Notices(out: seq<Output>): Option<bool> {
    if out == [] then Some(false)
    else
      var before := Notices(out[..|out| - 1]);
      match out[|out| - 1]
      case StormBegins => if before == Some(false) then Some(true) else None
      case StormOver => if before == Some(true) then Some(false) else None
      case _ => before
  }

  /** Where the run of quiet observations at the end of the history begins. */
  function QuietFrom(c: Config, obs: seq<Observation>): (j: nat)
    ensures j <= |obs|
    ensures forall i :: j <= i < |obs| ==> !Loud(c, obs[i].windowed)
    ensures j > 0 ==> Loud(c, obs[j - 1].windowed)
  {
    if obs == [] || Loud(c, obs[|obs| - 1].windowed) then |obs| else QuietFrom(c, obs[..|obs| - 1])
  }

  ghost predicate WindowExact(c: Config, s: State) {
    && Sorted(s.errorTimes)
    && (Last(s).None? ==> s.errorTimes == [] && s.storm.errors == [])
    && (Last(s).Some? ==>
          && s.storm.errors == DropOld(s.errorTimes, Last(s).value - c.windowMs)
          && (s.errorTimes != [] ==> s.errorTimes[|s.errorTimes| - 1] <= Last(s).value))
  }

  ghost predicate CooldownExact(c: Config, s: State) {
    var obs := s.observations;
    var j := QuietFrom(c, obs);
    if s.storm.throttled then
      obs != [] && j > 0 && s.storm.cooldownStart == if j == |obs| then None else Some(obs[j].now)
    else s.storm.cooldownStart == None
  }

  ghost predicate Inv(c: Config, s: State) {
    WindowExact(c, s) && CooldownExact(c, s) && Notices(s.out) == Some(s.storm.throttled)
  }

  lemma {:induction false} DropOldAgain(times: seq<real>, more: seq<real>, a: real, b: real)
    requires a <= b
    ensures DropOld(DropOld(times, a) + more, b) == DropOld(times + more, b)
    decreases |times|
  {
    if times != [] && times[0] < a {
      assert (times + more)[1..] == times[1..] + more;
      DropOldAgain(times[1..], more, a, b);
    }
  }

  lemma {:induction false} DropOldIsFilter(times: seq<real>, start: real)
    requires Sorted(times)
    ensures DropOld(times, start) == NotBefore(times, start)
    decreases |times|
  {
    if times != [] {
      assert Sorted(times[1..]);
      DropOldIsFilter(times[1..], start);
      if times[0] >= start {
        forall i | 0 <= i < |times[1..]| ensures times[1..][i] >= start {
          assert times[1..][i] == times[i + 1];
        }
        AllKept(times[1..], start);
      }
    }
  }

  lemma {:induction false} AllKept(times: seq<real>, start: real)
    requires forall i :: 0 <= i < |times| ==> times[i] >= start
    ensures NotBefore(times, start) == times
    decreases |times|
  {
    if times != [] {
      forall i | 0 <= i < |times[1..]| ensures times[1..][i] >= start {
        assert times[1..][i] == times[i + 1];
      }
      AllKept(times[1..], start);
    }
  }

  lemma {:induction false} StampsAreNow(entries: seq<Entry>, now: real)
    ensures forall i :: 0 <= i < |Stamps(entries, now)| ==> Stamps(entries, now)[i] == now
    decreases |entries|
  {
    if entries != [] { StampsAreNow(entries[1..], now); }
  }

  /** Only the storm notices count for `Notices`. */
  predicate Quiet(out: seq<Output>) {
    forall i :: 0 <= i < |out| ==> out[i].Plain? || out[i].Summary?
  }

  lemma {:induction false} NoticesSkip(out: seq<Output>, more: seq<Output>)
    requires Quiet(more)
    ensures Notices(out + more) == Notices(out)
    decreases |more|
  {
    if more == [] {
      assert out + more == out;
    } else {
      var init := more[..|more| - 1];
      assert (out + more)[..|out + more| - 1] == out + init;
      NoticesSkip(out, init);
    }
  }

  lemma NoticesAppend(out: seq<Output>, notice: Output)
    ensures notice == StormBegins ==>
            Notices(out + [notice]) == if Notices(out) == Some(false) then Some(true) else None
    ensures notice == StormOver ==> Notices(out + [notice]) == if Notices(out) == Some(true) then Some(false) else None
  {
    assert (out + [notice])[..|out|] == out;
  }

  /** States that differ only in their groups, and in entries and summaries written. */
  ghost predicate OnlyWrites(s: State, s': State) {
    && s'.storm == s.storm && s'.errorTimes == s.errorTimes && s'.observations == s.observations
    && Notices(s'.out) == Notices(s.out)
  }

  lemma {:induction false} DrainOnlyWrites(s: State, keys: seq<string>)
    ensures OnlyWrites(s, DrainKeys(s, keys))
    decreases |keys|
  {
    if keys != [] {
      if keys[0] in s.groups.entries.vals {
        var group := s.groups.entries.vals[keys[0]];
        NoticesSkip(s.out, [Summary(group.payload, group.count)]);
      }
      DrainOnlyWrites(DrainKey(s, keys[0]), keys[1..]);
    }
  }

  lemma {:induction false} PassOnlyWrites(c: Config, s: State, entries: seq<Entry>, draws: seq<real>)
    requires |draws| == |entries|
    ensures OnlyWrites(s, PassAll(c, s, entries, draws))
    decreases |entries|
  {
    if entries != [] {
      NoticesSkip(s.out, [Plain(entries[0])]);
      PassOnlyWrites(c, Pass(c, s, entries[0], draws[0]), entries[1..], draws[1..]);
    }
  }

  lemma {:induction false} PlainsAreQuiet(entries: seq<Entry>)
    ensures Quiet(Plains(entries))
    decreases |entries|
  {
    if entries != [] { PlainsAreQuiet(entries[1..]); }
  }

  lemma StampsKeepOrder(times: seq<real>, stamps: seq<real>, now: real)
    requires Sorted(times) && (times != [] ==> times[|times| - 1] <= now)
    requires forall i :: 0 <= i < |stamps| ==> stamps[i] == now
    ensures Sorted(times + stamps)
    ensures times + stamps != [] ==> (times + stamps)[|times + stamps| - 1] <= now
  {
    forall i | 0 <= i < |times| ensures times[i] <= now {
      if i < |times| - 1 { assert times[i] <= times[|times| - 1]; }
    }
  }

  /** Dropping the stamps that have left the window may start from the previous window. */
  lemma WindowMoves(c: Config, errors: seq<real>, times: seq<real>, stamps: seq<real>, last: Option<real>, now: real)
    requires last.None? ==> times == [] && errors == []
    requires last.Some? ==> errors == DropOld(times, last.value - c.windowMs) && last.value <= now
    ensures DropOld(errors + stamps, now - c.windowMs) == DropOld(times + stamps, now - c.windowMs)
  {
    if last.Some? { DropOldAgain(times, stamps, last.value - c.windowMs, now - c.windowMs); }
  }

  lemma ObserveKeepsWindow(c: Config, s: State, entries: seq<Entry>, now: real)
    requires WindowExact(c, s) && (Last(s).Some? ==> Last(s).value <= now)
    ensures var stamps := Stamps(entries, now);
            && Sorted(s.errorTimes + stamps)
            && Windowed(c, s.storm.errors, entries, now) == DropOld(s.errorTimes + stamps, now - c.windowMs)
            && (s.errorTimes + stamps != [] ==> (s.errorTimes + stamps)[|s.errorTimes + stamps| - 1] <= now)
  {
    StampsAreNow(entries, now);
    StampsKeepOrder(s.errorTimes, Stamps(entries, now), now);
    WindowMoves(c, s.storm.errors, s.errorTimes, Stamps(entries, now), Last(s), now);
  }

  lemma QuietFromAppend(c: Config, obs: seq<Observation>, o: Observation)
    ensures QuietFrom(c, obs + [o]) == if Loud(c, o.windowed) then |obs| + 1 else QuietFrom(c, obs)
  {
    assert (obs + [o])[..|obs|] == obs;
  }

  lemma UpdateKeepsWindow(c: Config, s: State, entries: seq<Entry>, now: real)
    requires WindowExact(c, s) && (Last(s).Some? ==> Last(s).value <= now)
    ensures WindowExact(c, Updated(c, s, entries, now))
  {
    ObserveKeepsWindow(c, s, entries, now);
    assert Last(Updated(c, s, entries, now)) == Some(now);
  }

  lemma UpdateKeepsCooldown(c: Config, s: State, entries: seq<Entry>, now: real)
    requires CooldownExact(c, s)
    ensures CooldownExact(c, Updated(c, s, entries, now))
  {
    QuietFromAppend(c, s.observations, Observation(now, |Windowed(c, s.storm.errors, entries, now)|));
  }

  lemma UpdateKeeps(c: Config, s: State, entries: seq<Entry>, now: real)
    requires WindowExact(c, s) && CooldownExact(c, s) && (Last(s).Some? ==> Last(s).value <= now)
    ensures WindowExact(c, Updated(c, s, entries, now)) && CooldownExact(c, Updated(c, s, entries, now))
  {
    UpdateKeepsWindow(c, s, entries, now);
    UpdateKeepsCooldown(c, s, entries, now);
  }

  lemma AnnounceKeeps(before: bool, s: State)
    requires Notices(s.out) == Some(before)
    ensures var s' := Announce(before, s);
            && Notices(s'.out) == Some(s.storm.throttled)
            && s'.storm == s.storm && s'.errorTimes == s.errorTimes && s'.observations == s.observations
  {
    DrainOnlyWrites(s, s.groups.entries.keys);
    NoticesAppend(s.out, StormBegins);
    NoticesAppend(FlushSummaries(s).out, StormOver);
  }

  lemma SameHistoryKeepsInv(c: Config, s: State, s': State)
    requires WindowExact(c, s) && CooldownExact(c, s) && Notices(s'.out) == Some(s.storm.throttled)
    requires s'.storm == s.storm && s'.errorTimes == s.errorTimes && s'.observations == s.observations
    ensures Inv(c, s') && Last(s') == Last(s)
  {
  }

  lemma ObserveKeepsInv(c: Config, s: State, entries: seq<Entry>, now: real)
    requires Inv(c, s) && (Last(s).Some? ==> Last(s).value <= now)
    ensures var s', u := Observe(c, s, entries, now), Updated(c, s, entries, now);
            && Inv(c, s') && Last(s') == Some(now)
            && s'.storm == u.storm && s'.errorTimes == u.errorTimes && s'.observations == u.observations
  {
    var u := Updated(c, s, entries, now);
    UpdateKeeps(c, s, entries, now);
    AnnounceKeeps(s.storm.throttled, u);
    SameHistoryKeepsInv(c, u, Announce(s.storm.throttled, u));
  }

  /** What a push does after its observation, in a storm or out of one. */
  lemma RestOnlyWrites(c: Config, s: State, entries: seq<Entry>, draws: seq<real>)
    requires |draws| == |entries|
    ensures OnlyWrites(s, s.(out := s.out + Plains(entries))) && OnlyWrites(s, PassAll(c, s, entries, draws))
  {
    PlainsAreQuiet(entries);
    NoticesSkip(s.out, Plains(entries));
    PassOnlyWrites(c, s, entries, draws);
  }

  lemma PushKeepsInv(c: Config, s: State, entries: seq<Entry>, draws: seq<real>, now: real)
    requires Inv(c, s) && (Last(s).Some? ==> Last(s).value <= now) && |draws| == |entries|
    ensures Inv(c, PushEntries(c, s, entries, draws, now)) && Last(PushEntries(c, s, entries, draws, now)) == Some(now)
  {
    var s' := Observe(c, s, entries, now);
    ObserveKeepsInv(c, s, entries, now);
    RestOnlyWrites(c, s', entries, draws);
    SameHistoryKeepsInv(c, s', PushEntries(c, s, entries, draws, now));
  }

  lemma StepKeepsInv(c: Config, s: State, e: Event)
    requires Inv(c, s) && (e.Push? && Last(s).Some? ==> Last(s).value <= e.now)
    ensures Inv(c, Step(c, s, e))
    ensures e.Push? && |e.draws| == |e.entries| ==> Last(Step(c, s, e)) == Some(e.now)
    ensures e.Flush? ==> Last(Step(c, s, e)) == Last(s)
  {
    match e
    case Flush =>
      DrainOnlyWrites(s, s.groups.entries.keys);
      SameHistoryKeepsInv(c, s, FlushSummaries(s));
    case Push(entries, draws, now) =>
      if |draws| == |entries| { PushKeepsInv(c, s, entries, draws, now); }
  }

  lemma {:induction false} RunKeepsInv(c: Config, s: State, events: seq<Event>)
    requires Inv(c, s) && Monotone(Last(s), events)
    ensures Inv(c, Run(c, s, events))
    decreases |events|
  {
    if events != [] {
      StepKeepsInv(c, s, events[0]);
      RunKeepsInv(c, Step(c, s, events[0]), events[1..]);
    }
  }

  // ----- results -----

  /** The error stamps of one event. */
  function EventStamps(e: Event): seq<real> {
    if e.Push? && |e.draws| == |e.entries| then Stamps(e.entries, e.now) else []
  }

  /** The time of every error entry pushed, read off the calls alone. */
  function AllStamps(events: seq<Event>): seq<real>
    decreases |events|
  {
    if events == [] then [] else EventStamps(events[0]) + AllStamps(events[1..])
  }

  lemma ObserveStamps(c: Config, s: State, entries: seq<Entry>, now: real)
    ensures Observe(c, s, entries, now).errorTimes == s.errorTimes + Stamps(entries, now)
  {
    var u := Updated(c, s, entries, now);
    DrainOnlyWrites(u, u.groups.entries.keys);
  }

  lemma StepStamps(c: Config, s: State, e: Event)
    ensures Step(c, s, e).errorTimes == s.errorTimes + EventStamps(e)
  {
    match e
    case Flush =>
      DrainOnlyWrites(s, s.groups.entries.keys);
      assert s.errorTimes + [] == s.errorTimes;
    case Push(entries, draws, now) =>
      if |draws| == |entries| {
        ObserveStamps(c, s, entries, now);
        PassOnlyWrites(c, Observe(c, s, entries, now), entries, draws);
      } else {
        assert s.errorTimes + [] == s.errorTimes;
      }
  }

  lemma {:induction false} ErrorTimesAreStamps(c: Config, s: State, events: seq<Event>)
    ensures Run(c, s, events).errorTimes == s.errorTimes + AllStamps(events)
    decreases |events|
  {
    if events != [] {
      var s' := Step(c, s, events[0]);
      StepStamps(c, s, events[0]);
      ErrorTimesAreStamps(c, s', events[1..]);
      ConcatAssociates(s.errorTimes, EventStamps(events[0]), AllStamps(events[1..]));
    }
  }

  /**
   * With a clock that never runs backwards: the deque is exactly the error times not older
   * than the window at the last observation, and the notices alternate, beginning first.
   */
  lemma WindowAndNotices(c: Config, events: seq<Event>)
    requires Monotone(None, events)
    ensures var s := Run(c, Initial(), events);
            && (Last(s).Some? ==> s.storm.errors == NotBefore(AllStamps(events), Last(s).value - c.windowMs))
            && Notices(s.out) == Some(s.storm.throttled)
  {
    ReachedState(c, events);
    InvGivesWindow(c, Run(c, Initial(), events));
  }

  lemma ReachedState(c: Config, events: seq<Event>)
    requires Monotone(None, events)
    ensures var s := Run(c, Initial(), events); Inv(c, s) && s.errorTimes == AllStamps(events)
  {
    RunKeepsInv(c, Initial(), events);
    ErrorTimesAreStamps(c, Initial(), events);
    EmptyConcat(AllStamps(events));
  }

  lemma InvGivesWindow(c: Config, s: State)
    requires Inv(c, s)
    ensures Last(s).Some? ==> s.storm.errors == NotBefore(s.errorTimes, Last(s).value - c.windowMs)
    ensures Notices(s.out) == Some(s.storm.throttled)
  {
    if Last(s).Some? { WindowIsFilter(c, s); }
  }

  lemma WindowIsFilter(c: Config, s: State)
    requires WindowExact(c, s) && Last(s).Some?
    ensures s.storm.errors == NotBefore(s.errorTimes, Last(s).value - c.windowMs)
  {
    DropOldIsFilter(s.errorTimes, Last(s).value - c.windowMs);
  }

  /**
   * A storm begins exactly when the window fills, and ends exactly when the run of quiet
   * observations that reaches to now has lasted `cooldownMs`.
   */
  lemma StormEndsIff(c: Config, s: State, entries: seq<Entry>, draws: seq<real>, now: real)
    requires Inv(c, s) && (Last(s).Some? ==> Last(s).value <= now) && |draws| == |entries|
    ensures var s' := Step(c, s, Push(entries, draws, now));
            var obs := s'.observations;
            var j := QuietFrom(c, obs);
            && obs == s.observations + [Observation(now, |s'.storm.errors|)]
            && (!s.storm.throttled ==> (s'.storm.throttled <==> |s'.storm.errors| >= c.errorRate))
            && (s.storm.throttled ==>
                  (!s'.storm.throttled <==> j < |obs| && obs[|obs| - 1].now - obs[j].now >= c.cooldownMs))
  {
    ObserveKeepsInv(c, s, entries, now);
    RestOnlyWrites(c, Observe(c, s, entries, now), entries, draws);
    UpdateDecides(c, s, entries, now);
  }

  /** The same of the observation alone. */
  lemma UpdateDecides(c: Config, s: State, entries: seq<Entry>, now: real)
    requires CooldownExact(c, s)
    ensures var u := Updated(c, s, entries, now);
            var obs := u.observations;
            var j := QuietFrom(c, obs);
            && obs == s.observations + [Observation(now, |u.storm.errors|)]
            && (!s.storm.throttled ==> (u.storm.throttled <==> |u.storm.errors| >= c.errorRate))
            && (s.storm.throttled ==>
                  (!u.storm.throttled <==> j < |obs| && obs[|obs| - 1].now - obs[j].now >= c.cooldownMs))
  {
    QuietFromAppend(c, s.observations, Observation(now, |Windowed(c, s.storm.errors, entries, now)|));
  }

  lemma {:induction false} PlainsLength(entries: seq<Entry>)
    ensures |Plains(entries)| == |entries|
    decreases |entries|
  {
    if entries != [] { PlainsLength(entries[1..]); }
  }

  /** Outside a storm, and for the batch that starts one, every entry is written, in order. */
  lemma CalmPassesEverything(c: Config, s: State, entries: seq<Entry>, draws: seq<real>, now: real)
    requires |draws| == |entries|
    requires !s.storm.throttled || !Step(c, s, Push(entries, draws, now)).storm.throttled
    ensures var out := Step(c, s, Push(entries, draws, now)).out;
            |entries| <= |out| && out[|out| - |entries|..] == Plains(entries)
  {
    PassOnlyWrites(c, Observe(c, s, entries, now), entries, draws);
    PlainsLength(entries);
  }
}
