/** What the adaptive transport writes, before, during and after a storm. */
module AdaptiveStorms {
  import opened Sequences
  import opened Entries
  import opened OrderedMap
  import opened GroupCounting
  import opened Adaptive
  import L = Lru

  // ----- during a storm -----

  /** Warnings and successes always pass, verbose levels if the draw is below the sampling rate, errors never. */
  predicate Passes(c: Config, level: Level, draw: real) {
    level == Warn || level == Success || (level in {Debug, Info, Trace} && draw < c.sample)
  }

  /** The entries that pass, in order. */
  function Passed(c: Config, entries: seq<Entry>, draws: seq<real>): seq<Output>
    requires |draws| == |entries|
  {
    if entries == [] then []
    else (if Passes(c, entries[0].level, draws[0]) then [Plain(entries[0])] else [])
         + Passed(c, entries[1..], draws[1..])
  }

  predicate Grouped(e: Entry) { e.level == Error || e.level == Fatal }

  /** How many of the entries are errors of this key. */
  function ErrorsOf(entries: seq<Entry>, key: string): nat {
    if entries == [] then 0
    else (if Grouped(entries[0]) && StormKey(entries[0]) == key then 1 else 0) + ErrorsOf(entries[1..], key)
  }

  function Errors(entries: seq<Entry>): nat {
    if entries == [] then 0 else (if Grouped(entries[0]) then 1 else 0) + Errors(entries[1..])
  }

  function CountOf(g: Groups<string, Entry>, key: string): int {
    if key in g.entries.vals then g.entries.vals[key].count else 0
  }

  ghost predicate Sound(s: State) {
    Valid(s.groups.entries) && |s.groups.entries.keys| <= 500
  }

  lemma PassWrites(c: Config, s: State, e: Entry, draw: real)
    ensures Pass(c, s, e, draw).out == s.out + if Passes(c, e.level, draw) then [Plain(e)] else []
  {
  }

  /** An error goes into its group and nowhere else; the least recently counted group makes room for a new one. */
  lemma PassGroups(c: Config, s: State, e: Entry, draw: real, key: string)
    requires Sound(s)
    ensures var s' := Pass(c, s, e, draw);
            var counts := s'.groups.counters;
            && Sound(s')
            && counts.absorbed + counts.started
               == s.groups.counters.absorbed + s.groups.counters.started + Errors([e])
            && counts.evicted >= s.groups.counters.evicted
            && (counts.evicted == s.groups.counters.evicted ==>
                  CountOf(s'.groups, key) == CountOf(s.groups, key) + ErrorsOf([e], key))
  {
    assert [e][1..] == [];
    if Grouped(e) {
      var k, entries := StormKey(e), s.groups.entries;
      if k in entries.vals {
        var bumped := entries.vals[k].(count := entries.vals[k].count + 1);
        TouchShape(entries, k, bumped);
        TouchValid(entries, k, bumped);
      } else {
        var group := Group(1, e);
        TouchShape(entries, k, group);
        TouchValid(entries, k, group);
        if |entries.keys| >= MAX_GROUPS {
          var oldest := entries.keys[0];
          assert oldest in entries.keys;
          RemoveValid(entries, oldest);
          TouchValid(Remove(entries, oldest), k, group);
        }
      }
    }
  }

  lemma ErrorsOfHead(entries: seq<Entry>, key: string)
    requires entries != []
    ensures ErrorsOf(entries, key) == ErrorsOf([entries[0]], key) + ErrorsOf(entries[1..], key)
    ensures Errors(entries) == Errors([entries[0]]) + Errors(entries[1..])
  {
    assert [entries[0]][1..] == [];
  }

  lemma {:induction false} PassAllWrites(c: Config, s: State, entries: seq<Entry>, draws: seq<real>)
    requires |draws| == |entries|
    ensures PassAll(c, s, entries, draws).out == s.out + Passed(c, entries, draws)
    decreases |entries|
  {
    if entries == [] {
      assert s.out + [] == s.out;
    } else {
      PassWrites(c, s, entries[0], draws[0]);
      PassAllWrites(c, Pass(c, s, entries[0], draws[0]), entries[1..], draws[1..]);
      ConcatAssociates(s.out, if Passes(c, entries[0].level, draws[0]) then [Plain(entries[0])] else [],
                       Passed(c, entries[1..], draws[1..]));
    }
  }

  lemma {:induction false} PassAllGroups(c: Config, s: State, entries: seq<Entry>, draws: seq<real>, key: string)
    requires |draws| == |entries| && Sound(s)
    ensures var s' := PassAll(c, s, entries, draws);
            var counts := s'.groups.counters;
            && Sound(s')
            && counts.absorbed + counts.started
               == s.groups.counters.absorbed + s.groups.counters.started + Errors(entries)
            && counts.evicted >= s.groups.counters.evicted
            && (counts.evicted == s.groups.counters.evicted ==>
                  CountOf(s'.groups, key) == CountOf(s.groups, key) + ErrorsOf(entries, key))
    decreases |entries|
  {
    if entries != [] {
      ErrorsOfHead(entries, key);
      PassGroups(c, s, entries[0], draws[0], key);
      PassAllGroups(c, Pass(c, s, entries[0], draws[0]), entries[1..], draws[1..], key);
    }
  }

  // ----- summaries -----

  function SummaryOf(group: Group<Entry>): seq<Output> {
    if group.count >= 2 then [Summary(group.payload, group.count)] else []
  }

  /** The summaries of the groups under `keys`, oldest first. */
  function SummariesOf(vals: map<string, Group<Entry>>, keys: seq<string>): seq<Output>
    requires forall k :: k in keys ==> k in vals
  {
    if keys == [] then [] else SummaryOf(vals[keys[0]]) + SummariesOf(vals, keys[1..])
  }

  lemma {:induction false} SummariesOfOthers(vals: map<string, Group<Entry>>, keys: seq<string>, k: string)
    requires k !in keys && forall x :: x in keys ==> x in vals
    ensures SummariesOf(vals - {k}, keys) == SummariesOf(vals, keys)
    decreases |keys|
  {
    if keys != [] { SummariesOfOthers(vals, keys[1..], k); }
  }

  lemma DrainKeyWrites(s: State, k: string)
    requires k in s.groups.entries.vals
    ensures DrainKey(s, k).out == s.out + SummaryOf(s.groups.entries.vals[k])
    ensures DrainKey(s, k).groups.entries.vals == s.groups.entries.vals - {k}
  {
  }

  lemma {:induction false} DrainWrites(s: State, keys: seq<string>)
    requires Distinct(keys) && forall k :: k in keys ==> k in s.groups.entries.vals
    ensures DrainKeys(s, keys).out == s.out + SummariesOf(s.groups.entries.vals, keys)
    decreases |keys|
  {
    if keys == [] {
      assert s.out + [] == s.out;
    } else {
      var vals, rest := s.groups.entries.vals, keys[1..];
      DrainKeyWrites(s, keys[0]);
      DrainWrites(DrainKey(s, keys[0]), rest);
      SummariesOfOthers(vals, rest, keys[0]);
      ConcatAssociates(s.out, SummaryOf(vals[keys[0]]), SummariesOf(vals, rest));
    }
  }

  lemma {:induction false} DrainRemoves(s: State, keys: seq<string>, k: string)
    ensures k in DrainKeys(s, keys).groups.entries.vals <==> k in s.groups.entries.vals && k !in keys
    decreases |keys|
  {
    if keys != [] { DrainRemoves(DrainKey(s, keys[0]), keys[1..], k); }
  }

  lemma {:induction false} DrainSound(s: State, keys: seq<string>)
    requires Sound(s)
    ensures Sound(DrainKeys(s, keys))
    decreases |keys|
  {
    if keys != [] {
      RemoveValid(s.groups.entries, keys[0]);
      DrainSound(DrainKey(s, keys[0]), keys[1..]);
    }
  }

  /** flush() sums up each group of at least two errors, oldest first, and leaves no group behind. */
  lemma FlushSumsUp(s: State)
    requires Sound(s)
    ensures var s' := FlushSummaries(s);
            && s'.out == s.out + SummariesOf(s.groups.entries.vals, s.groups.entries.keys)
            && s'.groups.entries.vals == map[] && Sound(s')
  {
    DrainWrites(s, s.groups.entries.keys);
    DrainSound(s, s.groups.entries.keys);
    forall k ensures k !in FlushSummaries(s).groups.entries.vals {
      DrainRemoves(s, s.groups.entries.keys, k);
    }
  }

  // ----- a push -----

  lemma {:induction false} PlainsAt(entries: seq<Entry>)
    ensures |Plains(entries)| == |entries|
    ensures forall i :: 0 <= i < |entries| ==> Plains(entries)[i] == Plain(entries[i])
    decreases |entries|
  {
    if entries != [] { PlainsAt(entries[1..]); }
  }

  /** What an observation writes: nothing, that the storm begins, or the summaries and that it is over. */
  lemma ObserveWrites(c: Config, s: State, entries: seq<Entry>, now: real)
    requires Sound(s)
    ensures var s' := Observe(c, s, entries, now);
            var was, on := s.storm.throttled, s'.storm.throttled;
            && Sound(s')
            && s'.out == s.out + (if was == on then []
                                  else if on then [StormBegins]
                                  else SummariesOf(s.groups.entries.vals, s.groups.entries.keys) + [StormOver])
            && (was && !on ==> s'.groups.entries.vals == map[])
            && (was == on || on ==> s'.groups == s.groups)
  {
    var u := Updated(c, s, entries, now);
    assert s.out + [] == s.out;
    if s.storm.throttled && !u.storm.throttled {
      FlushSumsUp(u);
      DrainOnlyWrites(u, u.groups.entries.keys);
      ConcatAssociates(s.out, SummariesOf(s.groups.entries.vals, s.groups.entries.keys), [StormOver]);
    }
  }

  /**
   * What a push writes, in order. Outside a storm: every entry. When one begins: the notice, and every entry.
   * When it ends: the summaries, the notice, and every entry. During it: the entries that pass.
   */
  lemma PushWrites(c: Config, s: State, entries: seq<Entry>, draws: seq<real>, now: real)
    requires |draws| == |entries| && Sound(s)
    ensures var s' := Step(c, s, Push(entries, draws, now));
            var was, on := s.storm.throttled, s'.storm.throttled;
            var all := seq(|entries|, i requires 0 <= i < |entries| => Plain(entries[i]));
            && Sound(s')
            && (!was && !on ==> s'.out == s.out + all)
            && (!was && on ==> s'.out == s.out + [StormBegins] + all)
            && (was && !on ==>
                  && s'.out == s.out + (SummariesOf(s.groups.entries.vals, s.groups.entries.keys) + [StormOver]) + all
                  && s'.groups.entries.vals == map[])
            && (was && on ==> s'.out == s.out + Passed(c, entries, draws))
  {
    var all := seq(|entries|, i requires 0 <= i < |entries| => Plain(entries[i]));
    PlainsAt(entries);
    assert Plains(entries) == all;
    var o := Observe(c, s, entries, now);
    ObserveWrites(c, s, entries, now);
    assert s.out + [] == s.out;
    if s.storm.throttled && o.storm.throttled {
      PassOnlyWrites(c, o, entries, draws);
      PassAllWrites(c, o, entries, draws);
      PassAllGroups(c, o, entries, draws, "");
    }
  }

  /**
   * During a storm every error is counted: it joins its group or starts one. As long as the table has room for all
   * of them, each group grows by exactly the errors of its key.
   */
  lemma ErrorsAreCounted(c: Config, s: State, entries: seq<Entry>, draws: seq<real>, now: real, key: string)
    requires |draws| == |entries| && Sound(s)
    requires s.storm.throttled && Step(c, s, Push(entries, draws, now)).storm.throttled
    ensures var s' := Step(c, s, Push(entries, draws, now));
            var before, after := s.groups.counters, s'.groups.counters;
            && after.absorbed + after.started == before.absorbed + before.started + Errors(entries)
            && after.evicted >= before.evicted
            && (after.evicted == before.evicted ==>
                  CountOf(s'.groups, key) == CountOf(s.groups, key) + ErrorsOf(entries, key))
  {
    var o := Observe(c, s, entries, now);
    ObserveWrites(c, s, entries, now);
    PassOnlyWrites(c, o, entries, draws);
    PassAllGroups(c, o, entries, draws, key);
  }

  /** Over any run the table of groups is a proper one of at most 500. */
  lemma {:induction false} RunIsSound(c: Config, s: State, events: seq<Event>)
    requires Sound(s)
    ensures Sound(Run(c, s, events))
    decreases |events|
  {
    if events != [] {
      var e := events[0];
      if e.Flush? {
        FlushSumsUp(s);
      } else if |e.draws| == |e.entries| {
        PushWrites(c, s, e.entries, e.draws, e.now);
      }
      RunIsSound(c, Step(c, s, e), events[1..]);
    }
  }

  // ----- the window -----

  /** The error and fatal entries pushed at `start` or later. */
  function ErrorsSince(events: seq<Event>, start: real): nat
    decreases |events|
  {
    if events == [] then 0
    else
      var e := events[0];
      (if e.Push? && |e.draws| == |e.entries| && e.now >= start then Errors(e.entries) else 0)
      + ErrorsSince(events[1..], start)
  }

  lemma {:induction false} NotBeforeConcat(a: seq<real>, b: seq<real>, start: real)
    ensures NotBefore(a + b, start) == NotBefore(a, start) + NotBefore(b, start)
    decreases |a|
  {
    if a == [] {
      assert a + b == b;
    } else {
      TailOfConcat(a, b);
      NotBeforeConcat(a[1..], b, start);
      ConcatAssociates(if a[0] >= start then [a[0]] else [], NotBefore(a[1..], start), NotBefore(b, start));
    }
  }

  lemma {:induction false} StampsCountErrors(entries: seq<Entry>, now: real, start: real)
    ensures |NotBefore(Stamps(entries, now), start)| == if now >= start then Errors(entries) else 0
    decreases |entries|
  {
    if entries != [] {
      StampsCountErrors(entries[1..], now, start);
      var head := if IsError(entries[0]) then [now] else [];
      NotBeforeConcat(head, Stamps(entries[1..], now), start);
      assert [now][1..] == [];
    }
  }

  lemma {:induction false} AllStampsCountErrors(events: seq<Event>, start: real)
    ensures |NotBefore(AllStamps(events), start)| == ErrorsSince(events, start)
    decreases |events|
  {
    if events != [] {
      AllStampsCountErrors(events[1..], start);
      NotBeforeConcat(EventStamps(events[0]), AllStamps(events[1..]), start);
      if events[0].Push? && |events[0].draws| == |events[0].entries| {
        StampsCountErrors(events[0].entries, events[0].now, start);
      }
    }
  }

  /** With a clock that never runs backwards, the window holds as many stamps as errors were pushed within it. */
  lemma WindowCountsErrors(c: Config, events: seq<Event>)
    requires Monotone(None, events)
    ensures var s := Run(c, Initial(), events);
            Last(s).Some? ==> |s.storm.errors| == ErrorsSince(events, Last(s).value - c.windowMs)
  {
    var s := Run(c, Initial(), events);
    WindowAndNotices(c, events);
    if Last(s).Some? { AllStampsCountErrors(events, Last(s).value - c.windowMs); }
  }
}
