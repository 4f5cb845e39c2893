/** What the repeat collapser writes, entry by entry and summary by summary. */
module RepeatOutputs {
  import opened Sequences
  import opened Entries
  import opened OrderedMap
  import opened GroupCounting
  import opened Repeat

  /** A group is summed up if it stands for more than the entry already written. */
  function SummaryOf(group: Live): seq<Output> {
    if group.count >= 2 then [Summary(group.payload.entry, group.count)] else []
  }

  /** The summaries of the groups under `keys`, oldest first. */
  function SummariesOf(vals: map<string, Live>, keys: seq<string>): seq<Output>
    requires forall k :: k in keys ==> k in vals
  {
    if keys == [] then [] else SummaryOf(vals[keys[0]]) + SummariesOf(vals, keys[1..])
  }

  lemma {:induction false} SummariesOfOthers(vals: map<string, Live>, keys: seq<string>, k: string)
    requires k !in keys && forall x :: x in keys ==> x in vals
    ensures SummariesOf(vals - {k}, keys) == SummariesOf(vals, keys)
    decreases |keys|
  {
    if keys != [] { SummariesOfOthers(vals, keys[1..], k); }
  }

  lemma DrainKeyWrites(s: State, k: string)
    requires k in s.groups.entries.vals
    ensures DrainKey(s, k).out == s.out + SummaryOf(s.groups.entries.vals[k])
    ensures DrainKey(s, k).groups.entries.vals == s.groups.entries.vals - {k}
  {
  }

  lemma {:induction false} DrainWrites(s: State, keys: seq<string>)
    requires Distinct(keys) && forall k :: k in keys ==> k in s.groups.entries.vals
    ensures DrainKeys(s, keys).out == s.out + SummariesOf(s.groups.entries.vals, keys)
    decreases |keys|
  {
    if keys == [] {
      assert s.out + [] == s.out;
    } else {
      var vals, rest := s.groups.entries.vals, keys[1..];
      DrainKeyWrites(s, keys[0]);
      DrainWrites(DrainKey(s, keys[0]), rest);
      SummariesOfOthers(vals, rest, keys[0]);
      ConcatAssociates(s.out, SummaryOf(vals[keys[0]]), SummariesOf(vals, rest));
    }
  }

  /** flush() writes one summary for each group that repeats its entry, oldest group first, and nothing else. */
  lemma FlushWritesSummaries(s: State, maxKeys: int)
    requires Inv(s, maxKeys)
    ensures Step(s, maxKeys, Flush).out == s.out + SummariesOf(s.groups.entries.vals, s.groups.entries.keys)
  {
    DrainWrites(s, s.groups.entries.keys);
  }

  /** So does the first close(); a second one writes nothing. */
  lemma CloseWritesSummaries(s: State, maxKeys: int)
    requires Inv(s, maxKeys)
    ensures Step(s, maxKeys, Close).out
            == s.out + if s.closed then [] else SummariesOf(s.groups.entries.vals, s.groups.entries.keys)
  {
    if s.closed {
      assert s.out + [] == s.out;
    } else {
      DrainWrites(s.(closed := true), s.groups.entries.keys);
    }
  }

  /** A window timer that fires ends its own group with its summary, and leaves the others alone. */
  lemma TimerEndsGroup(s: State, maxKeys: int, timer: int)
    requires Inv(s, maxKeys) && timer in s.armed
    ensures var s', k := Step(s, maxKeys, Fire(timer)), s.armed[timer];
            var vals := s.groups.entries.vals;
            && k in vals && vals[k].payload.timer == timer && s'.out == s.out + SummaryOf(vals[k])
            && s'.groups.entries.vals == vals - {k} && s'.armed == s.armed - {timer}
  {
  }

  /**
   * A first occurrence is written at once. If the table is full it also ends the least recently repeated group,
   * whose summary follows.
   */
  lemma FirstOccurrenceWrites(s: State, maxKeys: int, entry: Entry)
    requires Inv(s, maxKeys) && !s.closed && RepeatKey(entry) !in s.groups.entries.vals
    ensures var s', keys, vals := Step(s, maxKeys, Push(entry)), s.groups.entries.keys, s.groups.entries.vals;
            if |keys| < maxKeys then s'.out == s.out + [Plain(entry)] && vals.Keys <= s'.groups.entries.vals.Keys
            else
              && |keys| > 0 && keys[0] in vals && keys[0] !in s'.groups.entries.vals
              && s'.out == s.out + [Plain(entry)] + SummaryOf(vals[keys[0]])
  {
    var entries := s.groups.entries;
    var group := Group(1, Window(entry, s.nextTimer));
    TouchShape(entries, RepeatKey(entry), group);
    if |entries.keys| >= maxKeys {
      assert entries.keys[0] in entries.keys;
      TouchShape(Remove(entries, entries.keys[0]), RepeatKey(entry), group);
    }
  }

  ghost predicate SumsUp(out: seq<Output>) {
    forall i :: 0 <= i < |out| && out[i].Summary? ==> out[i].count >= 2
  }

  lemma {:induction false} SummariesSumUp(vals: map<string, Live>, keys: seq<string>)
    requires forall k :: k in keys ==> k in vals
    ensures SumsUp(SummariesOf(vals, keys))
    decreases |keys|
  {
    if keys != [] { SummariesSumUp(vals, keys[1..]); }
  }

  lemma SumsUpConcat(a: seq<Output>, b: seq<Output>)
    requires SumsUp(a) && SumsUp(b)
    ensures SumsUp(a + b)
  {
  }

  lemma PushSumsUp(s: State, maxKeys: int, entry: Entry)
    requires Inv(s, maxKeys) && SumsUp(s.out)
    ensures SumsUp(Step(s, maxKeys, Push(entry)).out)
  {
    if !s.closed && RepeatKey(entry) !in s.groups.entries.vals {
      FirstOccurrenceWrites(s, maxKeys, entry);
      SumsUpConcat(s.out, [Plain(entry)]);
      if |s.groups.entries.keys| >= maxKeys {
        SumsUpConcat(s.out + [Plain(entry)], SummaryOf(s.groups.entries.vals[s.groups.entries.keys[0]]));
      }
    }
  }

  lemma StepSumsUp(s: State, maxKeys: int, e: Event)
    requires Inv(s, maxKeys) && SumsUp(s.out)
    ensures SumsUp(Step(s, maxKeys, e).out)
  {
    SummariesSumUp(s.groups.entries.vals, s.groups.entries.keys);
    match e
    case Push(entry) => PushSumsUp(s, maxKeys, entry);
    case Fire(timer) => if timer in s.armed { TimerEndsGroup(s, maxKeys, timer); }
    case Flush => FlushWritesSummaries(s, maxKeys);
    case Close => CloseWritesSummaries(s, maxKeys);
  }

  lemma {:induction false} RunSumsUp(s: State, maxKeys: int, events: seq<Event>)
    requires Inv(s, maxKeys) && SumsUp(s.out)
    ensures SumsUp(Run(s, maxKeys, events).out)
    decreases |events|
  {
    if events != [] {
      StepKeeps(s, maxKeys, events[0], "");
      StepSumsUp(s, maxKeys, events[0]);
      RunSumsUp(Step(s, maxKeys, events[0]), maxKeys, events[1..]);
    }
  }

  /** Over any run a summary is written only for an entry that came at least twice. */
  lemma NoEmptySummaries(maxKeys: int, events: seq<Event>)
    requires maxKeys >= 1
    ensures var out := Run(Initial(), maxKeys, events).out;
            forall i :: 0 <= i < |out| && out[i].Summary? ==> out[i].count >= 2
  {
    RunSumsUp(Initial(), maxKeys, events);
  }

  /** Every accepted push moves its group to the recent end, behind the others in their order. */
  lemma PushMovesToEnd(s: State, maxKeys: int, entry: Entry)
    requires Inv(s, maxKeys) && !s.closed
    ensures var s', k := Step(s, maxKeys, Push(entry)), RepeatKey(entry);
            var keys := s.groups.entries.keys;
            var kept := if k !in s.groups.entries.vals && |keys| >= maxKeys && |keys| > 0 then keys[1..] else keys;
            s'.groups.entries.keys == Without(kept, k) + [k]
  {
    var entries, k := s.groups.entries, RepeatKey(entry);
    var group := if k in entries.vals then entries.vals[k].(count := entries.vals[k].count + 1)
                 else Group(1, Window(entry, s.nextTimer));
    TouchShape(entries, k, group);
    if k !in entries.vals && |entries.keys| >= maxKeys {
      FirstGone(entries.keys);
      TouchShape(Remove(entries, entries.keys[0]), k, group);
    }
  }

  lemma FirstGone(keys: seq<string>)
    requires Distinct(keys) && keys != []
    ensures Without(keys, keys[0]) == keys[1..]
  {
  }
}
