/**
 * Duplicate collapsing of src/writer/repeat.writer.ts: the first entry of a group is
 * written at once, later ones are counted, and the count is written as one summary.
 */
module Repeat {
  import opened Sequences
  import opened Entries
  import opened OrderedMap
  import opened GroupCounting
  import L = Lru

  /** What the inner transport receives: an entry, or `countSummary(entry, count)`. */
  datatype Output = Plain(entry: Entry) | Summary(entry: Entry, count: int)

  datatype Window = Window(entry: Entry, timer: int)

  type Live = Group<Window>

  /** `armed` are the window timers that have neither fired nor been stopped, with the key each flushes. */
  datatype State = State(
    groups: Groups<string, Window>, armed: map<int, string>, nextTimer: int, closed: bool, out: seq<Output>)

  datatype Event = Push(entry: Entry) | Fire(timer: int) | Flush | Close

  const NUL: string := "\0"

  /** The parts with a NUL between each two. */
  function Joined(parts: seq<string>, from: nat): string
    requires from < |parts|
    decreases |parts| - from
  {
    if from + 1 == |parts| then parts[from] else parts[from] + NUL + Joined(parts, from + 1)
  }

  function RepeatKey(entry: Entry): string {
    Joined([LevelName(entry.level), entry.author, entry.message, entry.fingerprint], 0)
  }

  function Initial(): State {
    State(Groups(Map([], map[]), Counters(0, 0, 0, 0, 0)), map[], 0, false, [])
  }

  function WriteSummary(out: seq<Output>, group: Live): seq<Output> {
    if group.count <= 1 then out else out + [Summary(group.payload.entry, group.count)]
  }

  /** Stop the group's timer and write its summary. */
  function Release(s: State, group: Live): State {
    s.(armed := s.armed - {group.payload.timer}, out := WriteSummary(s.out, group))
  }

  /** First occurrence of `key`: write it, arm a timer, start a group, and release whom that evicts. */
  function Begin(s: State, maxKeys: int, key: string, entry: Entry): State {
    var entries := s.groups.entries;
    var victim := L.Victim(entries, maxKeys, key);
    var s' := s.(groups := Start(s.groups, maxKeys, key, Group(1, Window(entry, s.nextTimer))),
                 armed := s.armed[s.nextTimer := key],
                 nextTimer := s.nextTimer + 1,
                 out := s.out + [Plain(entry)]);
    if victim.Some? && victim.value in entries.vals then Release(s', entries.vals[victim.value]) else s'
  }

  function PushEntry(s: State, maxKeys: int, entry: Entry): State {
    var key := RepeatKey(entry);
    if s.closed then s
    else if key in s.groups.entries.vals then s.(groups := Absorb(s.groups, key))
    else Begin(s, maxKeys, key, entry)
  }

  function FlushGroup(s: State, key: string): State {
    if key !in s.groups.entries.vals then s
    else Release(s.(groups := Take(s.groups, key)), s.groups.entries.vals[key])
  }

  function DrainKey(s: State, key: string): State {
    var s' := s.(groups := DrainOne(s.groups, key));
    if key in s.groups.entries.vals then Release(s', s.groups.entries.vals[key]) else s'
  }

  function DrainKeys(s: State, keys: seq<string>): State
    decreases |keys|
  {
    if keys == [] then s else DrainKeys(DrainKey(s, keys[0]), keys[1..])
  }

  function DrainAll(s: State): State {
    DrainKeys(s, s.groups.entries.keys)
  }

  /** A timer that was stopped never fires. */
  function Step(s: State, maxKeys: int, e: Event): State {
    match e
    case Push(entry) => PushEntry(s, maxKeys, entry)
    case Fire(timer) => if timer in s.armed then FlushGroup(s.(armed := s.armed - {timer}), s.armed[timer]) else s
    case Flush => DrainAll(s)
    case Close => if s.closed then s else DrainAll(s.(closed := true))
  }

  function Run(s: State, maxKeys: int, events: seq<Event>): State
    decreases |events|
  {
    if events == [] then s else Run(Step(s, maxKeys, events[0]), maxKeys, events[1..])
  }

  function Pushes(entries: seq<Entry>): seq<Event> {
    if entries == [] then [] else [Push(entries[0])] + Pushes(entries[1..])
  }

  lemma {:induction false} ClosedIgnoresPushes(s: State, maxKeys: int, entries: seq<Entry>)
    requires s.closed
    ensures Run(s, maxKeys, Pushes(entries)) == s
    decreases |entries|
  {
    if entries != [] {
      assert Pushes(entries)[1..] == Pushes(entries[1..]);
      ClosedIgnoresPushes(s, maxKeys, entries[1..]);
    }
  }

  // ----- no count is lost -----

  /** Entries an output stands for beyond those already written: 1 for an entry, N - 1 for a summary of N. */
  function Weight(o: Output, key: string): int {
    if RepeatKey(o.entry) != key then 0 else if o.Plain? then 1 else o.count - 1
  }

  function Written(out: seq<Output>, key: string): int {
    if out == [] then 0 else Written(out[..|out| - 1], key) + Weight(out[|out| - 1], key)
  }

  function Pending(entries: Map<string, Live>, key: string): int {
    if key in entries.vals then entries.vals[key].count - 1 else 0
  }

  /** Entries of `key` accounted for so far. */
  function Accounted(s: State, key: string): int {
    Written(s.out, key) + Pending(s.groups.entries, key)
  }

  /** Entries of `key` pushed while the transport was open, read off the calls alone. */
  function Pushed(closed: bool, events: seq<Event>, key: string): int
    decreases |events|
  {
    if events == [] then 0
    else (if events[0].Push? && !closed && RepeatKey(events[0].entry) == key then 1 else 0)
         + Pushed(closed || events[0].Close?, events[1..], key)
  }

  /** Each live group owns one armed timer, and no other timer is armed. */
  ghost predicate TimersMatch(vals: map<string, Live>, armed: map<int, string>, next: int) {
    && (forall k :: k in vals ==> vals[k].payload.timer in armed && armed[vals[k].payload.timer] == k)
    && (forall t :: t in armed ==> armed[t] in vals && vals[armed[t]].payload.timer == t && t < next)
  }

  predicate GroupOf(key: string, group: Live) {
    group.count >= 1 && RepeatKey(group.payload.entry) == key
  }

  ghost predicate KeysMatch(vals: map<string, Live>) {
    forall k :: k in vals ==> GroupOf(k, vals[k])
  }

  ghost predicate Inv(s: State, maxKeys: int) {
    var vals := s.groups.entries.vals;
    && maxKeys >= 1 && Balanced(s.groups) && |s.groups.entries.keys| <= maxKeys
    && KeysMatch(vals) && TimersMatch(vals, s.armed, s.nextTimer)
  }

  lemma TimersRemove(vals: map<string, Live>, armed: map<int, string>, next: int, k: string)
    requires TimersMatch(vals, armed, next) && k in vals
    ensures TimersMatch(vals - {k}, armed - {vals[k].payload.timer}, next)
  {
  }

  lemma TimersAdd(vals: map<string, Live>, armed: map<int, string>, next: int, k: string, group: Live)
    requires TimersMatch(vals, armed, next) && k !in vals && group.payload.timer == next
    ensures TimersMatch(vals[k := group], armed[next := k], next + 1)
  {
  }

  lemma UpdateKeeps(vals: map<string, Live>, armed: map<int, string>, next: int, k: string, group: Live)
    requires KeysMatch(vals) && GroupOf(k, group)
    ensures KeysMatch(vals[k := group])
    ensures TimersMatch(vals, armed, next) && k in vals && vals[k].payload.timer == group.payload.timer ==>
              TimersMatch(vals[k := group], armed, next)
  {
  }

  lemma WrittenAppend(out: seq<Output>, o: Output, key: string)
    ensures Written(out + [o], key) == Written(out, key) + Weight(o, key)
  {
    assert (out + [o])[..|out|] == out;
  }

  lemma SummaryWeight(out: seq<Output>, group: Live, k: string, key: string)
    requires GroupOf(k, group)
    ensures Written(WriteSummary(out, group), key) == Written(out, key) + if k == key then group.count - 1 else 0
  {
    WrittenAppend(out, Summary(group.payload.entry, group.count), key);
  }

  /** Removing a live group and releasing it moves its count from the table to the output. */
  lemma ReleaseKeeps(s: State, maxKeys: int, k: string, groups: Groups<string, Window>, key: string)
    requires Inv(s, maxKeys) && k in s.groups.entries.vals
    requires Balanced(groups) && groups.entries == Remove(s.groups.entries, k)
    ensures var s' := Release(s.(groups := groups), s.groups.entries.vals[k]);
            Inv(s', maxKeys) && Accounted(s', key) == Accounted(s, key) && s'.closed == s.closed
  {
    var group := s.groups.entries.vals[k];
    assert GroupOf(k, group);
    RemoveValid(s.groups.entries, k);
    SummaryWeight(s.out, group, k, key);
    TimersRemove(s.groups.entries.vals, s.armed, s.nextTimer, k);
  }

  lemma DrainKeyKeeps(s: State, maxKeys: int, k: string, key: string)
    requires Inv(s, maxKeys)
    ensures var s' := DrainKey(s, k);
            Inv(s', maxKeys) && Accounted(s', key) == Accounted(s, key) && s'.closed == s.closed
  {
    RemovalsKeepBalance(s.groups, k);
    if k in s.groups.entries.vals {
      ReleaseKeeps(s, maxKeys, k, DrainOne(s.groups, k), key);
    } else {
      RemoveValid(s.groups.entries, k);
      assert Remove(s.groups.entries, k) == s.groups.entries;
    }
  }

  lemma {:induction false} DrainKeysKeeps(s: State, maxKeys: int, keys: seq<string>, key: string)
    requires Inv(s, maxKeys)
    ensures var s' := DrainKeys(s, keys);
            && Inv(s', maxKeys) && Accounted(s', key) == Accounted(s, key) && s'.closed == s.closed
            && (forall k :: k in s'.groups.entries.vals <==> k in s.groups.entries.vals && k !in keys)
    decreases |keys|
  {
    if keys != [] {
      DrainKeyKeeps(s, maxKeys, keys[0], key);
      DrainKeysKeeps(DrainKey(s, keys[0]), maxKeys, keys[1..], key);
      assert forall k :: k in keys <==> k == keys[0] || k in keys[1..];
    }
  }

  /** flush() and close() leave no group and no timer behind. */
  lemma DrainAllEmpties(s: State, maxKeys: int, key: string)
    requires Inv(s, maxKeys)
    ensures var s' := DrainAll(s);
            && Inv(s', maxKeys) && Accounted(s', key) == Accounted(s, key) && s'.closed == s.closed
            && s'.groups.entries.vals == map[] && s'.armed == map[]
  {
    DrainKeysKeeps(s, maxKeys, s.groups.entries.keys, key);
    var s' := DrainAll(s);
    assert forall k :: k !in s'.groups.entries.vals;
    assert forall t :: t !in s'.armed;
  }

  lemma AbsorbKeeps(s: State, maxKeys: int, k: string, key: string)
    requires Inv(s, maxKeys) && k in s.groups.entries.vals
    ensures var s' := s.(groups := Absorb(s.groups, k));
            Inv(s', maxKeys) && Accounted(s', key) == Accounted(s, key) + if k == key then 1 else 0
  {
    var group := s.groups.entries.vals[k];
    var bumped := group.(count := group.count + 1);
    var s' := s.(groups := Absorb(s.groups, k));
    RemovalsKeepBalance(s.groups, k);
    TouchShape(s.groups.entries, k, bumped);
    TouchValid(s.groups.entries, k, bumped);
    assert s'.groups.entries.vals == s.groups.entries.vals[k := bumped];
    assert GroupOf(k, group) && GroupOf(k, bumped);
    UpdateKeeps(s.groups.entries.vals, s.armed, s.nextTimer, k, bumped);
  }

  /** Adding a group for an absent key while there is room. */
  lemma AddKeeps(s: State, maxKeys: int, k: string, entry: Entry, groups: Groups<string, Window>, key: string)
    requires Inv(s, maxKeys) && k !in s.groups.entries.vals && |s.groups.entries.keys| < maxKeys
    requires RepeatKey(entry) == k
    requires Balanced(groups) && groups.entries == Touch(s.groups.entries, k, Group(1, Window(entry, s.nextTimer)))
    ensures var s' := s.(groups := groups, armed := s.armed[s.nextTimer := k], nextTimer := s.nextTimer + 1);
            Inv(s', maxKeys) && Accounted(s', key) == Accounted(s, key)
  {
    var group := Group(1, Window(entry, s.nextTimer));
    TouchShape(s.groups.entries, k, group);
    TouchValid(s.groups.entries, k, group);
    assert groups.entries.vals == s.groups.entries.vals[k := group] && GroupOf(k, group);
    TimersAdd(s.groups.entries.vals, s.armed, s.nextTimer, k, group);
    UpdateKeeps(s.groups.entries.vals, s.armed, s.nextTimer, k, group);
  }

  /** The groups once `v` has been pushed out. */
  function Evict(g: Groups<string, Window>, v: string): Groups<string, Window> {
    Groups(Remove(g.entries, v), g.counters.(evicted := g.counters.evicted + 1))
  }

  /** Starting a group and then releasing the one it pushed out is the same the other way round. */
  lemma ReleaseCommutes(s: State, started: Groups<string, Window>, k: string, v: string)
    requires v in s.groups.entries.vals && s.groups.entries.vals[v].payload.timer < s.nextTimer
    ensures var victim := s.groups.entries.vals[v];
            var s1 := Release(s.(groups := Evict(s.groups, v)), victim);
            Release(s.(groups := started, armed := s.armed[s.nextTimer := k], nextTimer := s.nextTimer + 1), victim)
            == s1.(groups := started, armed := s1.armed[s1.nextTimer := k], nextTimer := s1.nextTimer + 1)
  {
    var t := s.groups.entries.vals[v].payload.timer;
    assert s.armed[s.nextTimer := k] - {t} == (s.armed - {t})[s.nextTimer := k];
  }

  lemma EvictKeeps(s: State, maxKeys: int, k: string, entry: Entry, v: string, key: string)
    requires Inv(s, maxKeys) && k !in s.groups.entries.vals && RepeatKey(entry) == k
    requires L.Victim(s.groups.entries, maxKeys, k) == Some(v) && v in s.groups.entries.vals
    requires Balanced(Start(s.groups, maxKeys, k, Group(1, Window(entry, s.nextTimer))))
    ensures var started := Start(s.groups, maxKeys, k, Group(1, Window(entry, s.nextTimer)));
            var s' := Release(s.(groups := started, armed := s.armed[s.nextTimer := k], nextTimer := s.nextTimer + 1),
                              s.groups.entries.vals[v]);
            Inv(s', maxKeys) && Accounted(s', key) == Accounted(s, key)
  {
    var started := Start(s.groups, maxKeys, k, Group(1, Window(entry, s.nextTimer)));
    RemoveValid(s.groups.entries, v);
    ReleaseKeeps(s, maxKeys, v, Evict(s.groups, v), key);
    AddKeeps(Release(s.(groups := Evict(s.groups, v)), s.groups.entries.vals[v]), maxKeys, k, entry, started, key);
    ReleaseCommutes(s, started, k, v);
  }

  lemma BeginKeeps(s: State, maxKeys: int, entry: Entry, k: string, key: string)
    requires Inv(s, maxKeys) && RepeatKey(entry) == k && k !in s.groups.entries.vals
    ensures var s' := Begin(s, maxKeys, k, entry);
            Inv(s', maxKeys) && Accounted(s', key) == Accounted(s, key) + if k == key then 1 else 0
  {
    var s0 := s.(out := s.out + [Plain(entry)]);
    var victim := L.Victim(s.groups.entries, maxKeys, k);
    var group := Group(1, Window(entry, s.nextTimer));
    WrittenAppend(s.out, Plain(entry), key);
    assert Inv(s0, maxKeys);
    StartBalancedIff(s.groups, maxKeys, k, group);
    if victim.None? {
      AddKeeps(s0, maxKeys, k, entry, Start(s.groups, maxKeys, k, group), key);
    } else {
      assert victim.value in s.groups.entries.keys;
      EvictKeeps(s0, maxKeys, k, entry, victim.value, key);
    }
  }

  lemma FireKeeps(s: State, maxKeys: int, timer: int, key: string)
    requires Inv(s, maxKeys) && timer in s.armed
    ensures var s' := Step(s, maxKeys, Fire(timer));
            Inv(s', maxKeys) && Accounted(s', key) == Accounted(s, key) && s'.closed == s.closed
  {
    var k := s.armed[timer];
    RemovalsKeepBalance(s.groups, k);
    ReleaseKeeps(s, maxKeys, k, Take(s.groups, k), key);
    assert s.armed - {timer} - {timer} == s.armed - {timer};
  }

  lemma StepKeeps(s: State, maxKeys: int, e: Event, key: string)
    requires Inv(s, maxKeys)
    ensures var s' := Step(s, maxKeys, e);
            && Inv(s', maxKeys) && s'.closed == (s.closed || e.Close?)
            && Accounted(s', key) == Accounted(s, key) + Pushed(s.closed, [e], key)
  {
    assert Pushed(s.closed, [e], key) == if e.Push? && !s.closed && RepeatKey(e.entry) == key then 1 else 0;
    match e
    case Push(entry) =>
      if !s.closed {
        if RepeatKey(entry) in s.groups.entries.vals {
          AbsorbKeeps(s, maxKeys, RepeatKey(entry), key);
        } else {
          BeginKeeps(s, maxKeys, entry, RepeatKey(entry), key);
        }
      }
    case Fire(timer) => if timer in s.armed { FireKeeps(s, maxKeys, timer, key); }
    case Flush => DrainAllEmpties(s, maxKeys, key);
    case Close => if !s.closed { DrainAllEmpties(s.(closed := true), maxKeys, key); }
  }

  lemma {:induction false} RunKeeps(s: State, maxKeys: int, events: seq<Event>, key: string)
    requires Inv(s, maxKeys)
    ensures var s' := Run(s, maxKeys, events);
            Inv(s', maxKeys) && Accounted(s', key) == Accounted(s, key) + Pushed(s.closed, events, key)
    decreases |events|
  {
    if events != [] {
      StepKeeps(s, maxKeys, events[0], key);
      RunKeeps(Step(s, maxKeys, events[0]), maxKeys, events[1..], key);
    }
  }

  /**
   * Over any run, through evictions, window timers, flush and close: the entries pushed
   * while open under a key are those written, plus N - 1 for each summary of N, plus what
   * the live group still holds. Live groups and armed timers correspond one to one.
   */
  lemma NoCountIsLost(maxKeys: int, events: seq<Event>, key: string)
    requires maxKeys >= 1
    ensures var s := Run(Initial(), maxKeys, events);
            var vals := s.groups.entries.vals;
            && Written(s.out, key) + (if key in vals then vals[key].count - 1 else 0) == Pushed(false, events, key)
            && (forall k :: k in vals ==> vals[k].payload.timer in s.armed && s.armed[vals[k].payload.timer] == k)
            && (forall t :: t in s.armed ==> s.armed[t] in vals && vals[s.armed[t]].payload.timer == t)
            && Balanced(s.groups)
  {
    RunKeeps(Initial(), maxKeys, events, key);
  }

  /** A first occurrence is written at once; a duplicate only bumps its group; a closed transport ignores both. */
  lemma PushIsExact(s: State, maxKeys: int, entry: Entry)
    requires Inv(s, maxKeys)
    ensures var s' := Step(s, maxKeys, Push(entry));
            var key := RepeatKey(entry);
            var vals, vals' := s.groups.entries.vals, s'.groups.entries.vals;
            if s.closed then s' == s
            else if key in vals then
              s'.out == s.out && key in vals' && vals'[key] == vals[key].(count := vals[key].count + 1)
            else
              && s.out + [Plain(entry)] <= s'.out
              && key in vals' && vals'[key].count == 1 && vals'[key].payload.entry == entry
  {
    var key, entries := RepeatKey(entry), s.groups.entries;
    if !s.closed {
      if key in entries.vals {
        TouchShape(entries, key, entries.vals[key].(count := entries.vals[key].count + 1));
      } else {
        TouchShape(entries, key, Group(1, Window(entry, s.nextTimer)));
        if |entries.keys| > 0 {
          TouchShape(Remove(entries, entries.keys[0]), key, Group(1, Window(entry, s.nextTimer)));
        }
      }
    }
  }

  /** After flush() or close() nothing is pending: the output accounts for every entry pushed. */
  lemma FlushAccountsForEverything(maxKeys: int, events: seq<Event>, key: string)
    requires maxKeys >= 1
    ensures Written(Run(Initial(), maxKeys, events + [Flush]).out, key) == Pushed(false, events, key)
    ensures Run(Initial(), maxKeys, events + [Flush]).armed == map[]
  {
    RunKeeps(Initial(), maxKeys, events, key);
    RunAppend(Initial(), maxKeys, events, Flush);
    DrainAllEmpties(Run(Initial(), maxKeys, events), maxKeys, key);
  }

  lemma {:induction false} RunAppend(s: State, maxKeys: int, events: seq<Event>, e: Event)
    ensures Run(s, maxKeys, events + [e]) == Step(Run(s, maxKeys, events), maxKeys, e)
    decreases |events|
  {
    if events == [] {
      assert events + [e] == [e];
      assert Run(Step(s, maxKeys, e), maxKeys, []) == Step(s, maxKeys, e);
    } else {
      assert (events + [e])[1..] == events[1..] + [e];
      RunAppend(Step(s, maxKeys, events[0]), maxKeys, events[1..], e);
    }
  }
}
