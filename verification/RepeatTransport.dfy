/** The class of src/writer/repeat.writer.ts; every method is a step of module Repeat. */
module RepeatWriter {
  import opened Sequences
  import opened Entries
  import opened GroupCounting
  import R = Repeat

  class RepeatTransport {
    const groups: GroupCounter<string, R.Window>
    var closed: bool
    var armed: map<int, string> // window timers that may still fire
    var nextTimer: int
    var out: seq<R.Output>      // what the inner transport received

    ghost predicate Valid()
      reads this, groups, groups.groups
    {
      groups.Valid()
    }

    ghost function Model(): R.State
      reads this, groups, groups.groups
    {
      R.State(groups.Model(), armed, nextTimer, closed, out)
    }

    constructor (maxKeys: Option<int>)
      ensures Valid() && fresh(groups) && fresh(groups.groups) && Model() == R.Initial()
      ensures groups.groups.maxSize == Max(1, if maxKeys.Some? then maxKeys.value else 1000)
    {
      groups := new GroupCounter(if maxKeys.Some? then maxKeys.value else 1000);
      closed, armed, nextTimer, out := false, map[], 0, [];
    }

    method PushEntries(entries: seq<Entry>)
      requires Valid()
      modifies this, groups, groups.groups
      ensures Valid()
      ensures Model() == R.Run(old(Model()), groups.groups.maxSize, R.Pushes(entries))
    {
      ghost var maxKeys := groups.groups.maxSize;
      if closed {
        R.ClosedIgnoresPushes(Model(), maxKeys, entries);
        return;
      }
      for i := 0 to |entries|
        invariant Valid() && !closed
        invariant R.Run(old(Model()), maxKeys, R.Pushes(entries)) == R.Run(Model(), maxKeys, R.Pushes(entries[i..]))
      {
        assert entries[i..][0] == entries[i] && entries[i..][1..] == entries[i + 1..];
        assert R.Pushes(entries[i..])[1..] == R.Pushes(entries[i + 1..]);
        PushEntry(entries[i]);
      }
    }

    /** One round of the loop in pushEntries. */
    method PushEntry(entry: Entry)
      requires Valid() && !closed
      modifies this, groups, groups.groups
      ensures Valid() && Model() == R.PushEntry(old(Model()), groups.groups.maxSize, entry)
      ensures !closed
    {
      var key := R.RepeatKey(entry);
      ghost var before := Model();
      var absorbed := groups.AbsorbKey(key);
      if absorbed { return; }
      assert Model() == before;
      out := out + [R.Plain(entry)];
      var timer := nextTimer;
      nextTimer := nextTimer + 1;
      armed := armed[timer := key];
      var evicted := groups.StartGroup(key, Group(1, R.Window(entry, timer)));
      if evicted.Some? {
        ReleaseGroup(evicted.value.1);
      }
    }

    /** Stop the group's timer and write its summary. */
    method ReleaseGroup(group: R.Live)
      modifies `armed, `out
      ensures armed == old(armed) - {group.payload.timer} && out == R.WriteSummary(old(out), group)
    {
      armed := armed - {group.payload.timer};
      if group.count <= 1 { return; }
      out := out + [R.Summary(group.payload.entry, group.count)];
    }

    method DrainAll()
      requires Valid()
      modifies this, groups, groups.groups
      ensures Valid() && Model() == R.DrainAll(old(Model()))
    {
      var keys := groups.groups.entries.keys;
      for i := 0 to |keys|
        invariant Valid()
        invariant R.DrainKeys(old(Model()), keys) == R.DrainKeys(Model(), keys[i..])
      {
        assert keys[i..][0] == keys[i] && keys[i..][1..] == keys[i + 1..];
        DrainKey(keys[i]);
      }
    }

    /** One visit of the drain. */
    method DrainKey(key: string)
      requires Valid()
      modifies this, groups, groups.groups
      ensures Valid() && Model() == R.DrainKey(old(Model()), key)
    {
      var group := groups.DrainKey(key);
      if group.Some? {
        ReleaseGroup(group.value);
      }
    }

    method FlushGroup(key: string)
      requires Valid()
      modifies this, groups, groups.groups
      ensures Valid() && Model() == R.FlushGroup(old(Model()), key)
    {
      var group := groups.TakeGroup(key);
      if group.None? { return; }
      ReleaseGroup(group.value);
    }

    /** The callback of a window timer. */
    method OnTimer(timer: int)
      requires Valid() && timer in armed
      modifies this, groups, groups.groups
      ensures Valid() && Model() == R.Step(old(Model()), groups.groups.maxSize, R.Fire(timer))
    {
      var key := armed[timer];
      armed := armed - {timer};
      FlushGroup(key);
    }

    method Flush()
      requires Valid()
      modifies this, groups, groups.groups
      ensures Valid() && Model() == R.Step(old(Model()), groups.groups.maxSize, R.Flush)
    {
      DrainAll();
    }

    method Close()
      requires Valid()
      modifies this, groups, groups.groups
      ensures Valid() && Model() == R.Step(old(Model()), groups.groups.maxSize, R.Close)
    {
      if closed { return; }
      closed := true;
      DrainAll();
    }
  }
}
