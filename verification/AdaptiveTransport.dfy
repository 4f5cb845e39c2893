/** The class of src/writer/adaptive.writer.ts; every method is a step of module Adaptive. */
module AdaptiveWriter {
  import opened Sequences
  import opened Entries
  import opened GroupCounting
  import A = Adaptive

  class AdaptiveTransport {
    const config: A.Config
    const groups: GroupCounter<string, Entry>
    var errors: seq<real>
    var throttled: bool
    var cooldownStart: Option<real>
    var out: seq<A.Output> // what the inner transport received
    ghost var errorTimes: seq<real>
    ghost var observations: seq<A.Observation>

    ghost predicate Valid()
      reads this, groups, groups.groups
    {
      groups.Valid() && groups.groups.maxSize == A.MAX_GROUPS
    }

    ghost function Model(): A.State
      reads this, groups, groups.groups
    {
      A.State(A.Storm(errors, throttled, cooldownStart), groups.Model(), out, errorTimes, observations)
    }

    constructor (config: A.Config)
      ensures Valid() && fresh(groups) && fresh(groups.groups) && this.config == config && Model() == A.Initial()
    {
      this.config := config;
      groups := new GroupCounter(A.MAX_GROUPS);
      errors, throttled, cooldownStart, out := [], false, None, [];
      errorTimes, observations := [], [];
    }

    /** One stamp per error entry, then shift what is older than the window. */
    method TrackErrors(entries: seq<Entry>, now: real)
      modifies `errors
      ensures errors == A.Windowed(config, old(errors), entries, now)
    {
      for i := 0 to |entries|
        invariant errors + A.Stamps(entries[i..], now) == old(errors) + A.Stamps(entries, now)
      {
        assert entries[i..][0] == entries[i] && entries[i..][1..] == entries[i + 1..];
        if A.IsError(entries[i]) {
          errors := errors + [now];
        }
      }
      assert errors + A.Stamps(entries[|entries|..], now) == errors;
      var windowStart := now - config.windowMs;
      while |errors| > 0 && errors[0] < windowStart
        invariant A.DropOld(errors, windowStart) == A.Windowed(config, old(errors), entries, now)
        decreases |errors|
      {
        errors := errors[1..];
      }
    }

    method Observe(now: real, entries: seq<Entry>) returns (stormStarted: bool)
      requires Valid()
      modifies this, groups, groups.groups
      ensures Valid() && Model() == A.Observe(config, old(Model()), entries, now)
      ensures stormStarted == (!old(throttled) && throttled)
    {
      stormStarted := false;
      TrackErrors(entries, now);
      errorTimes := errorTimes + A.Stamps(entries, now);
      observations := observations + [A.Observation(now, |errors|)];
      if !throttled && |errors| >= config.errorRate {
        throttled := true;
        cooldownStart := None;
        stormStarted := true;
        out := out + [A.StormBegins];
      }
      if !throttled { return; }
      if |errors| >= config.errorRate {
        cooldownStart := None;
        return;
      }
      if cooldownStart.None? { cooldownStart := Some(now); }
      if now - cooldownStart.value >= config.cooldownMs {
        throttled := false;
        cooldownStart := None;
        assert Model() == A.Updated(config, old(Model()), entries, now);
        FlushGroupSummaries();
        out := out + [A.StormOver];
      }
    }

    method GroupError(entry: Entry)
      requires Valid()
      modifies this, groups, groups.groups
      ensures Valid() && Model() == A.GroupError(old(Model()), entry)
      ensures throttled == old(throttled)
    {
      var key := A.StormKey(entry);
      ghost var before := Model();
      var absorbed := groups.AbsorbKey(key);
      if absorbed { return; }
      assert Model() == before;
      var _ := groups.StartGroup(key, Group(1, entry));
    }

    /** `draws` are the values Math.random() gives, one per entry. */
    method PushEntries(entries: seq<Entry>, draws: seq<real>, now: real)
      requires Valid() && |draws| == |entries|
      modifies this, groups, groups.groups
      ensures Valid() && Model() == A.PushEntries(config, old(Model()), entries, draws, now)
    {
      var stormStarted := Observe(now, entries);
      if !throttled || stormStarted {
        WriteAll(entries);
      } else {
        PassAll(entries, draws);
      }
    }

    method WriteAll(entries: seq<Entry>)
      modifies `out
      ensures out == old(out) + A.Plains(entries)
    {
      for i := 0 to |entries|
        invariant out + A.Plains(entries[i..]) == old(out) + A.Plains(entries)
      {
        assert entries[i..][0] == entries[i] && entries[i..][1..] == entries[i + 1..];
        assert A.Plains(entries[i..]) == [A.Plain(entries[i])] + A.Plains(entries[i + 1..]);
        assert out + [A.Plain(entries[i])] + A.Plains(entries[i + 1..]) == out + A.Plains(entries[i..]);
        out := out + [A.Plain(entries[i])];
      }
      assert out + A.Plains(entries[|entries|..]) == out;
    }

    method PassAll(entries: seq<Entry>, draws: seq<real>)
      requires Valid() && |draws| == |entries|
      modifies this, groups, groups.groups
      ensures Valid() && Model() == A.PassAll(config, old(Model()), entries, draws)
    {
      for i := 0 to |entries|
        invariant Valid()
        invariant A.PassAll(config, Model(), entries[i..], draws[i..])
               == A.PassAll(config, old(Model()), entries, draws)
      {
        assert entries[i..][0] == entries[i] && entries[i..][1..] == entries[i + 1..];
        assert draws[i..][0] == draws[i] && draws[i..][1..] == draws[i + 1..];
        PassEntry(entries[i], draws[i]);
      }
    }

    /** One entry during a storm: errors are grouped, verbose levels sampled. */
    method PassEntry(entry: Entry, draw: real)
      requires Valid()
      modifies this, groups, groups.groups
      ensures Valid() && Model() == A.Pass(config, old(Model()), entry, draw)
    {
      if A.IsError(entry) {
        GroupError(entry);
      } else if A.IsSampled(entry) && draw >= config.sample {
        return;
      } else {
        out := out + [A.Plain(entry)];
      }
    }

    method FlushGroupSummaries()
      requires Valid()
      modifies this, groups, groups.groups
      ensures Valid() && Model() == A.FlushSummaries(old(Model()))
    {
      var keys := groups.groups.entries.keys;
      for i := 0 to |keys|
        invariant Valid()
        invariant A.DrainKeys(old(Model()), keys) == A.DrainKeys(Model(), keys[i..])
      {
        assert keys[i..][0] == keys[i] && keys[i..][1..] == keys[i + 1..];
        ghost var before := Model();
        var group := groups.DrainKey(keys[i]);
        if group.Some? && group.value.count > 1 {
          out := out + [A.Summary(group.value.payload, group.value.count)];
        }
        assert Model() == A.DrainKey(before, keys[i]);
      }
    }
  }
}
