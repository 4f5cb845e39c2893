/** What each step of the database transport does to its queue, its timers and its counters. */
module DatabaseSteps {
  import opened Sequences
  import opened Entries
  import opened RetrySchedule
  import opened DatabaseProtocol
  import opened DatabaseSafety
  import opened DatabaseTheorems

  // ----- without a retry policy -----

  /** Without a retry policy nothing is given up, put off or rebuilt. */
  ghost predicate Undisturbed(adapter: int, s: State) {
    && s.queue.dropped == 0 && s.retry == RetryState(0, 0.0, false)
    && !s.outage.recovering && !s.outage.timer && s.outage.factories == 0 && s.outage.adapter == adapter
  }

  /** A failed call of an open transport puts its batch back at the head and leaves the rest to the next trigger. */
  lemma FailureWithoutPolicy(c: Config, s: State, random: real, now: real)
    requires c.Valid() && Inv(c, s) && c.retry.None? && !s.shutdown.closed && !s.outage.recovering
    requires s.queue.writing != [] && now >= 0.0 && 0.0 <= random < 1.0
    ensures var s' := Step(c, s, Completed(0, false, random, now));
            && s'.queue == Queue(s.queue.writing[0] + s.queue.buffer, 0, [], s.queue.dropped,
                                 s.queue.transportErrors + 1)
            && s'.retry == s.retry && s'.outage == s.outage && s'.shutdown == s.shutdown
            && s'.history == s.history
  {
    assert Settle(s, 0).queue.writing == [];
  }

  lemma StepUndisturbed(c: Config, adapter: int, s: State, e: Event)
    requires c.Valid() && c.retry.None? && Undisturbed(adapter, s)
    ensures Undisturbed(adapter, Step(c, s, e))
  {
    match e
    case Completed(_, _, _, _) =>
    case Write(_, _) =>
    case _ =>
  }

  lemma {:induction false} RunUndisturbed(c: Config, adapter: int, s: State, events: seq<Event>)
    requires c.Valid() && c.retry.None? && Undisturbed(adapter, s)
    ensures Undisturbed(adapter, Run(c, s, events))
    decreases |events|
  {
    if events != [] {
      StepUndisturbed(c, adapter, s, events[0]);
      RunUndisturbed(c, adapter, Step(c, s, events[0]), events[1..]);
    }
  }

  /**
   * Over any run without a retry policy, whatever fails and even over close(): every entry
   * offered is delivered, in flight or buffered, in the order it came, and none is dropped.
   */
  lemma NothingDroppedWithoutPolicy(c: Config, adapter: int, events: seq<Event>)
    requires c.Valid() && c.retry.None?
    ensures var s := Run(c, Initial(adapter), events);
            && s.history.delivered + Flat(s.queue.writing) + s.queue.buffer == Offered(c, false, events)
            && s.queue.dropped == 0 && s.outage.adapter == adapter
            && !s.outage.recovering && s.retry == RetryState(0, 0.0, false)
  {
    var s := Run(c, Initial(adapter), events);
    RunUndisturbed(c, adapter, Initial(adapter), events);
    DeliveryIsFifo(c, adapter, events);
    SubseqOfSameLength(Kept(s), Offered(c, false, events));
  }

  // ----- writes -----

  /**
   * A write of an entry that passes the filters joins the queue behind everything else, except during recovery
   * with a full backlog, where it is counted in `dropped`; any other write changes nothing.
   */
  lemma WriteIsExact(c: Config, s: State, entry: Entry, now: real)
    requires c.Valid() && Inv(c, s) && now >= 0.0
    ensures var s' := Step(c, s, Write(entry, now));
            var taken := OfferedBy(c, s.shutdown.closed, Write(entry, now)) != [];
            if !taken then s' == s
            else if s.outage.recovering && |s.queue.buffer| >= 10000 then
              s'.queue == s.queue.(dropped := s.queue.dropped + 1)
            else
              && Flat(s'.queue.writing) + s'.queue.buffer == Flat(s.queue.writing) + s.queue.buffer + [entry]
              && s'.queue.dropped == s.queue.dropped
              && (|s.queue.buffer| + 1 < c.batchSize || s.queue.inflight > 0 ==> s'.queue.writing == s.queue.writing)
  {
    if Accepts(c, s.shutdown.closed, entry) {
      var q := Enqueue(Submit(s, entry), entry);
      assert Flat(q.queue.writing) + q.queue.buffer == Flat(s.queue.writing) + s.queue.buffer + [entry];
      if !(s.outage.recovering && |s.queue.buffer| >= 10000) && |q.queue.buffer| >= c.batchSize {
        PumpMovesHead(c, q, now);
      }
    }
  }

  lemma PumpMovesHead(c: Config, s: State, now: real)
    requires c.Valid() && s.queue.inflight == |s.queue.writing|
    ensures var s' := Pump(c, s, now);
            && Flat(s'.queue.writing) + s'.queue.buffer == Flat(s.queue.writing) + s.queue.buffer
            && s'.queue.dropped == s.queue.dropped
            && (s.queue.inflight > 0 ==> s'.queue.writing == s.queue.writing)
  {
    if s.queue.writing == [] {
      var n := HeadLength(c, s.queue);
      FlatOne(s.queue.buffer[..n]);
      assert s.queue.buffer[..n] + s.queue.buffer[n..] == s.queue.buffer;
      assert [] + [s.queue.buffer[..n]] == [s.queue.buffer[..n]];
    }
  }

  // ----- outages -----

  /** At the cap with a factory the batch returns to the head, the budget is renewed, and an outage begins. */
  lemma ExhaustedRetryStartsOutage(c: Config, s: State, random: real, now: real)
    requires c.Valid() && Inv(c, s) && now >= 0.0 && 0.0 <= random < 1.0
    requires s.queue.writing != [] && !s.shutdown.closed && !s.outage.recovering && c.retry.Some? && c.rebuilds
    requires c.retry.value.attempts.Reached(s.retry.attempt + 1)
    ensures var s' := Step(c, s, Completed(0, false, random, now));
            && s'.queue == Queue(s.queue.writing[0] + s.queue.buffer, 0, [], s.queue.dropped,
                                 s.queue.transportErrors + 1)
            && s'.retry == RetryState(0, 0.0, false)
            && s'.outage == s.outage.(recovering := true, attempt := 0, timer := true)
            && s'.shutdown == s.shutdown
  {
    assert Settle(s, 0).queue.writing == [];
  }

  /** The reconnect timer calls the factory once for every try of an outage, and does nothing else. */
  lemma TimerCallsFactory(c: Config, s: State, now: real)
    requires c.Valid() && Inv(c, s) && s.outage.timer && now >= 0.0
    ensures var s' := Step(c, s, ReconnectFires(now));
            && s'.outage == (if s.outage.recovering
                             then s.outage.(timer := false, attempt := s.outage.attempt + 1,
                                            factories := s.outage.factories + 1)
                             else s.outage.(timer := false))
            && s'.queue == s.queue && s'.retry == s.retry && s'.shutdown == s.shutdown
  {
  }

  /** A built adapter of an open transport is probed with the head of the backlog at once, if nothing is in the way. */
  lemma BuiltAdapterIsProbed(c: Config, s: State, built: int, now: real)
    requires c.Valid() && Inv(c, s) && s.outage.factories > 0 && now >= 0.0
    ensures var s' := Step(c, s, FactorySettled(true, built, now));
            var head := Min(c.batchSize, |s.queue.buffer|);
            && s'.outage == s.outage.(factories := s.outage.factories - 1, adapter := built)
            && s'.retry == s.retry && s'.queue.dropped == s.queue.dropped
            && if !s.shutdown.closed && Idle(s, now) && s.queue.buffer != [] then
                 s'.queue.writing == [s.queue.buffer[..head]] && s'.queue.buffer == s.queue.buffer[head..]
               else s'.queue == s.queue
  {
  }

  // ----- shutdown -----

  /** The first close() stops every timer and any recovery, and starts the head batch if no call is in flight. */
  lemma CloseIsExact(c: Config, s: State, now: real)
    requires c.Valid() && Inv(c, s) && now >= 0.0
    ensures var s' := Step(c, s, Close(now));
            var head := Min(c.batchSize, |s.queue.buffer|);
            if s.shutdown.closed then s' == s
            else
              && s'.shutdown.closed && !s'.shutdown.flushTimer && s'.retry == RetryState(0, 0.0, false)
              && s'.outage == s.outage.(recovering := false, timer := false)
              && s'.queue.dropped == s.queue.dropped
              && if s.queue.inflight > 0 then s'.queue == s.queue && s'.history.released == 0
                 else if s.queue.buffer == [] then s'.queue == s.queue && s'.history.released == 1
                 else s'.queue.writing == [s.queue.buffer[..head]] && s'.queue.buffer == s.queue.buffer[head..]
                      && s'.history.released == 0
  {
  }

  /** The first failure after close() asks for one more pass over the queue, a later one lets the waiter go. */
  lemma FailureAfterClose(c: Config, s: State, random: real, now: real)
    requires c.Valid() && Inv(c, s) && now >= 0.0 && 0.0 <= random < 1.0
    requires s.queue.writing != [] && s.shutdown.closed
    ensures var s' := Step(c, s, Completed(0, false, random, now));
            && s'.queue == Queue(s.queue.writing[0] + s.queue.buffer, 0, [], s.queue.dropped,
                                 s.queue.transportErrors + 1)
            && s'.outage == s.outage && s'.retry == s.retry
            && if s.history.closeFailures == 0 then
                 s'.shutdown.microtasks == s.shutdown.microtasks + 1 && s'.history.released == s.history.released
               else
                 s'.shutdown.microtasks == s.shutdown.microtasks && s'.history.released == 1
  {
    assert Settle(s, 0).queue.writing == [];
  }

  // ----- drops -----

  /** What a step gives up: a write into a full backlog, the head at the retry cap, or the backlog of an outage. */
  function GivenUp(c: Config, s: State, e: Event): int
    requires e.Completed? ==> e.index < |s.queue.writing|
  {
    var open := !s.shutdown.closed;
    match e
    case Write(entry, _) =>
      if OfferedBy(c, s.shutdown.closed, e) != [] && s.outage.recovering && |s.queue.buffer| >= 10000 then 1 else 0
    case FactorySettled(ok, _, _) =>
      if !ok && open && s.outage.attempt >= c.maxReconnects then |s.queue.buffer| else 0
    case Completed(k, ok, _, _) =>
      var queue := |s.queue.writing[k]| + |s.queue.buffer|;
      if ok || !open then 0
      else if s.outage.recovering then (if s.outage.attempt >= c.maxReconnects then queue else 0)
      else if c.retry.Some? && !c.rebuilds && c.retry.value.attempts.Reached(s.retry.attempt + 1) then
        Min(c.batchSize, queue)
      else 0
    case _ => 0
  }

  /** Nothing else is ever given up, and all of it is counted. */
  lemma DropsAreExact(c: Config, s: State, e: Event)
    requires c.Valid() && Inv(c, s) && Enabled(s, e)
    ensures Step(c, s, e).queue.dropped == s.queue.dropped + GivenUp(c, s, e)
  {
    match e
    case Completed(k, ok, random, now) => CompletionDrops(c, s, ok, random, now);
    case Write(entry, now) => WriteDrops(c, s, entry, now);
    case FactorySettled(ok, built, now) =>
      if ok {
        BuiltAdapterIsProbed(c, s, built, now);
      } else if !s.shutdown.closed {
        FailedFactoryTriesAgainOrGivesUp(c, s, built, now);
      }
    case Close(now) => CloseIsExact(c, s, now);
    case ReconnectFires(now) => TimerCallsFactory(c, s, now);
    case _ => TriggersDropNothing(c, s, e);
  }

  /** A trigger drops nothing, and changes no timer but its own. */
  lemma TriggersDropNothing(c: Config, s: State, e: Event)
    requires c.Valid() && Inv(c, s) && Enabled(s, e) && (e.Flush? || e.Tick? || e.RetryFires? || e.Microtask?)
    ensures var s' := Step(c, s, e);
            && s'.queue.dropped == s.queue.dropped && s'.outage == s.outage
            && s'.retry == (if e.RetryFires? then s.retry.(timer := false) else s.retry)
            && s'.shutdown.microtasks == s.shutdown.microtasks - (if e.Microtask? then 1 else 0)
  {
  }

  lemma WriteDrops(c: Config, s: State, entry: Entry, now: real)
    requires c.Valid() && Inv(c, s) && now >= 0.0
    ensures Step(c, s, Write(entry, now)).queue.dropped == s.queue.dropped + GivenUp(c, s, Write(entry, now))
  {
    WriteIsExact(c, s, entry, now);
  }

  lemma CompletionDrops(c: Config, s: State, ok: bool, random: real, now: real)
    requires c.Valid() && Inv(c, s) && s.queue.writing != [] && now >= 0.0 && 0.0 <= random < 1.0
    ensures Step(c, s, Completed(0, ok, random, now)).queue.dropped
            == s.queue.dropped + GivenUp(c, s, Completed(0, ok, random, now))
  {
    if !ok && !s.shutdown.closed && !s.outage.recovering && c.retry.Some? {
      if !c.retry.value.attempts.Reached(s.retry.attempt + 1) {
        FailureArmsBackoff(c, s, random, now);
      } else if c.rebuilds {
        ExhaustedRetryStartsOutage(c, s, random, now);
      } else {
        ExhaustedRetryDropsHead(c, s, random, now);
      }
    }
  }
}
