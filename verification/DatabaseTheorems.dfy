/** Whole-run properties of the database transport. */
module DatabaseTheorems {
  import opened Sequences
  import opened Entries
  import opened RetrySchedule
  import opened DatabaseProtocol
  import opened DatabaseSafety

  lemma {:induction false} RunKeepsInv(c: Config, s: State, events: seq<Event>)
    requires c.Valid() && Inv(c, s)
    ensures Inv(c, Run(c, s, events))
    decreases |events|
  {
    if events != [] {
      StepKeepsInv(c, s, events[0]);
      RunKeepsInv(c, Step(c, s, events[0]), events[1..]);
    }
  }

  lemma Reachable(c: Config, adapter: int, events: seq<Event>)
    requires c.Valid()
    ensures Inv(c, Run(c, Initial(adapter), events))
  {
    InitialInv(c, adapter);
    RunKeepsInv(c, Initial(adapter), events);
  }

  // ----- order and conservation -----

  /** What one call adds to the entries a caller may expect to see. */
  function OfferedBy(c: Config, closed: bool, e: Event): seq<Entry> {
    if e.Write? && e.now >= 0.0 && !closed && e.entry.author != NOTICE_AUTHOR && Rank(e.entry.level) >= Rank(c.level)
    then [e.entry] else []
  }

  /** The entries a caller may expect to see, read off the calls alone. */
  function Offered(c: Config, closed: bool, events: seq<Event>): seq<Entry>
    decreases |events|
  {
    if events == [] then []
    else OfferedBy(c, closed, events[0])
         + Offered(c, closed || (events[0].Close? && events[0].now >= 0.0), events[1..])
  }

  /** What the failure paths leave alone. */
  ghost predicate SameOutside(s: State, s': State) {
    && s'.history.submitted == s.history.submitted
    && s'.shutdown.closed == s.shutdown.closed && s'.shutdown.closing == s.shutdown.closing
    && s'.outage.factories == s.outage.factories && s'.outage.adapter == s.outage.adapter
    && s'.history.closeFailures == s.history.closeFailures
    && (if !s.outage.recovering && s'.outage.recovering
        then s'.history.outageCalls == 0 && s'.outage.timer && s'.retry.attempt == 0
        else s'.history.outageCalls == s.history.outageCalls)
  }

  lemma ScheduleRetryFrame(c: Config, s: State, now: real, random: real)
    requires c.Valid()
    ensures SameOutside(s, ScheduleRetry(c, s, now, random))
  {
    if c.retry.Some? {
      var s' := CountAttempt(s);
      var next := ScheduleRetry(c, s, now, random);
      if !c.retry.value.attempts.Reached(s'.retry.attempt) {
        assert next == ArmRetry(s', now + Wait(c.retry.value, s'.retry.attempt, random));
      } else if c.rebuilds {
        assert next == StartRecovery(s');
      } else {
        assert next == ResetRetry(DropHead(c, s'));
      }
    }
  }

  lemma WriteFailedFrame(c: Config, s: State, batch: seq<Entry>, now: real, random: real)
    requires c.Valid()
    ensures SameOutside(Requeue(s, batch), WriteFailed(c, s, batch, now, random))
  {
    var s' := Requeue(s, batch);
    ScheduleRetryFrame(c, s', now, random);
    var next := WriteFailed(c, s, batch, now, random);
    if s.shutdown.closed && !s.shutdown.retryUsed {
    } else if !s.shutdown.closed && s.outage.recovering && c.rebuilds {
      assert next == FailRecoveryAttempt(c, s');
    } else {
      assert next == NotifyIdle(if s.shutdown.closed then s' else ScheduleRetry(c, s', now, random));
    }
  }

  lemma WriteSucceededFrame(c: Config, s: State, batch: seq<Entry>, now: real)
    requires c.Valid()
    ensures SameOutside(s, WriteSucceeded(c, s, batch, now))
  {
  }

  /** The queue once the event loop has delivered the outcome of call `k`, before the transport reacts. */
  function Returned(s: State, k: nat, ok: bool): State
    requires k < |s.queue.writing|
  {
    if ok then Settle(s, k) else Requeue(Settle(s, k), s.queue.writing[k])
  }

  lemma CompletionFrame(c: Config, s: State, k: nat, ok: bool, random: real, now: real)
    requires c.Valid() && Enabled(s, Completed(k, ok, random, now))
    ensures SameOutside(Returned(s, k, ok), Step(c, s, Completed(k, ok, random, now)))
  {
    var settled := Settle(s, k);
    if ok {
      WriteSucceededFrame(c, settled, s.queue.writing[k], now);
    } else {
      WriteFailedFrame(c, settled, s.queue.writing[k], now, random);
    }
  }

  lemma StepSubmits(c: Config, s: State, e: Event)
    requires c.Valid() && s.shutdown.closing == s.shutdown.closed
    ensures var s' := Step(c, s, e);
            && s'.history.submitted == s.history.submitted + OfferedBy(c, s.shutdown.closed, e)
            && s'.shutdown.closed == (s.shutdown.closed || (e.Close? && e.now >= 0.0))
            && s'.shutdown.closing == s'.shutdown.closed
  {
    match e
    case Completed(k, ok, random, now) =>
      if Enabled(s, e) { CompletionFrame(c, s, k, ok, random, now); }
    case FactorySettled(_, _, _) =>
    case _ =>
  }

  lemma {:induction false} SubmittedAreOffered(c: Config, s: State, events: seq<Event>)
    requires c.Valid() && s.shutdown.closing == s.shutdown.closed
    ensures Run(c, s, events).history.submitted == s.history.submitted + Offered(c, s.shutdown.closed, events)
    decreases |events|
  {
    if events != [] {
      var s' := Step(c, s, events[0]);
      StepSubmits(c, s, events[0]);
      SubmittedAreOffered(c, s', events[1..]);
      assert Run(c, s, events) == Run(c, s', events[1..]);
    }
  }

  /**
   * Over any run at most one batch is in flight; what was delivered, then what is in
   * flight, then what is buffered is an order-preserving part of what was offered,
   * nothing appears twice, and the entries missing from it are exactly `dropped`.
   */
  lemma DeliveryIsFifo(c: Config, adapter: int, events: seq<Event>)
    requires c.Valid()
    ensures var s := Run(c, Initial(adapter), events);
            var offered := Offered(c, false, events);
            && s.queue.inflight == |s.queue.writing| <= 1
            && Subseq(s.history.delivered + Flat(s.queue.writing) + s.queue.buffer, offered)
            && multiset(s.history.delivered + Flat(s.queue.writing) + s.queue.buffer) <= multiset(offered)
            && |offered| == |s.history.delivered| + |Flat(s.queue.writing)| + |s.queue.buffer| + s.queue.dropped
            && s.history.handed == s.history.acked + s.queue.transportErrors + s.queue.inflight
  {
    var s := Run(c, Initial(adapter), events);
    Reachable(c, adapter, events);
    SubmittedAreOffered(c, Initial(adapter), events);
    assert [] + Offered(c, false, events) == Offered(c, false, events);
    SubseqMultiplicity(Kept(s), s.history.submitted);
  }

  /** stats().queued (line 362): an in-flight batch counts as one, whatever its size. */
  function Queued(s: State): int { |s.queue.buffer| + s.queue.inflight }

  /** So `queued` is exact precisely when no batch of two or more is in flight. */
  lemma QueuedUndercounts(c: Config, s: State)
    requires c.Valid() && Inv(c, s)
    ensures Queued(s) <= |s.history.submitted| - |s.history.delivered| - s.queue.dropped
    ensures Queued(s) == |s.history.submitted| - |s.history.delivered| - s.queue.dropped <==> |Flying(s)| <= 1
  {
    if s.queue.writing != [] {
      assert s.queue.writing == [s.queue.writing[0]];
      FlatOne(s.queue.writing[0]);
    }
  }

  // ----- single runs -----

  lemma {:induction false} RunAppend(c: Config, s: State, events: seq<Event>, e: Event)
    requires c.Valid()
    ensures Run(c, s, events + [e]) == Step(c, Run(c, s, events), e)
    decreases |events|
  {
    if events == [] {
      assert ([] + [e])[1..] == [];
    } else {
      assert (events + [e])[1..] == events[1..] + [e];
      RunAppend(c, Step(c, s, events[0]), events[1..], e);
    }
  }

  /** `s` can be reached by some run. */
  ghost predicate Reached(c: Config, adapter: int, s: State)
    requires c.Valid()
  {
    exists events :: s == Run(c, Initial(adapter), events)
  }

  lemma ReachedStep(c: Config, adapter: int, s: State, e: Event)
    requires c.Valid() && Reached(c, adapter, s)
    ensures Reached(c, adapter, Step(c, s, e)) && Inv(c, s)
  {
    var events :| s == Run(c, Initial(adapter), events);
    Reachable(c, adapter, events);
    RunAppend(c, Initial(adapter), events, e);
  }

  lemma PumpTakesAll(c: Config, s: State, now: real)
    requires c.Valid() && Idle(s, now) && s.queue.writing == [] && 0 < |s.queue.buffer| <= c.batchSize
    ensures var s' := Pump(c, s, now);
            && s'.queue == s.queue.(writing := [s.queue.buffer], buffer := [], inflight := 1)
            && s'.retry == s.retry && s'.outage == s.outage && s'.shutdown == s.shutdown
            && s'.history == s.history.(handed := s.history.handed + 1, tries := s'.history.tries)
  {
    assert s.queue.buffer[..|s.queue.buffer|] == s.queue.buffer;
  }

  /** The first entry goes straight into a call if batches hold one entry, and waits otherwise. */
  lemma FirstWrite(c: Config, adapter: int, a: Entry)
    requires c.Valid() && Accepts(c, false, a)
    ensures var s, s0 := Step(c, Initial(adapter), Write(a, 0.0)), Initial(adapter);
            && s.queue == (if c.batchSize == 1 then Queue([], 1, [[a]], 0, 0) else Queue([a], 0, [], 0, 0))
            && s.retry == s0.retry && s.outage == s0.outage && s.shutdown == s0.shutdown
            && s.history.submitted == [a] && s.history.delivered == [] && s.history.released == 0
            && s.history.handed == if c.batchSize == 1 then 1 else 0
  {
    var queued := Enqueue(Submit(Initial(adapter), a), a);
    assert queued.queue.buffer == [a];
    if c.batchSize == 1 { PumpTakesAll(c, queued, 0.0); }
  }

  /** The first write, and a tick if it did not fill a batch: one entry in flight. */
  lemma FirstCall(c: Config, adapter: int, a: Entry) returns (s: State)
    requires c.Valid() && a.author != NOTICE_AUTHOR && Rank(a.level) >= Rank(c.level)
    ensures Reached(c, adapter, s) && s.queue == Queue([], 1, [[a]], 0, 0)
    ensures s.retry == RetryState(0, 0.0, false)
    ensures s.outage == Initial(adapter).outage && s.shutdown == Initial(adapter).shutdown
    ensures s.history.delivered == [] && s.history.handed == 1 && s.history.released == 0
  {
    var s0 := Initial(adapter);
    assert s0 == Run(c, s0, []);
    ReachedStep(c, adapter, s0, Write(a, 0.0));
    FirstWrite(c, adapter, a);
    s := Step(c, s0, Write(a, 0.0));
    if c.batchSize > 1 {
      ReachedStep(c, adapter, s, Tick(0.0));
      PumpTakesAll(c, s, 0.0);
      s := Step(c, s, Tick(0.0));
    }
  }

  lemma SecondFills(c: Config, s: State, a: Entry, b: Entry)
    requires c.Valid() && c.batchSize == 2 && Accepts(c, false, b) && s.queue == Queue([a], 0, [], 0, 0)
    requires s.retry == RetryState(0, 0.0, false) && !s.outage.timer && !s.outage.recovering && !s.shutdown.closed
    ensures var s' := Step(c, s, Write(b, 0.0));
            && s'.queue == Queue([], 1, [[a, b]], 0, 0) && s'.history.delivered == s.history.delivered
            && s'.history.submitted == s.history.submitted + [b]
  {
    var queued := Enqueue(Submit(s, b), b);
    assert queued.queue.buffer == [a, b];
    PumpTakesAll(c, queued, 0.0);
  }

  /** Two entries written as one batch: both are undelivered, and `queued` is 1. */
  lemma TwoInFlightCountAsOne(adapter: int, a: Entry, b: Entry) returns (c: Config, s: State)
    requires a.author != NOTICE_AUTHOR && b.author != NOTICE_AUTHOR
    ensures c.Valid() && Reached(c, adapter, s)
    ensures s.history.submitted == [a, b] && s.history.delivered == [] && s.queue.dropped == 0 && Queued(s) == 1
  {
    c := Config(2, Trace, None, false, 1);
    s := Initial(adapter);
    assert s == Run(c, s, []);
    ReachedStep(c, adapter, s, Write(a, 0.0));
    FirstWrite(c, adapter, a);
    s := Step(c, s, Write(a, 0.0));
    ReachedStep(c, adapter, s, Write(b, 0.0));
    SecondFills(c, s, a, b);
    s := Step(c, s, Write(b, 0.0));
  }

  // ----- triggers -----

  predicate Idle(s: State, now: real) {
    s.queue.inflight == 0 && !s.outage.timer && now >= s.retry.dueAt
  }

  /** Every trigger starts the head batch if nothing is in the way, and only then. */
  lemma TriggersDeliver(c: Config, s: State, e: Event)
    requires c.Valid() && Inv(c, s) && Enabled(s, e) && (e.Flush? || e.Tick? || e.RetryFires? || e.Microtask?)
    ensures var s' := Step(c, s, e);
            var head := Min(c.batchSize, |s.queue.buffer|);
            if Idle(s, e.now) && s.queue.buffer != [] then
              && s'.queue.writing == [s.queue.buffer[..head]] && s'.queue.buffer == s.queue.buffer[head..]
              && s'.history.handed == s.history.handed + 1
            else s'.queue == s.queue && s'.history.handed == s.history.handed
  {
  }

  /** A buffer that reaches the batch size is not left waiting by the write that filled it. */
  lemma FullBufferIsStarted(c: Config, s: State, entry: Entry, now: real)
    requires c.Valid() && Inv(c, s) && now >= 0.0 && Accepts(c, s.shutdown.closed, entry) && Idle(s, now)
    requires |s.queue.buffer| + 1 >= c.batchSize && !(s.outage.recovering && |s.queue.buffer| >= RECOVERY_BACKLOG_CAP)
    ensures var s' := Step(c, s, Write(entry, now));
            s'.queue.writing == [(s.queue.buffer + [entry])[..c.batchSize]]
  {
  }

  // ----- retry -----

  /**
   * With a finite retry policy and no factory, no entry of an open transport has been
   * handed to the adapter more than `attempts` times, and at rest the entries behind
   * the head batch have never been tried.
   */
  lemma TriesNeverExceedAttempts(c: Config, adapter: int, events: seq<Event>)
    requires c.Valid() && c.retry.Some? && c.retry.value.attempts.Finite? && !c.rebuilds
    ensures var s := Run(c, Initial(adapter), events);
            !s.shutdown.closed ==>
              && |s.history.tries| == |Flat(s.queue.writing)| + |s.queue.buffer|
              && (forall i :: 0 <= i < |s.history.tries| ==> s.history.tries[i] <= c.retry.value.attempts.n)
              && (s.queue.inflight == 0 ==>
                    forall i :: c.batchSize <= i < |s.history.tries| ==> s.history.tries[i] == 0)
              && s.retry.attempt < c.retry.value.attempts.n
  {
    Reachable(c, adapter, events);
  }

  /** A failed call of an open transport without a running recovery puts off the next one. */
  lemma FailureArmsBackoff(c: Config, s: State, random: real, now: real)
    requires c.Valid() && Inv(c, s) && now >= 0.0 && 0.0 <= random < 1.0
    requires s.queue.writing != [] && !s.shutdown.closed && !s.outage.recovering && c.retry.Some?
    requires !c.retry.value.attempts.Reached(s.retry.attempt + 1)
    ensures var s' := Step(c, s, Completed(0, false, random, now));
            var delay := RetryDelayMs(c.retry.value, s.retry.attempt + 1);
            var jitter := c.retry.value.jitter;
            && s'.queue.inflight == 0 && s'.retry.timer && s'.retry.attempt == s.retry.attempt + 1
            && s'.queue.buffer == s.queue.writing[0] + s.queue.buffer && s'.queue.dropped == s.queue.dropped
            && s'.outage == s.outage && s'.shutdown == s.shutdown
            && now + delay * (1.0 - jitter) <= s'.retry.dueAt <= now + delay * (1.0 + jitter)
            && s'.retry.dueAt - (now + delay * (1.0 - jitter)) == random * (2.0 * (delay * jitter))
  {
    var retry := c.retry.value;
    var delay := RetryDelayMs(retry, s.retry.attempt + 1);
    DelayWithinBounds(retry, s.retry.attempt + 1);
    JitterWithinShare(delay, retry.jitter, random);
    JitterIsEven(delay, retry.jitter, random);
    var s' := Step(c, s, Completed(0, false, random, now));
    assert s'.retry.dueAt == now + Wait(retry, s.retry.attempt + 1, random);
  }

  ghost predicate AllBefore(events: seq<Event>, t: real) {
    forall i :: 0 <= i < |events| ==> events[i].now < t && !events[i].Close?
  }

  lemma QuietBeforeDue(c: Config, s: State, e: Event)
    requires c.Valid() && Inv(c, s) && s.queue.inflight == 0 && e.now < s.retry.dueAt && !e.Close?
    ensures var s' := Step(c, s, e);
            s'.queue.inflight == 0 && s'.retry.dueAt == s.retry.dueAt && s'.history.handed == s.history.handed
  {
  }

  /** Whatever triggers arrive, no adapter call starts before `retryDueAt` unless close() begins. */
  lemma {:induction false} BackoffHolds(c: Config, s: State, events: seq<Event>)
    requires c.Valid() && Inv(c, s) && s.queue.inflight == 0 && AllBefore(events, s.retry.dueAt)
    ensures Run(c, s, events).history.handed == s.history.handed
    ensures Run(c, s, events).retry.dueAt == s.retry.dueAt
    decreases |events|
  {
    if events != [] {
      QuietBeforeDue(c, s, events[0]);
      StepKeepsInv(c, s, events[0]);
      BackoffHolds(c, Step(c, s, events[0]), events[1..]);
    }
  }

  /** At the cap, without a factory, exactly the head batch is given up and the budget is renewed. */
  lemma ExhaustedRetryDropsHead(c: Config, s: State, random: real, now: real)
    requires c.Valid() && Inv(c, s) && now >= 0.0 && 0.0 <= random < 1.0
    requires s.queue.writing != [] && !s.shutdown.closed && c.retry.Some? && !c.rebuilds
    requires c.retry.value.attempts.Reached(s.retry.attempt + 1)
    ensures var s' := Step(c, s, Completed(0, false, random, now));
            var queue := s.queue.writing[0] + s.queue.buffer;
            var n := Min(c.batchSize, |queue|);
            && s'.queue.buffer == queue[n..] && s'.queue.dropped == s.queue.dropped + n
            && s'.retry.attempt == 0 && s'.retry.dueAt == 0.0 && !s'.retry.timer && s'.queue.inflight == 0
            && s'.outage == s.outage && s'.shutdown == s.shutdown
  {
  }

  /**
   * What the cap drops was all tried exactly if the failed batch was full or nothing was
   * queued behind it; otherwise entries the adapter never saw are dropped with it.
   */
  lemma DropsOnlyTriedIff(c: Config, s: State)
    requires c.Valid() && Inv(c, s) && s.queue.writing != [] && !s.shutdown.closed && c.retry.Some? && !c.rebuilds
    ensures var dropped := Min(c.batchSize, |s.queue.writing[0] + s.queue.buffer|);
            && dropped <= |s.history.tries|
            && ((forall i :: 0 <= i < dropped ==> s.history.tries[i] > 0) <==>
                |s.queue.writing[0]| == c.batchSize || s.queue.buffer == [])
  {
    var batch := s.queue.writing[0];
    assert s.queue.writing == [batch];
    FlatOne(batch);
    var dropped := Min(c.batchSize, |batch + s.queue.buffer|);
    if |batch| != c.batchSize && s.queue.buffer != [] {
      assert |batch| < dropped && s.history.tries[|batch|] <= TryBound(c, s, |batch|) == 0;
    }
  }

  /** A partial batch fails for good while an entry waits behind it: one adapter call, two entries dropped. */
  lemma UntriedEntryDropped(adapter: int, a: Entry, b: Entry) returns (c: Config, s: State)
    requires a.author != NOTICE_AUTHOR && b.author != NOTICE_AUTHOR
    ensures c.Valid() && Reached(c, adapter, s)
    ensures s.history.handed == 1 && s.queue.dropped == 2 && s.queue.buffer == []
  {
    c := Config(3, Trace, Some(Retry(Finite(1), Fixed, 0.0, 0.0, 0.0)), false, 1);
    s := FirstCall(c, adapter, a);
    ReachedStep(c, adapter, s, Write(b, 0.0));
    s := Step(c, s, Write(b, 0.0));
    assert s.queue == Queue([b], 1, [[a]], 0, 0);
    ReachedStep(c, adapter, s, Completed(0, false, 0.0, 0.0));
    ExhaustedRetryDropsHead(c, s, 0.0, 0.0);
    CompletionFrame(c, s, 0, false, 0.0, 0.0);
    FailureHandsNothing(c, s);
    s := Step(c, s, Completed(0, false, 0.0, 0.0));
  }

  lemma FailureHandsNothing(c: Config, s: State)
    requires c.Valid() && s.queue.writing != [] && !s.shutdown.closed
    ensures Step(c, s, Completed(0, false, 0.0, 0.0)).history.handed == s.history.handed
  {
  }

  /** A confirmed batch ends an outage and gives the next batch a fresh retry budget. */
  lemma SuccessRenewsBudget(c: Config, s: State, random: real, now: real)
    requires c.Valid() && Inv(c, s) && now >= 0.0 && 0.0 <= random < 1.0 && s.queue.writing != []
    ensures var s' := Step(c, s, Completed(0, true, random, now));
            && s'.history.delivered == s.history.delivered + s.queue.writing[0]
            && s'.retry.attempt == 0 && s'.retry.dueAt == 0.0 && !s'.retry.timer
            && s'.outage == (if s.outage.recovering then s.outage.(recovering := false, attempt := 0) else s.outage)
            && var head := Min(c.batchSize, |s.queue.buffer|);
               if !s.outage.timer && s.queue.buffer != [] then
                 s'.queue.writing == [s.queue.buffer[..head]] && s'.queue.buffer == s.queue.buffer[head..]
               else s'.queue.writing == [] && s'.queue.buffer == s.queue.buffer
  {
    assert Settle(s, 0).queue.writing == [];
  }

  // ----- recovery -----

  /** Adapter rebuilding is bounded in every reachable state, even with late factory results. */
  lemma RecoveryIsBounded(c: Config, adapter: int, events: seq<Event>)
    requires c.Valid()
    ensures var s := Run(c, Initial(adapter), events);
            && 0 <= s.outage.attempt <= c.maxReconnects
            && (s.outage.timer ==> s.outage.attempt < c.maxReconnects)
            && s.history.outageCalls <= c.maxReconnects
            && (c.retry.Some? ==> !c.retry.value.attempts.Reached(s.retry.attempt))
            && (s.outage.recovering ==> c.rebuilds && !s.shutdown.closed && s.history.outageCalls == s.outage.attempt)
  {
    Reachable(c, adapter, events);
  }

  /** Nothing but a failed write begins an outage, and nothing but the reconnect timer calls the factory. */
  lemma OtherStepsFrame(c: Config, s: State, e: Event)
    requires c.Valid() && !e.Completed? && !e.ReconnectFires?
    ensures var s' := Step(c, s, e);
            && s'.history.outageCalls == s.history.outageCalls && s'.outage.factories <= s.outage.factories
            && (s'.outage.recovering ==> s.outage.recovering)
  {
    match e
    case FactorySettled(ok, built, now) =>
    case Write(entry, now) =>
    case _ =>
  }

  /**
   * `outageCalls` is what it claims to be: it restarts only when an outage begins, and
   * grows with each factory call and with nothing else.
   */
  lemma OutageCallsCountFactoryCalls(c: Config, s: State, e: Event)
    requires c.Valid() && Inv(c, s)
    ensures var s' := Step(c, s, e);
            if !s.outage.recovering && s'.outage.recovering then
              s'.history.outageCalls == 0 && s'.outage.timer && s'.retry.attempt == 0
            else if s'.outage.factories > s.outage.factories then
              && e.ReconnectFires? && s.outage.recovering && s'.outage.factories == s.outage.factories + 1
              && s'.history.outageCalls == s.history.outageCalls + 1
            else s'.history.outageCalls == s.history.outageCalls
  {
    if e.Completed? {
      if Enabled(s, e) { CompletionFrame(c, s, e.index, e.ok, e.random, e.now); }
    } else if !e.ReconnectFires? {
      OtherStepsFrame(c, s, e);
    }
  }

  /** The adapter in use is the one most recently built, and nothing else replaces it. */
  lemma AdapterComesFromFactory(c: Config, s: State, e: Event)
    requires c.Valid() && Inv(c, s)
    ensures Step(c, s, e).outage.adapter ==
            if e.FactorySettled? && e.ok && Enabled(s, e) then e.built else s.outage.adapter
  {
    match e
    case Completed(k, ok, random, now) =>
      if Enabled(s, e) { CompletionFrame(c, s, k, ok, random, now); }
    case FactorySettled(_, _, _) =>
    case Write(_, _) =>
    case _ =>
  }

  /** A reconnect timer that no outage is waiting for. */
  predicate Stray(s: State) { s.outage.timer && !s.outage.recovering }

  /** What a failed rebuild try leads to: the next try, unless the outage is over, or giving up. */
  ghost predicate TriedAgainOrGaveUp(c: Config, s: State, queue: seq<Entry>, s': State) {
    if s.outage.attempt < c.maxReconnects then
      s'.outage.timer && (Stray(s') <==> !s.outage.recovering) && s'.queue.buffer == queue
      && s'.queue.dropped == s.queue.dropped && s'.outage.attempt == s.outage.attempt
      && s'.outage.recovering == s.outage.recovering
    else
      !s'.outage.timer && !s'.outage.recovering && s'.queue.buffer == [] && s'.outage.attempt == 0
      && s'.queue.dropped == s.queue.dropped + |queue|
  }

  /** A failed factory call waits for another try, or at the cap gives up the whole backlog. */
  lemma FailedFactoryTriesAgainOrGivesUp(c: Config, s: State, built: int, now: real)
    requires c.Valid() && Inv(c, s) && now >= 0.0 && !s.shutdown.closed && s.outage.factories > 0
    ensures TriedAgainOrGaveUp(c, s, s.queue.buffer, Step(c, s, FactorySettled(false, built, now)))
  {
  }

  /** So does a failed write during recovery, with its batch back at the head of the backlog. */
  lemma FailedProbeTriesAgainOrGivesUp(c: Config, s: State, random: real, now: real)
    requires c.Valid() && Inv(c, s) && now >= 0.0 && 0.0 <= random < 1.0
    requires s.queue.writing != [] && !s.shutdown.closed && s.outage.recovering
    ensures TriedAgainOrGaveUp(c, s, s.queue.writing[0] + s.queue.buffer, Step(c, s, Completed(0, false, random, now)))
  {
  }

  /**
   * The reconnect timer belongs to an outage except after one of two steps of an open
   * transport: a factory fails after recovery has ended, or a write to the old adapter
   * succeeds, and so ends recovery, while the timer is armed.
   */
  lemma StrayTimerIff(c: Config, s: State, e: Event)
    requires c.Valid() && Inv(c, s) && !Stray(s)
    ensures Stray(Step(c, s, e)) <==>
            && Enabled(s, e) && !s.shutdown.closed
            && ((e.FactorySettled? && !e.ok && !s.outage.recovering && s.outage.attempt < c.maxReconnects)
                || (e.Completed? && e.ok && s.outage.timer))
  {
    if e.Completed? {
      if Enabled(s, e) {
        assert e.index == 0;
        if e.ok { SuccessTimer(c, s, e.now); } else { FailureTimer(c, s, e.random, e.now); }
      }
    } else {
      OtherStepsTimer(c, s, e);
    }
  }

  lemma OtherStepsTimer(c: Config, s: State, e: Event)
    requires c.Valid() && Inv(c, s) && !Stray(s) && !e.Completed?
    ensures Stray(Step(c, s, e)) <==>
            && Enabled(s, e) && !s.shutdown.closed
            && e.FactorySettled? && !e.ok && !s.outage.recovering && s.outage.attempt < c.maxReconnects
  {
    match e
    case FactorySettled(_, _, _) =>
    case Write(_, _) =>
    case _ =>
  }

  lemma SuccessTimer(c: Config, s: State, now: real)
    requires c.Valid() && Inv(c, s) && s.queue.writing != []
    ensures var s' := WriteSucceeded(c, Settle(s, 0), s.queue.writing[0], now);
            s'.outage.timer == s.outage.timer && !s'.outage.recovering
  {
  }

  lemma FailureTimer(c: Config, s: State, random: real, now: real)
    requires c.Valid() && Inv(c, s) && s.queue.writing != []
    ensures var s' := WriteFailed(c, Settle(s, 0), s.queue.writing[0], now, random);
            s'.outage.timer && !s'.outage.recovering ==> Stray(s)
  {
  }

  /** The only call of an open transport fails for good, and an outage begins. */
  lemma OutageBegins(c: Config, s: State, a: Entry)
    requires c.Valid() && c.retry.Some? && c.retry.value.attempts == Finite(1) && c.rebuilds && !s.shutdown.closed
    requires s.queue == Queue([], 1, [[a]], 0, 0) && s.retry == RetryState(0, 0.0, false) && !s.outage.recovering
    ensures var s' := Step(c, s, Completed(0, false, 0.0, 0.0));
            && s'.queue == Queue([a], 0, [], 0, 1) && s'.retry == s.retry && s'.shutdown == s.shutdown
            && s'.outage == s.outage.(recovering := true, attempt := 0, timer := true)
            && s'.history.delivered == s.history.delivered
  {
    assert Settle(s, 0).queue.writing == [] && [a] + [] == [a];
  }

  lemma LastDelivery(c: Config, s: State, a: Entry)
    requires c.Valid() && !s.shutdown.closed && s.queue == Queue([], 1, [[a]], 0, 1) && s.outage.recovering
    requires s.history.delivered == []
    ensures var s' := Step(c, s, Completed(0, true, 0.0, 0.0));
            && s'.outage == s.outage.(recovering := false, attempt := 0) && s'.shutdown.closed == s.shutdown.closed
            && s'.history.delivered == [a]
  {
    assert Settle(s, 0).queue.writing == [] && [] + [a] == [a];
  }

  /** The batch is being written again, to the old adapter, while the factory is busy. */
  lemma FactoryBusy(c: Config, adapter: int, a: Entry) returns (s: State)
    requires c == Config(1, Trace, Some(Retry(Finite(1), Fixed, 0.0, 0.0, 0.0)), true, 2) && a.author != NOTICE_AUTHOR
    ensures Reached(c, adapter, s) && s.queue == Queue([], 1, [[a]], 0, 1) && !s.shutdown.closed
    ensures s.outage == Outage(true, 1, false, 1, adapter) && s.history.delivered == []
  {
    s := FirstCall(c, adapter, a);
    ReachedStep(c, adapter, s, Completed(0, false, 0.0, 0.0));
    OutageBegins(c, s, a);
    s := Step(c, s, Completed(0, false, 0.0, 0.0));
    ReachedStep(c, adapter, s, ReconnectFires(0.0));
    s := Step(c, s, ReconnectFires(0.0));
    ReachedStep(c, adapter, s, Flush(0.0));
    PumpTakesAll(c, s, 0.0);
    s := Step(c, s, Flush(0.0));
  }

  /** A factory that fails once recovery has ended arms the timer. */
  lemma LateFailureArms(c: Config, s: State)
    requires c.Valid() && !s.shutdown.closed && s.outage.factories == 1 && !s.outage.recovering
    requires s.outage.attempt < c.maxReconnects
    ensures var s' := Step(c, s, FactorySettled(false, 0, 0.0));
            Stray(s') && s'.history.delivered == s.history.delivered
  {
  }

  /** A run that leaves one: the old adapter recovers while the factory is still busy, and then the factory fails. */
  lemma LateFailureLeavesStrayTimer(adapter: int, a: Entry) returns (c: Config, s: State)
    requires a.author != NOTICE_AUTHOR
    ensures c.Valid() && Reached(c, adapter, s) && Stray(s) && s.history.delivered == [a]
  {
    c := Config(1, Trace, Some(Retry(Finite(1), Fixed, 0.0, 0.0, 0.0)), true, 2);
    var s0 := FactoryBusy(c, adapter, a);
    var s1 := Step(c, s0, Completed(0, true, 0.0, 0.0));
    ReachedStep(c, adapter, s0, Completed(0, true, 0.0, 0.0));
    LastDelivery(c, s0, a);
    s := Step(c, s1, FactorySettled(false, 0, 0.0));
    ReachedStep(c, adapter, s1, FactorySettled(false, 0, 0.0));
    LateFailureArms(c, s1);
  }

  /** An armed reconnect timer keeps the queue where it is. */
  lemma TimerBlocksPump(c: Config, s: State, now: real)
    requires c.Valid() && s.outage.timer
    ensures Pump(c, s, now) == s
  {
  }

  lemma TimerBlocksWrite(c: Config, s: State, entry: Entry, now: real)
    requires c.Valid() && s.outage.timer
    ensures WriteEntry(c, s, entry, now).history.handed == s.history.handed
  {
    TimerBlocksPump(c, Enqueue(Submit(s, entry), entry), now);
  }

  lemma StrayFailureHandsNothing(c: Config, s: State, random: real, now: real)
    requires c.Valid() && Inv(c, s) && s.queue.writing != [] && Stray(s)
    ensures WriteFailed(c, Settle(s, 0), s.queue.writing[0], now, random).history.handed == s.history.handed
  {
  }

  lemma StrayCompletionHandsNothing(c: Config, s: State, e: Event)
    requires c.Valid() && Inv(c, s) && Stray(s) && e.Completed? && Enabled(s, e)
    ensures Step(c, s, e).history.handed == s.history.handed
  {
    if e.ok {
      TimerBlocksPump(c, ResetRetry(EndOutage(Deliver(Settle(s, 0), s.queue.writing[0]))), e.now);
    } else {
      StrayFailureHandsNothing(c, s, e.random, e.now);
    }
  }

  lemma StrayFactoryHandsNothing(c: Config, s: State, ok: bool, built: int, now: real)
    requires c.Valid() && Inv(c, s) && Stray(s)
    ensures FactoryReturns(c, s, ok, built, now).history.handed == s.history.handed
  {
    var settled := s.outage.(factories := s.outage.factories - 1);
    TimerBlocksPump(c, s.(outage := settled.(adapter := built)), now);
  }

  /**
   * While such a timer is armed no trigger but close() starts a call, and when it fires it does nothing but
   * disarm itself.
   */
  lemma StrayTimerOnlyBlocks(c: Config, s: State, e: Event)
    requires c.Valid() && Inv(c, s) && Stray(s) && !e.Close?
    ensures Step(c, s, e).history.handed == s.history.handed
    ensures e.ReconnectFires? && Enabled(s, e) ==> Step(c, s, e) == DisarmReconnect(s)
  {
    if Enabled(s, e) {
      match e
      case Completed(_, _, _, _) => StrayCompletionHandsNothing(c, s, e);
      case FactorySettled(ok, built, now) => StrayFactoryHandsNothing(c, s, ok, built, now);
      case Write(entry, now) => TimerBlocksWrite(c, s, entry, now);
      case Flush(now) => TimerBlocksPump(c, s, now);
      case Tick(now) => TimerBlocksPump(c, s, now);
      case RetryFires(now) => TimerBlocksPump(c, DisarmRetry(s), now);
      case Microtask(now) => TimerBlocksPump(c, TakeMicrotask(s), now);
      case ReconnectFires(_) =>
    }
  }

  // ----- shutdown -----

  function Undelivered(s: State): nat { |Flying(s)| + |s.queue.buffer| }

  function Measure(s: State): int {
    Undelivered(s) + s.queue.inflight + (if s.shutdown.retryUsed then 0 else 3) + 2 * s.shutdown.microtasks
      + s.outage.factories
  }

  predicate Internal(e: Event) { !e.Write? && !e.Flush? && !e.Close? }

  function InternalSteps(c: Config, s: State, events: seq<Event>): nat
    requires c.Valid()
    decreases |events|
  {
    if events == [] then 0
    else
      (if Internal(events[0]) && Enabled(s, events[0]) then 1 else 0)
      + InternalSteps(c, Step(c, s, events[0]), events[1..])
  }

  function Flushes(events: seq<Event>): nat
    decreases |events|
  {
    if events == [] then 0 else (if events[0].Flush? then 1 else 0) + Flushes(events[1..])
  }

  lemma PumpMeasure(c: Config, s: State, now: real)
    requires c.Valid() && SingleWriter(c, s)
    ensures Measure(Pump(c, s, now)) <= Measure(s) + 1
    ensures s.queue.inflight == 0 ==> Measure(Pump(c, s, now)) == Measure(s) + Pump(c, s, now).queue.inflight
  {
    if s.queue.writing == [] {
      var n := HeadLength(c, s.queue);
      FlatOne(s.queue.buffer[..n]);
      assert [] + [s.queue.buffer[..n]] == [s.queue.buffer[..n]];
    }
  }

  lemma FlyingOne(s: State)
    requires |s.queue.writing| == 1
    ensures Flying(s) == s.queue.writing[0] && Settle(s, 0).queue.writing == []
  {
    assert s.queue.writing == [s.queue.writing[0]];
    FlatOne(s.queue.writing[0]);
  }

  lemma CompletionShrinks(c: Config, s: State, ok: bool, random: real, now: real)
    requires c.Valid() && Inv(c, s) && s.shutdown.closed && s.queue.writing != [] && now >= 0.0 && 0.0 <= random < 1.0
    ensures var s' := Step(c, s, Completed(0, ok, random, now)); s'.shutdown.closed && Measure(s') < Measure(s)
  {
    FlyingOne(s);
    var settled := Settle(s, 0);
    if ok {
      var s' := ResetRetry(Deliver(settled, s.queue.writing[0]));
      assert Step(c, s, Completed(0, ok, random, now)) == Pump(c, s', now);
      PumpMeasure(c, s', now);
    } else {
      var s' := Requeue(settled, s.queue.writing[0]);
      assert Undelivered(s') == Undelivered(s);
    }
  }

  lemma MicrotaskShrinks(c: Config, s: State, now: real)
    requires c.Valid() && SingleWriter(c, s) && s.shutdown.closed && now >= 0.0 && s.shutdown.microtasks > 0
    ensures var s' := Step(c, s, Microtask(now)); s'.shutdown.closed && Measure(s') < Measure(s)
  {
    var s' := TakeMicrotask(s);
    assert Measure(s') == Measure(s) - 2;
    PumpMeasure(c, s', now);
  }

  /** A closed transport ignores writes and further calls of close(), and has no timer left to fire. */
  lemma ClosedIgnores(c: Config, s: State, e: Event)
    requires c.Valid() && Closing(s) && s.shutdown.closed && Enabled(s, e)
    ensures !e.Tick? && !e.RetryFires? && !e.ReconnectFires?
    ensures e.Write? || e.Close? ==> Step(c, s, e) == s
  {
  }

  lemma InternalStepsShrink(c: Config, s: State, e: Event)
    requires c.Valid() && Inv(c, s) && s.shutdown.closed
    ensures Step(c, s, e).shutdown.closed
    ensures !Internal(e) ==> Measure(Step(c, s, e)) <= Measure(s) + if e.Flush? then 1 else 0
    ensures Internal(e) && Enabled(s, e) ==> Measure(Step(c, s, e)) < Measure(s)
  {
    if Enabled(s, e) {
      ClosedIgnores(c, s, e);
      if e.Flush? {
        PumpMeasure(c, s, e.now);
      } else if e.Microtask? {
        MicrotaskShrinks(c, s, e.now);
      } else if e.Completed? {
        CompletionShrinks(c, s, e.ok, e.random, e.now);
      } else if e.FactorySettled? {
        LateFactoryShrinks(c, s, e);
      }
    }
  }

  /** A factory that settles after close() only leaves the adapter it built. */
  lemma LateFactoryShrinks(c: Config, s: State, e: Event)
    requires c.Valid() && s.shutdown.closed && e.FactorySettled? && Enabled(s, e)
    ensures Step(c, s, e).shutdown == s.shutdown && Measure(Step(c, s, e)) == Measure(s) - 1
  {
    assert Step(c, s, e).queue == s.queue;
  }

  /**
   * Shutdown terminates: after close() began, the event loop can take at most
   * `Measure` steps on the transport's behalf, plus one for each later flush() call.
   */
  lemma {:induction false} CloseTerminates(c: Config, s: State, events: seq<Event>)
    requires c.Valid() && Inv(c, s) && s.shutdown.closed
    ensures InternalSteps(c, s, events) + Measure(Run(c, s, events)) <= Measure(s) + Flushes(events)
    ensures InternalSteps(c, s, events) <= Measure(s) + Flushes(events)
    decreases |events|
  {
    if events != [] {
      var s' := Step(c, s, events[0]);
      StepKeepsInv(c, s, events[0]);
      InternalStepsShrink(c, s, events[0]);
      CloseTerminates(c, s', events[1..]);
      assert Run(c, s, events) == Run(c, s', events[1..]);
    } else {
      assert Measure(s) >= 0;
    }
  }

  /** While the close() waiter is pending the event loop holds something that will run. */
  lemma CloseMakesProgress(c: Config, s: State)
    requires c.Valid() && Inv(c, s) && s.shutdown.closed && s.history.released == 0
    ensures exists e :: Internal(e) && Enabled(s, e)
  {
    if s.queue.writing != [] {
      assert Enabled(s, Completed(0, true, 0.0, 0.0)) && Internal(Completed(0, true, 0.0, 0.0));
    } else {
      assert Enabled(s, Microtask(0.0)) && Internal(Microtask(0.0));
    }
  }

  /**
   * Once closed, no timer is ever armed again and the close() waiter fires exactly once;
   * if at most one adapter call failed since close() began, then every entry offered had
   * been delivered or counted in `dropped` by the time it fired.
   */
  lemma CloseDrains(c: Config, adapter: int, events: seq<Event>)
    requires c.Valid()
    ensures var s := Run(c, Initial(adapter), events);
            s.shutdown.closed ==>
              && !s.shutdown.flushTimer && !s.retry.timer && !s.outage.timer && !s.outage.recovering
              && s.shutdown.idleWaiters + s.history.released == 1
              && (s.history.released == 1 && s.history.closeFailures <= 1 ==>
                    && s.queue.buffer == [] && s.queue.inflight == 0
                    && |Offered(c, false, events)| == |s.history.delivered| + s.queue.dropped)
  {
    Reachable(c, adapter, events);
    DeliveryIsFifo(c, adapter, events);
  }

  lemma CloseFailuresComeFromCalls(c: Config, s: State, e: Event)
    requires c.Valid() && Inv(c, s) && Step(c, s, e).history.closeFailures > s.history.closeFailures
    ensures s.shutdown.closed && Enabled(s, e) && e.Completed? && !e.ok
    ensures s.queue.writing != []
  {
    match e
    case Completed(k, ok, random, now) =>
      if Enabled(s, e) { CompletionFrame(c, s, k, ok, random, now); }
    case FactorySettled(_, _, _) =>
    case Write(_, _) =>
    case _ =>
  }

  lemma SecondFailureReleases(c: Config, s: State, random: real, now: real)
    requires c.Valid() && Inv(c, s) && s.queue.writing != [] && s.shutdown.closed && s.shutdown.retryUsed
    requires Enabled(s, Completed(0, false, random, now))
    ensures Step(c, s, Completed(0, false, random, now)).queue.buffer != []
  {
    var s' := Requeue(Settle(s, 0), s.queue.writing[0]);
    assert Step(c, s, Completed(0, false, random, now)) == NotifyIdle(s');
  }

  lemma PumpReleasesIdle(c: Config, s: State, now: real)
    requires c.Valid() && Pump(c, s, now).history.released != s.history.released
    ensures s.queue.inflight <= 0 && s.queue.buffer == [] && Pump(c, s, now).queue == s.queue
  {
  }

  lemma CompletionReleasesIdle(c: Config, s: State, e: Event)
    requires c.Valid() && Inv(c, s) && e.Completed? && Enabled(s, e) && s.shutdown.closed
    ensures Step(c, s, e).history.released != s.history.released ==> Step(c, s, e).queue.writing == []
  {
    var settled, batch := Settle(s, 0), s.queue.writing[0];
    assert e.index == 0 && settled.queue.writing == [];
    if e.ok {
      var s' := ResetRetry(EndOutage(Deliver(settled, batch)));
      if Pump(c, s', e.now).history.released != s'.history.released { PumpReleasesIdle(c, s', e.now); }
    } else {
      assert Requeue(settled, batch).queue.writing == [];
    }
  }

  /** Only a closed transport releases the waiter, and only with no call in flight. */
  lemma ReleaseNeedsIdle(c: Config, s: State, e: Event)
    requires c.Valid() && Inv(c, s) && Step(c, s, e).history.released != s.history.released && s.shutdown.closed
    ensures Step(c, s, e).queue.writing == []
  {
    match e
    case Completed(_, _, _, _) => CompletionReleasesIdle(c, s, e);
    case FactorySettled(_, _, _) =>
    case Write(_, _) =>
    case Flush(now) => PumpReleasesIdle(c, s, now);
    case Tick(now) =>
    case RetryFires(now) =>
    case Microtask(now) => PumpReleasesIdle(c, TakeMicrotask(s), now);
    case ReconnectFires(_) =>
    case Close(_) =>
  }

  lemma OpenReleaseIsClose(c: Config, s: State, e: Event)
    requires c.Valid() && Inv(c, s) && !s.shutdown.closed && Step(c, s, e).history.released == 1
    ensures e.Close? && Step(c, s, e).queue.writing == []
  {
    StepKeepsInv(c, s, e);
    StepSubmits(c, s, e);
    assert e.Close? && Step(c, s, e) == Pump(c, OpenClose(s), e.now);
    PumpReleasesIdle(c, OpenClose(s), e.now);
    assert OpenClose(s).queue == s.queue && |s.queue.writing| == 0;
  }

  /** The step that fires the close() waiter leaves an empty queue exactly if at most one call failed. */
  lemma ReleaseIsCleanIff(c: Config, s: State, e: Event)
    requires c.Valid() && Inv(c, s) && s.history.released == 0 && Step(c, s, e).history.released == 1
    ensures var s' := Step(c, s, e);
            && s'.shutdown.closed && s'.queue.writing == []
            && (s'.queue.buffer == [] <==> s'.history.closeFailures <= 1)
  {
    StepKeepsInv(c, s, e);
    if s.shutdown.closed { ReleaseNeedsIdle(c, s, e); } else { OpenReleaseIsClose(c, s, e); }
    if Step(c, s, e).history.closeFailures > 1 {
      CloseFailuresComeFromCalls(c, s, e);
      OneFailurePerStep(c, s, e);
      SecondFailureReleases(c, s, e.random, e.now);
    }
  }

  lemma OneFailurePerStep(c: Config, s: State, e: Event)
    requires c.Valid() && Inv(c, s) && Enabled(s, e) && e.Completed?
    ensures Step(c, s, e).history.closeFailures <= s.history.closeFailures + 1
  {
    CompletionFrame(c, s, e.index, e.ok, e.random, e.now);
  }

  /** The step that settles the only call in flight as a failure, once closed. */
  lemma ClosedFailure(c: Config, s: State, a: Entry)
    requires c.Valid() && s.shutdown.closed && s.queue.writing == [[a]] && s.queue.buffer == [] && s.queue.inflight == 1
    ensures var s' := Step(c, s, Completed(0, false, 0.0, 0.0));
            && s'.queue.writing == [] && s'.queue.buffer == [a] && s'.queue.inflight == 0
            && s'.queue.dropped == s.queue.dropped && s'.history.delivered == s.history.delivered
            && s'.outage == s.outage && s'.retry == s.retry
            && s'.shutdown == (if s.shutdown.retryUsed then s.shutdown.(idleWaiters := 0)
                               else s.shutdown.(retryUsed := true, microtasks := s.shutdown.microtasks + 1))
            && s'.history.released == s.history.released + (if s.shutdown.retryUsed then s.shutdown.idleWaiters else 0)
  {
    assert Settle(s, 0).queue.writing == [] && [a] + [] == [a];
  }

  /** close() begins while the only call is out; it fails, and the queued pump starts it again. */
  lemma SecondPass(c: Config, adapter: int, a: Entry) returns (s: State)
    requires c == Config(1, Trace, None, false, 1) && a.author != NOTICE_AUTHOR
    ensures Reached(c, adapter, s) && s.shutdown.closed && s.shutdown.retryUsed && s.shutdown.idleWaiters == 1
    ensures s.queue.writing == [[a]] && s.queue.buffer == [] && s.queue.inflight == 1 && s.queue.dropped == 0
    ensures s.history.delivered == [] && s.history.released == 0
  {
    s := FirstCall(c, adapter, a);
    ReachedStep(c, adapter, s, Close(0.0));
    s := Step(c, s, Close(0.0));
    ReachedStep(c, adapter, s, Completed(0, false, 0.0, 0.0));
    ClosedFailure(c, s, a);
    s := Step(c, s, Completed(0, false, 0.0, 0.0));
    ReachedStep(c, adapter, s, Microtask(0.0));
    PumpTakesAll(c, TakeMicrotask(s), 0.0);
    s := Step(c, s, Microtask(0.0));
  }

  /** One entry, two failures after close(): the waiter fires over an entry that is neither delivered nor dropped. */
  lemma TwoFailuresLoseAnEntry(adapter: int, a: Entry) returns (c: Config, s: State)
    requires a.author != NOTICE_AUTHOR
    ensures c.Valid() && Reached(c, adapter, s)
    ensures s.history.released == 1 && s.queue.buffer == [a] && s.queue.dropped == 0 && s.history.delivered == []
  {
    c := Config(1, Trace, None, false, 1);
    s := SecondPass(c, adapter, a);
    ReachedStep(c, adapter, s, Completed(0, false, 0.0, 0.0));
    ClosedFailure(c, s, a);
    s := Step(c, s, Completed(0, false, 0.0, 0.0));
  }
}
