/** What every step of the database transport keeps, and what follows for whole runs. */
module DatabaseSafety {
  import opened Sequences
  import opened Entries
  import opened RetrySchedule
  import opened DatabaseProtocol

  function Flying(s: State): seq<Entry> { Flat(s.queue.writing) }

  /** Everything the transport is still responsible for, or has delivered, in queue order. */
  function Kept(s: State): seq<Entry> { s.history.delivered + Flying(s) + s.queue.buffer }

  /** At most one adapter call is outstanding, and it carries a batch of legal size. */
  ghost predicate SingleWriter(c: Config, s: State) {
    && s.queue.inflight == |s.queue.writing| <= 1
    && (forall k :: 0 <= k < |s.queue.writing| ==> 1 <= |s.queue.writing[k]| <= c.batchSize)
    && s.history.handed == s.history.acked + s.queue.transportErrors + s.queue.inflight
  }

  /** FIFO without duplication; the missing entries are exactly the dropped ones. */
  ghost predicate Conserved(s: State) {
    && Subseq(Kept(s), s.history.submitted)
    && |s.history.submitted| == |Kept(s)| + s.queue.dropped
    && |s.history.tries| == |Flying(s)| + |s.queue.buffer|
    && (forall i :: 0 <= i < |s.history.tries| ==> s.history.tries[i] >= if i < |Flying(s)| then 1 else 0)
  }

  ghost predicate RecoveryBounded(c: Config, s: State) {
    && 0 <= s.outage.attempt <= c.maxReconnects
    && (s.outage.timer ==> s.outage.attempt < c.maxReconnects)
    && s.history.outageCalls <= c.maxReconnects
    && s.outage.factories >= 0
    && (s.outage.recovering ==> c.rebuilds && s.history.outageCalls == s.outage.attempt)
    && (s.outage.recovering && s.outage.attempt == 0 ==> s.outage.timer)
  }

  ghost predicate RetryBounded(c: Config, s: State) {
    && s.retry.attempt >= 0
    && (c.retry.Some? ==> !c.retry.value.attempts.Reached(s.retry.attempt))
    && (s.retry.attempt == 0 ==> s.retry.dueAt == 0.0 && !s.retry.timer)
    && (c.retry.None? ==> s.retry.attempt == 0)
  }

  /** Number of adapter calls entry `i` of the queue may have seen. */
  function TryBound(c: Config, s: State, i: nat): int {
    if s.queue.writing != [] then (if i < |Flying(s)| then s.retry.attempt + 1 else 0)
    else if i < c.batchSize then s.retry.attempt else 0
  }

  ghost predicate TriesBounded(c: Config, s: State) {
    c.retry.Some? && !c.rebuilds && !s.shutdown.closed ==>
      forall i :: 0 <= i < |s.history.tries| ==> s.history.tries[i] <= TryBound(c, s, i)
  }

  ghost predicate ClosingBase(s: State) {
    && s.shutdown.closing == s.shutdown.closed
    && 0 <= s.shutdown.microtasks <= 1 && (s.shutdown.microtasks > 0 ==> s.shutdown.retryUsed)
    && 0 <= s.shutdown.idleWaiters && 0 <= s.history.released && 0 <= s.history.closeFailures
    && (!s.shutdown.closed ==>
          && s.shutdown.idleWaiters == 0 && s.history.released == 0
          && s.shutdown.microtasks == 0 && !s.shutdown.retryUsed)
    && (s.shutdown.closed ==>
          && !s.shutdown.flushTimer && !s.outage.recovering && !s.outage.timer
          && s.retry.attempt == 0 && s.retry.dueAt == 0.0 && !s.retry.timer
          && s.shutdown.idleWaiters + s.history.released == 1
          && (s.shutdown.retryUsed <==> s.history.closeFailures > 0)
          && (s.history.released == 0 ==> s.history.closeFailures <= 1)
          && (s.history.released == 1 && s.history.closeFailures <= 1 ==>
                s.queue.buffer == [] && s.queue.writing == []))
  }

  /** A pending close() waiter is never stranded: something will still run. */
  ghost predicate Closing(s: State) {
    ClosingBase(s) && (s.shutdown.idleWaiters == 1 ==> s.queue.inflight > 0 || s.shutdown.microtasks > 0)
  }

  ghost predicate Inv(c: Config, s: State) {
    && SingleWriter(c, s)
    && Conserved(s)
    && RecoveryBounded(c, s)
    && RetryBounded(c, s)
    && TriesBounded(c, s)
    && Closing(s)
  }

  // ----- preservation, function by function -----

  lemma InitialInv(c: Config, adapter: int)
    requires c.Valid()
    ensures Inv(c, Initial(adapter))
  {
  }

  lemma {:induction false} CountTryExact(tries: seq<int>, n: nat)
    ensures |CountTry(tries, n)| == |tries|
    ensures forall i :: 0 <= i < |tries| ==> CountTry(tries, n)[i] == if i < n then tries[i] + 1 else tries[i]
    decreases n
  {
    if n > 0 && tries != [] {
      CountTryExact(tries[1..], n - 1);
      forall i | 0 < i < |tries| ensures CountTry(tries, n)[i] == CountTry(tries[1..], n - 1)[i - 1] {
      }
    }
  }

  lemma HandOverKeepsQueue(c: Config, s: State)
    requires c.Valid() && SingleWriter(c, s) && Conserved(s) && s.queue.writing == [] && s.queue.buffer != []
    ensures SingleWriter(c, HandOver(c, s)) && Conserved(HandOver(c, s))
  {
    var s', n := HandOver(c, s), HeadLength(c, s.queue);
    assert s'.queue.writing == [s.queue.buffer[..n]];
    FlatOne(s.queue.buffer[..n]);
    HandOverKeepsOrder(s.history.delivered, s.queue.buffer, n);
    assert Kept(s') == Kept(s);
    CountTryExact(s.history.tries, n);
  }

  lemma PumpKeepsQueue(c: Config, s: State, now: real)
    requires c.Valid() && SingleWriter(c, s) && Conserved(s)
    ensures SingleWriter(c, Pump(c, s, now)) && Conserved(Pump(c, s, now))
  {
    var starts := s.queue.inflight == 0 && !s.outage.timer && now >= s.retry.dueAt && s.queue.buffer != [];
    if starts { HandOverKeepsQueue(c, s); }
  }

  lemma HandOverKeepsOrder(delivered: seq<Entry>, buffer: seq<Entry>, n: nat)
    requires n <= |buffer|
    ensures delivered + buffer[..n] + buffer[n..] == delivered + [] + buffer
  {
    assert buffer[..n] + buffer[n..] == buffer;
  }

  lemma PumpKeepsTries(c: Config, s: State, now: real)
    requires c.Valid() && SingleWriter(c, s) && Conserved(s) && TriesBounded(c, s)
    ensures TriesBounded(c, Pump(c, s, now))
  {
    var s' := Pump(c, s, now);
    if s'.queue.writing != s.queue.writing {
      var n := HeadLength(c, s.queue);
      assert s'.queue.writing == [s.queue.buffer[..n]];
      CountTryExact(s.history.tries, n);
      FlatOne(s.queue.buffer[..n]);
    }
  }

  ghost predicate Core(c: Config, s: State) {
    SingleWriter(c, s) && Conserved(s) && RecoveryBounded(c, s) && RetryBounded(c, s) && TriesBounded(c, s)
  }

  lemma PumpKeepsCore(c: Config, s: State, now: real)
    requires c.Valid() && Core(c, s)
    ensures Core(c, Pump(c, s, now))
  {
    PumpKeepsQueue(c, s, now);
    PumpKeepsTries(c, s, now);
  }

  /** A pump never strands a close() waiter: it fires it or starts a call that will. */
  lemma PumpWakesCloser(c: Config, s: State, now: real)
    requires c.Valid() && now >= 0.0 && SingleWriter(c, s) && ClosingBase(s)
    ensures Closing(Pump(c, s, now))
  {
  }

  lemma PumpKeepsInv(c: Config, s: State, now: real)
    requires c.Valid() && now >= 0.0 && Core(c, s) && ClosingBase(s)
    ensures Inv(c, Pump(c, s, now))
  {
    PumpKeepsCore(c, s, now);
    PumpWakesCloser(c, s, now);
  }

  lemma EnqueueKeepsQueue(c: Config, s: State, entry: Entry)
    requires c.Valid() && Conserved(s)
    ensures Conserved(Enqueue(Submit(s, entry), entry))
  {
    var s' := Enqueue(Submit(s, entry), entry);
    SubseqExtendBoth(Kept(s), s.history.submitted, entry);
    assert Kept(s') == Kept(s) + [entry];
  }

  lemma EnqueueKeepsTries(c: Config, s: State, entry: Entry)
    requires c.Valid() && Conserved(s) && TriesBounded(c, s) && RetryBounded(c, s)
    ensures TriesBounded(c, Enqueue(Submit(s, entry), entry))
  {
  }

  lemma EnqueueKeepsCore(c: Config, s: State, entry: Entry)
    requires c.Valid() && Core(c, s)
    ensures Core(c, Enqueue(Submit(s, entry), entry))
  {
    EnqueueKeepsQueue(c, s, entry);
    EnqueueKeepsTries(c, s, entry);
  }

  lemma WriteKeepsInv(c: Config, s: State, entry: Entry, now: real)
    requires c.Valid() && now >= 0.0 && Inv(c, s)
    ensures Inv(c, WriteEntry(c, s, entry, now))
  {
    if Accepts(c, s.shutdown.closed, entry) {
      if s.outage.recovering && |s.queue.buffer| >= RECOVERY_BACKLOG_CAP {
        SubseqExtendRight(Kept(s), s.history.submitted, entry);
        assert Kept(WriteEntry(c, s, entry, now)) == Kept(s);
      } else {
        EnqueueKeepsCore(c, s, entry);
        PumpKeepsInv(c, Enqueue(Submit(s, entry), entry), now);
      }
    }
  }

  lemma CloseKeepsInv(c: Config, s: State, now: real)
    requires c.Valid() && now >= 0.0 && Inv(c, s)
    ensures Inv(c, BeginClose(c, s, now))
  {
    if !s.shutdown.closing {
      var s' := OpenClose(s);
      assert Kept(s') == Kept(s);
      PumpKeepsInv(c, s', now);
    }
  }

  lemma DropHeadKeepsQueue(c: Config, s: State)
    requires c.Valid() && SingleWriter(c, s) && Conserved(s) && s.queue.writing == []
    ensures SingleWriter(c, DropHead(c, s)) && Conserved(DropHead(c, s))
  {
    var s' := DropHead(c, s);
    var n := HeadLength(c, s.queue);
    var delivered := s.history.delivered;
    assert s.queue.buffer == s.queue.buffer[..n] + s.queue.buffer[n..];
    assert Kept(s) == delivered + s.queue.buffer[..n] + s.queue.buffer[n..];
    SubseqCut(delivered, s.queue.buffer[..n], s.queue.buffer[n..], s.history.submitted);
    assert Kept(s') == delivered + s.queue.buffer[n..];
  }

  lemma DropBacklogKeepsQueue(s: State)
    requires Conserved(s)
    ensures Conserved(DropBacklog(s))
  {
    var s' := DropBacklog(s);
    var head := s.history.delivered + Flying(s);
    assert Kept(s) == head + s.queue.buffer + [];
    SubseqCut(head, s.queue.buffer, [], s.history.submitted);
    assert Kept(s') == head + [];
  }

  lemma GiveUpKeepsInv(c: Config, s: State)
    requires c.Valid() && Core(c, s) && !s.shutdown.closed && Closing(s)
    ensures Inv(c, FinishRecoveryFailure(s))
  {
    DropBacklogKeepsQueue(s);
    assert Core(c, DropBacklog(s));
  }

  /** The state right after a failed batch went back to the head of the queue. */
  lemma RequeueRestoresQueue(c: Config, s: State)
    requires c.Valid() && Core(c, s) && s.queue.writing != []
    ensures var s' := Requeue(Settle(s, 0), s.queue.writing[0]);
            && s'.queue.writing == [] && SingleWriter(c, s') && Conserved(s')
            && (TriesBounded(c, s) ==> TriesBounded(c, CountAttempt(s')))
  {
    var s' := Requeue(Settle(s, 0), s.queue.writing[0]);
    assert s.queue.writing == [s.queue.writing[0]];
    FlatOne(s.queue.writing[0]);
    assert Kept(s') == Kept(s);
  }

  /** A queue at rest after a failure, before the retry policy is applied. */
  ghost predicate Failed(c: Config, s: State) {
    && SingleWriter(c, s) && Conserved(s) && RecoveryBounded(c, s) && RetryBounded(c, s)
    && TriesBounded(c, CountAttempt(s))
    && s.queue.writing == [] && !s.shutdown.closed && Closing(s)
  }

  /** An open transport has no close() waiter to notify. */
  lemma NobodyWaits(c: Config, s: State)
    requires Inv(c, s) && !s.shutdown.closed
    ensures NotifyIdle(s) == s
  {
  }

  lemma DropKeepsInv(c: Config, s: State)
    requires c.Valid() && Failed(c, s) && c.retry.Some? && !c.rebuilds
    ensures Inv(c, ResetRetry(DropHead(c, CountAttempt(s))))
  {
    var s1 := CountAttempt(s);
    assert Kept(s1) == Kept(s);
    DropHeadKeepsQueue(c, s1);
    var s2 := ResetRetry(DropHead(c, s1));
    assert Kept(s2) == Kept(DropHead(c, s1));
    assert TriesBounded(c, s2);
    assert Conserved(s2);
  }

  lemma OutageKeepsInv(c: Config, s: State)
    requires c.Valid() && Failed(c, s) && c.rebuilds && !s.outage.recovering
    ensures Inv(c, StartRecovery(CountAttempt(s)))
  {
    var s' := StartRecovery(CountAttempt(s));
    assert Kept(s') == Kept(s);
    assert Conserved(s');
  }

  lemma BackoffKeepsInv(c: Config, s: State, dueAt: real)
    requires c.Valid() && Failed(c, s) && c.retry.Some?
    requires !c.retry.value.attempts.Reached(s.retry.attempt + 1)
    ensures Inv(c, ArmRetry(CountAttempt(s), dueAt))
  {
    var s' := ArmRetry(CountAttempt(s), dueAt);
    assert Kept(s') == Kept(s);
    assert Conserved(s');
  }

  lemma ScheduleRetryKeepsInv(c: Config, s: State, now: real, random: real)
    requires c.Valid() && Failed(c, s) && !(s.outage.recovering && c.rebuilds)
    ensures Inv(c, ScheduleRetry(c, s, now, random)) && !ScheduleRetry(c, s, now, random).shutdown.closed
  {
    if c.retry.Some? {
      if !c.retry.value.attempts.Reached(s.retry.attempt + 1) {
        BackoffKeepsInv(c, s, now + Wait(c.retry.value, s.retry.attempt + 1, random));
      } else if c.rebuilds {
        OutageKeepsInv(c, s);
      } else {
        DropKeepsInv(c, s);
      }
    }
  }

  /** A failure after close(): the first one asks for one more pump, a later one lets the waiter go. */
  lemma LateFailureKeepsInv(c: Config, s: State, now: real, random: real)
    requires c.Valid() && Inv(c, s) && s.queue.writing != [] && s.shutdown.closed
    ensures Inv(c, WriteFailed(c, Settle(s, 0), s.queue.writing[0], now, random))
  {
    var s' := Requeue(Settle(s, 0), s.queue.writing[0]);
    RequeueRestoresQueue(c, s);
    assert Kept(UseCloseRetry(s')) == Kept(s') && Kept(NotifyIdle(s')) == Kept(s');
  }

  lemma RequeuedHasFailed(c: Config, s: State)
    requires c.Valid() && Inv(c, s) && s.queue.writing != [] && !s.shutdown.closed
    ensures var s' := Requeue(Settle(s, 0), s.queue.writing[0]);
            Failed(c, s') && s'.outage == s.outage
  {
    RequeueRestoresQueue(c, s);
  }

  lemma RecoveryFailureKeepsInv(c: Config, s: State)
    requires c.Valid() && Failed(c, s) && s.outage.recovering && c.rebuilds
    ensures Inv(c, FailRecoveryAttempt(c, s))
  {
    if s.outage.attempt >= c.maxReconnects {
      GiveUpKeepsInv(c, s);
    } else {
      assert Kept(FailRecoveryAttempt(c, s)) == Kept(s);
    }
  }

  lemma FailureKeepsInv(c: Config, s: State, now: real, random: real)
    requires c.Valid() && now >= 0.0 && 0.0 <= random < 1.0 && Inv(c, s) && s.queue.writing != []
    ensures Inv(c, WriteFailed(c, Settle(s, 0), s.queue.writing[0], now, random))
  {
    if s.shutdown.closed {
      LateFailureKeepsInv(c, s, now, random);
    } else {
      var s' := Requeue(Settle(s, 0), s.queue.writing[0]);
      RequeuedHasFailed(c, s);
      if s.outage.recovering && c.rebuilds {
        RecoveryFailureKeepsInv(c, s');
      } else {
        ScheduleRetryKeepsInv(c, s', now, random);
        NobodyWaits(c, ScheduleRetry(c, s', now, random));
      }
    }
  }

  lemma DeliverKeepsQueue(c: Config, s: State)
    requires c.Valid() && SingleWriter(c, s) && Conserved(s) && s.queue.writing != []
    ensures var s' := Deliver(Settle(s, 0), s.queue.writing[0]);
            s'.queue.writing == [] && SingleWriter(c, s') && Conserved(s')
  {
    var batch := s.queue.writing[0];
    assert s.queue.writing == [batch];
    FlatOne(batch);
    assert Kept(Deliver(Settle(s, 0), batch)) == Kept(s);
  }

  lemma DeliverKeepsCore(c: Config, s: State)
    requires c.Valid() && Inv(c, s) && s.queue.writing != []
    ensures var s' := ResetRetry(EndOutage(Deliver(Settle(s, 0), s.queue.writing[0])));
            Core(c, s') && ClosingBase(s')
  {
    var s1 := Deliver(Settle(s, 0), s.queue.writing[0]);
    DeliverKeepsQueue(c, s);
    assert s.queue.writing == [s.queue.writing[0]];
    FlatOne(s.queue.writing[0]);
    assert Kept(ResetRetry(EndOutage(s1))) == Kept(s1);
  }

  lemma SuccessKeepsInv(c: Config, s: State, now: real)
    requires c.Valid() && now >= 0.0 && Inv(c, s) && s.queue.writing != []
    ensures Inv(c, WriteSucceeded(c, Settle(s, 0), s.queue.writing[0], now))
  {
    DeliverKeepsCore(c, s);
    PumpKeepsInv(c, ResetRetry(EndOutage(Deliver(Settle(s, 0), s.queue.writing[0]))), now);
  }

  lemma FactoryKeepsInv(c: Config, s: State, ok: bool, built: int, now: real)
    requires c.Valid() && now >= 0.0 && Inv(c, s) && s.outage.factories > 0
    ensures Inv(c, FactoryReturns(c, s, ok, built, now))
  {
    var settled := s.outage.(factories := s.outage.factories - 1);
    var s' := s.(outage := if ok then settled.(adapter := built) else settled);
    assert Kept(s') == Kept(s);
    assert Inv(c, s');
    if s.shutdown.closed {
      assert FactoryReturns(c, s, ok, built, now) == s';
    } else if ok {
      PumpKeepsInv(c, s', now);
    } else if s.outage.attempt >= c.maxReconnects {
      GiveUpKeepsInv(c, s');
    }
  }

  lemma TimersKeepInv(c: Config, s: State, now: real)
    requires c.Valid() && now >= 0.0 && Inv(c, s)
    ensures Inv(c, Pump(c, s, now))
    ensures s.retry.timer ==> Inv(c, Pump(c, DisarmRetry(s), now))
    ensures s.shutdown.microtasks > 0 ==> Inv(c, Pump(c, TakeMicrotask(s), now))
  {
    PumpKeepsInv(c, s, now);
    if s.retry.timer {
      assert Kept(DisarmRetry(s)) == Kept(s);
      PumpKeepsInv(c, DisarmRetry(s), now);
    }
    if s.shutdown.microtasks > 0 {
      assert Kept(TakeMicrotask(s)) == Kept(s);
      PumpKeepsInv(c, TakeMicrotask(s), now);
    }
  }

  /** Every step of the transport, whatever the environment does, keeps the invariant. */
  lemma StepKeepsInv(c: Config, s: State, e: Event)
    requires c.Valid() && Inv(c, s)
    ensures Inv(c, Step(c, s, e))
  {
    if Enabled(s, e) {
      match e
      case Write(entry, now) => WriteKeepsInv(c, s, entry, now);
      case Close(now) => CloseKeepsInv(c, s, now);
      case Completed(k, ok, random, now) =>
        if ok { SuccessKeepsInv(c, s, now); } else { FailureKeepsInv(c, s, now, random); }
      case FactorySettled(ok, built, now) => FactoryKeepsInv(c, s, ok, built, now);
      case ReconnectFires(_) => ReconnectKeepsInv(c, s);
      case Flush(now) => TimersKeepInv(c, s, now);
      case Tick(now) => TimersKeepInv(c, s, now);
      case RetryFires(now) => TimersKeepInv(c, s, now);
      case Microtask(now) => TimersKeepInv(c, s, now);
    }
  }

  lemma ReconnectKeepsInv(c: Config, s: State)
    requires c.Valid() && Inv(c, s) && s.outage.timer
    ensures Inv(c, AttemptReconnect(c, DisarmReconnect(s)))
  {
    assert Kept(AttemptReconnect(c, DisarmReconnect(s))) == Kept(s);
  }
}
