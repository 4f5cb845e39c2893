/**
 * The class of src/writer/database.writer.ts; every method is a step of DatabaseProtocol.
 * Its fields are grouped into the protocol's records; what the event loop knows
 * (`writing`, `factories`, `microtasks`) travels in them and is never branched on.
 */
module DatabaseWriter {
  import opened Sequences
  import opened Entries
  import opened RetrySchedule
  import P = DatabaseProtocol

  const DEFAULT_MAX_BUFFER_SIZE := 100
  const DEFAULT_RECONNECT_ATTEMPTS := 3

  class DatabaseTransport {
    const config: P.Config
    var queue: P.Queue
    var retry: P.RetryState
    var outage: P.Outage
    var shutdown: P.Shutdown
    ghost var history: P.History

    ghost function Model(): P.State
      reads this
    {
      P.State(queue, retry, outage, shutdown, history)
    }

    constructor (adapter: int, level: Option<Level>, maxBufferSize: Option<int>, retrySettings: Option<Settings>,
                 createAdapter: bool, maxAttempts: Option<int>)
      ensures config.Valid() && Model() == P.Initial(adapter)
      ensures config.retry == ResolveRetry(retrySettings) && config.rebuilds == createAdapter
      ensures config.level == GetOr(level, Debug)
      ensures config.batchSize == Max(1, GetOr(maxBufferSize, DEFAULT_MAX_BUFFER_SIZE))
      ensures config.maxReconnects == Max(1, GetOr(maxAttempts, DEFAULT_RECONNECT_ATTEMPTS))
    {
      config := P.Config(
        Max(1, GetOr(maxBufferSize, DEFAULT_MAX_BUFFER_SIZE)),
        GetOr(level, Debug),
        ResolveRetry(retrySettings),
        createAdapter,
        Max(1, GetOr(maxAttempts, DEFAULT_RECONNECT_ATTEMPTS)));
      queue := P.Queue([], 0, [], 0, 0);
      retry := P.RetryState(0, 0.0, false);
      outage := P.Outage(false, 0, false, 0, adapter);
      shutdown := P.Shutdown(false, false, false, true, 0, 0);
      history := P.Initial(adapter).history;
    }

    method Write(entry: Entry, now: real)
      requires config.Valid()
      modifies this
      ensures Model() == P.WriteEntry(config, old(Model()), entry, now)
    {
      if entry.author == P.NOTICE_AUTHOR { return; }
      if shutdown.closed || Rank(entry.level) < Rank(config.level) { return; }
      history := P.Submit(Model(), entry).history;
      if outage.recovering && |queue.buffer| >= P.RECOVERY_BACKLOG_CAP {
        queue := queue.(dropped := queue.dropped + 1);
        return;
      }
      history := P.Enqueue(Model(), entry).history;
      queue := queue.(buffer := queue.buffer + [entry]);
      if |queue.buffer| >= config.batchSize { Pump(now); }
    }

    method WriteBatch(entries: seq<Entry>, now: real)
      requires config.Valid() && now >= 0.0
      modifies this
      ensures Model() == P.Run(config, old(Model()), P.WriteCalls(entries, now))
    {
      for i := 0 to |entries|
        invariant P.Run(config, old(Model()), P.WriteCalls(entries, now))
               == P.Run(config, Model(), P.WriteCalls(entries[i..], now))
      {
        assert entries[i..][0] == entries[i] && entries[i..][1..] == entries[i + 1..];
        assert P.WriteCalls(entries[i..], now)[1..] == P.WriteCalls(entries[i + 1..], now);
        Write(entries[i], now);
      }
    }

    method TakeBatch() returns (batch: seq<Entry>)
      requires config.Valid()
      modifies `queue
      ensures var n := P.HeadLength(config, old(queue));
              batch == old(queue).buffer[..n] && queue == old(queue).(buffer := old(queue).buffer[n..])
    {
      var n := Min(config.batchSize, |queue.buffer|);
      batch := queue.buffer[..n];
      queue := queue.(buffer := queue.buffer[n..]);
    }

    method Pump(now: real)
      requires config.Valid()
      modifies this
      ensures Model() == P.Pump(config, old(Model()), now)
    {
      if queue.inflight > 0 { return; }
      if outage.timer { return; }
      if |queue.buffer| > 0 && now < retry.dueAt { return; }
      var batch := TakeBatch();
      if |batch| == 0 {
        assert queue.buffer == old(queue).buffer;
        NotifyIdle();
        return;
      }
      // The adapter call starts here, before the first await of writeNext.
      queue := queue.(inflight := queue.inflight + 1, writing := queue.writing + [batch]);
      history := P.HandOver(config, old(Model())).history;
    }

    /** writeNext after its await: call `k` settled, with the batch it captured. */
    method ResumeWriteNext(k: nat, batch: seq<Entry>, ok: bool, now: real, random: real)
      requires config.Valid() && now >= 0.0 && 0.0 <= random < 1.0
      requires k < |queue.writing| && batch == queue.writing[k]
      modifies this
      ensures Model() == P.Step(config, old(Model()), P.Completed(k, ok, random, now))
    {
      queue := queue.(inflight := queue.inflight - 1, writing := queue.writing[..k] + queue.writing[k + 1..]);
      if !ok {
        FailWrite(batch, now, random);
        return;
      }
      history := P.Deliver(Model(), batch).history;
      if outage.recovering {
        outage := outage.(recovering := false, attempt := 0);
      }
      ResetRetry();
      Pump(now);
    }

    /** The failure branch of writeNext. */
    method FailWrite(batch: seq<Entry>, now: real, random: real)
      requires config.Valid()
      modifies this
      ensures Model() == P.WriteFailed(config, old(Model()), batch, now, random)
    {
      history := P.Requeue(Model(), batch).history;
      queue := queue.(transportErrors := queue.transportErrors + 1, buffer := batch + queue.buffer);
      if shutdown.closed && !shutdown.retryUsed {
        shutdown := shutdown.(retryUsed := true, microtasks := shutdown.microtasks + 1);
        return;
      }
      if !shutdown.closed && outage.recovering && config.rebuilds {
        ContinueRecovery();
        return;
      }
      if !shutdown.closed && config.retry.Some? {
        ScheduleRetry(now, random);
      }
      NotifyIdle();
    }

    method ScheduleRetry(now: real, random: real)
      requires config.Valid()
      modifies this
      ensures Model() == P.ScheduleRetry(config, old(Model()), now, random)
    {
      if config.retry.None? { return; }
      retry := retry.(attempt := retry.attempt + 1);
      if config.retry.value.attempts.Reached(retry.attempt) {
        if config.rebuilds {
          StartRecovery();
          return;
        }
        history := P.DropHead(config, Model()).history;
        var batch := TakeBatch();
        queue := queue.(dropped := queue.dropped + |batch|);
        ResetRetry();
        return;
      }
      var waitMs := P.Wait(config.retry.value, retry.attempt, random);
      retry := retry.(dueAt := now + waitMs, timer := true);
    }

    method StartRecovery()
      modifies this
      ensures Model() == P.StartRecovery(old(Model()))
    {
      if outage.recovering { return; }
      outage := outage.(recovering := true, attempt := 0);
      ResetRetry();
      ScheduleReconnect();
      history := history.(outageCalls := 0);
    }

    method ScheduleReconnect()
      modifies `outage
      ensures outage == old(outage).(timer := true)
    {
      outage := outage.(timer := true);
    }

    method AttemptReconnect()
      modifies this
      ensures Model() == P.AttemptReconnect(config, old(Model()))
    {
      if shutdown.closed || !outage.recovering || !config.rebuilds { return; }
      outage := outage.(attempt := outage.attempt + 1, factories := outage.factories + 1);
      history := history.(outageCalls := history.outageCalls + 1);
    }

    /** attemptReconnect after its await: the factory settled with `built`, or failed. */
    method ResumeAttemptReconnect(ok: bool, built: int, now: real)
      requires config.Valid() && outage.factories > 0
      modifies this
      ensures Model() == P.FactoryReturns(config, old(Model()), ok, built, now)
    {
      outage := outage.(factories := outage.factories - 1);
      if !ok {
        if shutdown.closed { return; }
        FailRecoveryAttempt();
        return;
      }
      outage := outage.(adapter := built);
      if shutdown.closed { return; }
      Pump(now);
    }

    method ContinueRecovery()
      modifies this
      ensures Model() == P.FailRecoveryAttempt(config, old(Model()))
    {
      if outage.attempt >= config.maxReconnects {
        FinishRecoveryFailure();
        return;
      }
      FailRecoveryAttempt();
    }

    method FailRecoveryAttempt()
      modifies this
      ensures Model() == P.FailRecoveryAttempt(config, old(Model()))
    {
      if outage.attempt >= config.maxReconnects {
        FinishRecoveryFailure();
        return;
      }
      ScheduleReconnect();
    }

    method FinishRecoveryFailure()
      modifies this
      ensures Model() == P.FinishRecoveryFailure(old(Model()))
    {
      history := P.DropBacklog(Model()).history;
      outage := outage.(recovering := false, attempt := 0, timer := false);
      var droppedCount := |queue.buffer|;
      queue := queue.(buffer := [], dropped := queue.dropped + droppedCount);
      NotifyIdle();
    }

    method ResetRetry()
      modifies `retry
      ensures retry == P.RetryState(0, 0.0, false)
    {
      retry := P.RetryState(0, 0.0, false);
    }

    method NotifyIdle()
      modifies `shutdown, `history
      ensures Model() == P.NotifyIdle(old(Model()))
    {
      if queue.inflight > 0 || (|queue.buffer| > 0 && !shutdown.closed) { return; }
      history := history.(released := history.released + shutdown.idleWaiters);
      shutdown := shutdown.(idleWaiters := 0);
    }

    method Flush(now: real)
      requires config.Valid()
      modifies this
      ensures Model() == P.Pump(config, old(Model()), now)
    {
      Pump(now);
    }

    /** close() up to the await of its waiter. */
    method Close(now: real)
      requires config.Valid()
      modifies this
      ensures Model() == P.BeginClose(config, old(Model()), now)
    {
      if shutdown.closing { return; }
      shutdown := shutdown.(closing := true, closed := true, flushTimer := false);
      outage := outage.(recovering := false, timer := false);
      ResetRetry();
      shutdown := shutdown.(retryUsed := false, idleWaiters := shutdown.idleWaiters + 1);
      history := history.(closeFailures := 0);
      Pump(now);
    }

    /** The callback of the flush interval. */
    method OnTick(now: real)
      requires config.Valid() && shutdown.flushTimer && now >= 0.0
      modifies this
      ensures Model() == P.Step(config, old(Model()), P.Tick(now))
    {
      Pump(now);
    }

    /** The callback of the retry timer. */
    method OnRetryTimer(now: real)
      requires config.Valid() && retry.timer && now >= 0.0
      modifies this
      ensures Model() == P.Step(config, old(Model()), P.RetryFires(now))
    {
      retry := retry.(timer := false);
      Pump(now);
    }

    /** The callback of the reconnect timer. */
    method OnReconnectTimer(now: real)
      requires config.Valid() && outage.timer && now >= 0.0
      modifies this
      ensures Model() == P.Step(config, old(Model()), P.ReconnectFires(now))
    {
      outage := outage.(timer := false);
      AttemptReconnect();
    }

    /** The microtask queued by the first failure after close(). */
    method OnMicrotask(now: real)
      requires config.Valid() && shutdown.microtasks > 0 && now >= 0.0
      modifies this
      ensures Model() == P.Step(config, old(Model()), P.Microtask(now))
    {
      shutdown := shutdown.(microtasks := shutdown.microtasks - 1);
      Pump(now);
    }
  }
}
