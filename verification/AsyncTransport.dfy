/** The class of src/writer/buffer.writer.ts; every method is a step of AsyncProtocol. */
module AsyncWriter {
  import opened Sequences
  import opened Entries
  import P = AsyncProtocol

  const DEFAULT_BATCH_SIZE := 50
  const DEFAULT_MAX_QUEUE_SIZE := 10000

  class AsyncTransport {
    const config: P.Config
    var q: P.Queue
    var loop: P.Loop // what the event loop owes this object; never branched on, except for `closing`
    ghost var history: P.History

    ghost function Model(): P.State
      reads this
    {
      P.State(q, loop, history)
    }

    constructor (batchSize: Option<int>, maxQueueSize: Option<int>, flushOn: set<Level>, interval: bool)
      ensures config.Valid() && Model() == P.Initial()
      ensures config.flushOn == flushOn && config.interval == interval
      ensures config.batchSize == Max(1, if batchSize.Some? then batchSize.value else DEFAULT_BATCH_SIZE)
      ensures config.maxQueueSize == Max(1, if maxQueueSize.Some? then maxQueueSize.value else DEFAULT_MAX_QUEUE_SIZE)
    {
      config := P.Config(
        Max(1, if batchSize.Some? then batchSize.value else DEFAULT_BATCH_SIZE),
        Max(1, if maxQueueSize.Some? then maxQueueSize.value else DEFAULT_MAX_QUEUE_SIZE),
        flushOn, interval);
      q := P.Initial().q;
      loop := P.Initial().loop;
      history := P.Initial().history;
    }

    /** `promise` names the promise this call returns. */
    method Write(entry: Entry, promise: int)
      requires config.Valid() && promise == history.writes
      modifies this
      ensures Model() == P.WriteEntry(config, old(Model()), entry)
    {
      if q.closed || q.pending >= config.maxQueueSize {
        history := P.Reject(Model()).history;
        q := q.(dropped := q.dropped + 1);
        return;
      }
      history := P.Enqueue(Model(), entry).history;
      q := q.(pending := q.pending + 1);
      q := q.(queue := q.queue + [P.Item(entry, promise)]);
      if |q.queue| >= config.batchSize || entry.level in config.flushOn {
        Flush();
      } else {
        ScheduleFlush();
      }
    }

    method ScheduleFlush()
      modifies this
      ensures Model() == P.ScheduleFlush(old(Model()))
    {
      if q.flushing || q.scheduled || |q.queue| == 0 { return; }
      q := q.(scheduled := true);
      loop := loop.(microtasks := loop.microtasks + 1);
    }

    /** flush() up to its await. */
    method Flush()
      requires config.Valid()
      modifies this
      ensures Model() == P.Flush(config, old(Model()))
    {
      if !q.flushing && |q.queue| > 0 {
        var n := Min(config.batchSize, |q.queue|);
        var batch := q.queue[..n];
        q := q.(queue := q.queue[n..]);
        // runFlush hands the batch to the inner transport before its first await.
        loop := loop.(flying := loop.flying + [batch]);
        q := q.(flushing := true);
      }
      if q.flushing {
        loop := loop.(waiting := loop.waiting + 1);
      }
    }

    /** runFlush after its await, and the resumption of everyone who waited for it. */
    method ResumeRunFlush(k: nat, batch: seq<P.Item>, ok: bool)
      requires config.Valid() && k < |loop.flying| && batch == loop.flying[k]
      modifies this
      ensures Model() == P.Step(config, old(Model()), P.Settled(k, ok))
    {
      history := P.SettleBatch(Model(), k, ok).history;
      loop := loop.(flying := loop.flying[..k] + loop.flying[k + 1..]);
      if !ok {
        q := q.(transportErrors := q.transportErrors + 1);
      }
      q := q.(pending := q.pending - |batch|);
      q := q.(flushing := false);
      assert Model() == P.SettleBatch(old(Model()), k, ok);
      if |q.queue| > 0 { ScheduleFlush(); }
      loop := P.WakeWaiters(P.State(q, loop, P.Initial().history)).loop;
    }

    /** The microtask queued by scheduleFlush. */
    method OnMicrotask()
      requires config.Valid() && loop.microtasks > 0
      modifies this
      ensures Model() == P.Step(config, old(Model()), P.Microtask)
    {
      loop := loop.(microtasks := loop.microtasks - 1);
      q := q.(scheduled := false);
      Flush();
    }

    /** flush() after its await: it calls itself again. */
    method ResumeFlush()
      requires config.Valid() && loop.ready > 0
      modifies this
      ensures Model() == P.Step(config, old(Model()), P.ResumeFlush)
    {
      loop := loop.(ready := loop.ready - 1);
      Flush();
    }

    /** close() up to its first await. */
    method Close()
      requires config.Valid()
      modifies this
      ensures Model() == P.BeginClose(config, old(Model()))
    {
      if loop.closer != P.Open { return; }
      q := q.(closed := true);
      q := q.(scheduled := false);
      WaitForFlushes();
    }

    method WaitForFlushes()
      requires config.Valid()
      modifies this
      ensures Model() == P.WaitForFlushes(config, old(Model()))
    {
      if q.flushing {
        loop := loop.(closer := P.Awaiting);
        return;
      }
      if |q.queue| > 0 {
        Flush();
        loop := loop.(closer := P.Awaiting);
        return;
      }
      loop := loop.(closer := P.Done);
    }
  }
}
