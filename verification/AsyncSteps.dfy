/** What each step of the batching transport does to its queue and to those who wait for it. */
module AsyncSteps {
  import opened Sequences
  import opened Entries
  import opened AsyncProtocol
  import opened AsyncSafety

  /** How many entries the next batch takes: all that are queued, up to the batch size. */
  function Head(c: Config, queue: seq<Item>): (n: nat)
    requires c.Valid()
    ensures n <= |queue|
  {
    if |queue| < c.batchSize then |queue| else c.batchSize
  }

  lemma FlushTakesHead(c: Config, s: State)
    requires c.Valid() && SingleFlush(c, s)
    ensures var s' := Flush(c, s);
            var n := Head(c, s.q.queue);
            && (if s.loop.flying == [] && s.q.queue != [] then
                  s'.loop.flying == [s.q.queue[..n]] && s'.q.queue == s.q.queue[n..]
                else s'.loop.flying == s.loop.flying && s'.q.queue == s.q.queue)
            && s'.q.pending == s.q.pending && s'.q.dropped == s.q.dropped
            && s'.q.transportErrors == s.q.transportErrors && s'.history == s.history
            && s'.loop.waiting == s.loop.waiting + (if s.loop.flying != [] || s.q.queue != [] then 1 else 0)
            && s'.loop.microtasks == s.loop.microtasks && s'.loop.ready == s.loop.ready
            && s'.loop.closer == s.loop.closer
  {
    FlushKeeps(c, s);
  }

  /**
   * flush(), the interval and a scheduled flush start the whole head batch if none is in flight. Whoever called
   * waits exactly as long as something is queued or in flight.
   */
  lemma FlushIsExact(c: Config, s: State, e: Event)
    requires c.Valid() && Inv(c, s) && Enabled(c, s, e)
    requires e.FlushCall? || e.Tick? || e.Microtask? || e.ResumeFlush?
    ensures var s' := Step(c, s, e);
            var n := Head(c, s.q.queue);
            && (if s.loop.flying == [] && s.q.queue != [] then
                  s'.loop.flying == [s.q.queue[..n]] && s'.q.queue == s.q.queue[n..]
                else s'.loop.flying == s.loop.flying && s'.q.queue == s.q.queue)
            && s'.q.pending == s.q.pending && s'.q.dropped == s.q.dropped
            && s'.q.transportErrors == s.q.transportErrors && s'.history == s.history
            && s'.loop.waiting == s.loop.waiting + (if s.loop.flying != [] || s.q.queue != [] then 1 else 0)
            && s'.loop.microtasks == s.loop.microtasks - (if e.Microtask? then 1 else 0)
            && s'.loop.ready == s.loop.ready - if e.ResumeFlush? then 1 else 0
  {
    match e
    case Microtask => FlushTakesHead(c, TakeMicrotask(s));
    case ResumeFlush => FlushTakesHead(c, TakeReady(s));
    case _ => FlushTakesHead(c, s);
  }

  /**
   * An accepted write joins the queue. It starts the head batch at once if it is urgent or fills a batch and none
   * is in flight; otherwise it waits for the batch in flight or for a flush that is scheduled.
   */
  lemma AcceptedWriteIsExact(c: Config, s: State, entry: Entry)
    requires c.Valid() && Inv(c, s) && !s.q.closed && s.q.pending < c.maxQueueSize
    ensures var s' := Step(c, s, Write(entry));
            var queue := s.q.queue + [Item(entry, s.history.writes)];
            var n := Head(c, queue);
            && s'.q.pending == s.q.pending + 1 && s'.q.dropped == s.q.dropped
            && s'.loop.microtasks == s.loop.microtasks
               + (if s.loop.flying == [] && !s.q.scheduled && entry.level !in c.flushOn && |queue| < c.batchSize then 1
                  else 0)
            && if s.loop.flying == [] && (entry.level in c.flushOn || |queue| >= c.batchSize) then
                 s'.loop.flying == [queue[..n]] && s'.q.queue == queue[n..]
               else
                 && s'.loop.flying == s.loop.flying && s'.q.queue == queue
                 && (s.loop.flying == [] ==> s'.q.scheduled && s'.loop.microtasks > 0)
  {
    var s' := Enqueue(s, entry);
    if |s'.q.queue| >= c.batchSize || entry.level in c.flushOn { FlushTakesHead(c, s'); }
  }

  /** A refused write is counted, resolved at once, and changes nothing else. */
  lemma RefusedWriteIsExact(c: Config, s: State, entry: Entry)
    requires c.Valid() && Inv(c, s) && (s.q.closed || s.q.pending >= c.maxQueueSize)
    ensures var s' := Step(c, s, Write(entry));
            && s'.q == s.q.(dropped := s.q.dropped + 1) && s'.loop == s.loop
            && s'.history.resolved == s.history.resolved + [s.history.writes]
            && s'.history.accepted == s.history.accepted && s'.history.settled == s.history.settled
  {
  }

  /** A settled batch wakes everyone who waited for it, and close() if it did. */
  lemma SettlementWakesAll(c: Config, s: State, ok: bool)
    requires c.Valid() && Inv(c, s) && s.loop.flying != []
    ensures var s' := Step(c, s, Settled(0, ok));
            && s'.loop.flying == [] && s'.q.queue == s.q.queue
            && s'.loop.ready == s.loop.ready + s.loop.waiting && s'.loop.waiting == 0
            && s'.loop.closer == (if s.loop.closer == Awaiting then Ready else s.loop.closer)
            && s'.q.closed == s.q.closed && s'.q.dropped == s.q.dropped
            && s'.loop.microtasks == s.loop.microtasks + (if s.q.queue != [] && !s.q.scheduled then 1 else 0)
  {
  }

  /** What one pass of waitForFlushes leaves. */
  ghost predicate Waits(c: Config, s: State, s': State)
    requires c.Valid()
  {
    var n := Head(c, s.q.queue);
    && s'.q.closed == s.q.closed && s'.q.pending == s.q.pending && s'.history == s.history
    && (if s.loop.flying == [] && s.q.queue != [] then
          s'.loop.flying == [s.q.queue[..n]] && s'.q.queue == s.q.queue[n..]
        else s'.loop.flying == s.loop.flying && s'.q.queue == s.q.queue)
    && s'.loop.closer == if s.loop.flying == [] && s.q.queue == [] then Done else Awaiting
  }

  lemma WaitIsExact(c: Config, s: State)
    requires c.Valid() && SingleFlush(c, s)
    ensures Waits(c, s, WaitForFlushes(c, s))
  {
    FlushTakesHead(c, s);
    FlushKeeps(c, s);
  }

  /** close() and its continuations start the head batch and wait, until nothing is queued or in flight. */
  lemma CloseIsExact(c: Config, s: State, e: Event)
    requires c.Valid() && Inv(c, s) && Enabled(c, s, e) && (e.Close? || e.ResumeClose?)
    ensures if e.Close? && s.q.closed then Step(c, s, e) == s
            else Waits(c, if e.Close? then s.(q := s.q.(closed := true, scheduled := false)) else s, Step(c, s, e))
  {
    if !(e.Close? && s.q.closed) {
      WaitIsExact(c, if e.Close? then s.(q := s.q.(closed := true, scheduled := false)) else s);
    }
  }
}
