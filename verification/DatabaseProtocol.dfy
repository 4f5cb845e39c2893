/**
 * The delivery protocol of src/writer/database.writer.ts as a step machine.
 *
 * Each asynchronous function is cut at its `await`. What the event loop holds on
 * behalf of the transport is part of the state: `writing` (adapter calls that have
 * not settled, with the batch each one captured), `factories` (rebuilds that have
 * not settled) and `microtasks` (queued pumps). An event that is not enabled leaves
 * the state alone, so every list of events is a run.
 */
module DatabaseProtocol {
  import opened Sequences
  import opened Entries
  import opened RetrySchedule

  const NOTICE_AUTHOR := "database"
  const RECOVERY_BACKLOG_CAP := 10000

  datatype Config = Config(
    batchSize: int,
    level: Level,
    retry: Option<Retry>,
    rebuilds: bool, // a `createAdapter` factory was configured
    maxReconnects: int)
  {
    predicate Valid() {
      && batchSize >= 1
      && maxReconnects >= 1
      && (retry.Some? ==> retry.value.Valid())
    }
  }

  /** The entry queue; `writing` holds the batch of every adapter call that has not settled. */
  datatype Queue = Queue(
    buffer: seq<Entry>, inflight: int, writing: seq<seq<Entry>>, dropped: int, transportErrors: int)

  datatype RetryState = RetryState(attempt: int, dueAt: real, timer: bool)

  /** Adapter recovery; `factories` counts the factory calls that have not settled. */
  datatype Outage = Outage(recovering: bool, attempt: int, timer: bool, factories: int, adapter: int)

  /** Shutdown; `microtasks` counts the queued pumps. */
  datatype Shutdown = Shutdown(
    closed: bool, closing: bool, retryUsed: bool, flushTimer: bool, idleWaiters: int, microtasks: int)

  /** What happened so far, kept for the properties only; no step reads it. */
  datatype History = History(
    submitted: seq<Entry>,  // entries that passed the write filters
    delivered: seq<Entry>,  // entries of batches the adapter confirmed
    tries: seq<int>,        // adapter calls so far of each entry in flight, then of each buffered entry
    handed: int,            // adapter.write calls
    acked: int,             // adapter.write calls that succeeded
    closeFailures: int,     // adapter.write failures since close() began
    released: int,          // close() waiters that fired
    outageCalls: int)       // factory calls since the outage began

  datatype State = State(queue: Queue, retry: RetryState, outage: Outage, shutdown: Shutdown, history: History)

  datatype Event =
    | Write(entry: Entry, now: real)
    | Flush(now: real)
    | Close(now: real)
    | Tick(now: real)
    | RetryFires(now: real)
    | ReconnectFires(now: real)
    | Microtask(now: real)
    | Completed(index: nat, ok: bool, random: real, now: real)
    | FactorySettled(ok: bool, built: int, now: real)

  function Initial(adapter: int): State {
    State(Queue([], 0, [], 0, 0), RetryState(0, 0.0, false), Outage(false, 0, false, 0, adapter),
          Shutdown(false, false, false, true, 0, 0), History([], [], [], 0, 0, 0, 0, 0))
  }

  // ----- the steps -----

  function ResetRetry(s: State): State {
    s.(retry := RetryState(0, 0.0, false))
  }

  function NotifyIdle(s: State): State {
    if s.queue.inflight > 0 || (s.queue.buffer != [] && !s.shutdown.closed) then s
    else
      s.(shutdown := s.shutdown.(idleWaiters := 0),
         history := s.history.(released := s.history.released + s.shutdown.idleWaiters))
  }

  /** One more try for each of the first `n` entries. */
  function CountTry(tries: seq<int>, n: nat): seq<int> {
    if n == 0 || tries == [] then tries else [tries[0] + 1] + CountTry(tries[1..], n - 1)
  }

  /** `tries` without its first `n` positions. */
  function Forget(tries: seq<int>, n: nat): seq<int> {
    if n <= |tries| then tries[n..] else []
  }

  function HeadLength(c: Config, q: Queue): nat
    requires c.Valid()
  {
    Min(c.batchSize, |q.buffer|)
  }

  /** Start the adapter call for the head batch. */
  function HandOver(c: Config, s: State): State
    requires c.Valid()
  {
    var q := s.queue;
    var n := HeadLength(c, q);
    s.(queue := q.(buffer := q.buffer[n..], inflight := q.inflight + 1, writing := q.writing + [q.buffer[..n]]),
       history := s.history.(handed := s.history.handed + 1, tries := CountTry(s.history.tries, n)))
  }

  function Pump(c: Config, s: State, now: real): State
    requires c.Valid()
  {
    if s.queue.inflight > 0 || s.outage.timer || (s.queue.buffer != [] && now < s.retry.dueAt) then s
    else if s.queue.buffer == [] then NotifyIdle(s)
    else HandOver(c, s)
  }

  predicate Accepts(c: Config, closed: bool, entry: Entry) {
    entry.author != NOTICE_AUTHOR && !closed && Rank(entry.level) >= Rank(c.level)
  }

  function Submit(s: State, entry: Entry): State {
    s.(history := s.history.(submitted := s.history.submitted + [entry]))
  }

  function Enqueue(s: State, entry: Entry): State {
    s.(queue := s.queue.(buffer := s.queue.buffer + [entry]),
       history := s.history.(tries := s.history.tries + [0]))
  }

  function WriteEntry(c: Config, s: State, entry: Entry, now: real): State
    requires c.Valid()
  {
    if !Accepts(c, s.shutdown.closed, entry) then s
    else
      var s' := Submit(s, entry);
      if s.outage.recovering && |s.queue.buffer| >= RECOVERY_BACKLOG_CAP then
        s'.(queue := s.queue.(dropped := s.queue.dropped + 1))
      else
        var s'' := Enqueue(s', entry);
        if |s''.queue.buffer| >= c.batchSize then Pump(c, s'', now) else s''
  }

  /** Give up on the head batch: it leaves the buffer undelivered. */
  function DropHead(c: Config, s: State): State
    requires c.Valid()
  {
    var q := s.queue;
    var n := HeadLength(c, q);
    s.(queue := q.(buffer := q.buffer[n..], dropped := q.dropped + n),
       history := s.history.(tries := Forget(s.history.tries, n)))
  }

  function StartRecovery(s: State): State {
    if s.outage.recovering then s
    else
      ResetRetry(s.(outage := s.outage.(recovering := true, attempt := 0, timer := true),
                    history := s.history.(outageCalls := 0)))
  }

  function Wait(retry: Retry, attempt: int, random: real): real {
    ApplyJitter(RetryDelayMs(retry, attempt), retry.jitter, random)
  }

  function CountAttempt(s: State): State {
    s.(retry := s.retry.(attempt := s.retry.attempt + 1))
  }

  function ArmRetry(s: State, dueAt: real): State {
    s.(retry := s.retry.(dueAt := dueAt, timer := true))
  }

  function ScheduleRetry(c: Config, s: State, now: real, random: real): State
    requires c.Valid()
  {
    if c.retry.None? then s
    else
      var s' := CountAttempt(s);
      if c.retry.value.attempts.Reached(s'.retry.attempt) then
        if c.rebuilds then StartRecovery(s') else ResetRetry(DropHead(c, s'))
      else
        ArmRetry(s', now + Wait(c.retry.value, s'.retry.attempt, random))
  }

  /** End the outage without an adapter: everything buffered is given up. */
  function DropBacklog(s: State): State {
    var flying := |Flat(s.queue.writing)|;
    s.(outage := s.outage.(recovering := false, attempt := 0, timer := false),
       queue := s.queue.(buffer := [], dropped := s.queue.dropped + |s.queue.buffer|),
       history := s.history.(tries := if flying <= |s.history.tries| then s.history.tries[..flying] else []))
  }

  function FinishRecoveryFailure(s: State): State {
    NotifyIdle(DropBacklog(s))
  }

  function ArmReconnect(s: State): State {
    s.(outage := s.outage.(timer := true))
  }

  function FailRecoveryAttempt(c: Config, s: State): State {
    if s.outage.attempt >= c.maxReconnects then FinishRecoveryFailure(s) else ArmReconnect(s)
  }

  function CallFactory(s: State): State {
    s.(outage := s.outage.(attempt := s.outage.attempt + 1, factories := s.outage.factories + 1),
       history := s.history.(outageCalls := s.history.outageCalls + 1))
  }

  function AttemptReconnect(c: Config, s: State): State {
    if s.shutdown.closed || !s.outage.recovering || !c.rebuilds then s else CallFactory(s)
  }

  /** The rest of attemptReconnect once the factory promise has settled. */
  function FactoryReturns(c: Config, s: State, ok: bool, built: int, now: real): State
    requires c.Valid()
  {
    var s' := s.(outage := s.outage.(factories := s.outage.factories - 1));
    if ok then
      var s'' := s'.(outage := s'.outage.(adapter := built));
      if s.shutdown.closed then s'' else Pump(c, s'', now)
    else if s.shutdown.closed then s'
    else FailRecoveryAttempt(c, s')
  }

  /** The call of `writing[k]` is over; its batch is back in the transport's hands. */
  function Settle(s: State, k: nat): State
    requires k < |s.queue.writing|
  {
    s.(queue := s.queue.(inflight := s.queue.inflight - 1,
                         writing := s.queue.writing[..k] + s.queue.writing[k + 1..]))
  }

  /** A failed batch goes back to the head of the queue. */
  function Requeue(s: State, batch: seq<Entry>): State {
    s.(queue := s.queue.(transportErrors := s.queue.transportErrors + 1, buffer := batch + s.queue.buffer),
       history := s.history.(closeFailures := s.history.closeFailures + if s.shutdown.closed then 1 else 0))
  }

  function UseCloseRetry(s: State): State {
    s.(shutdown := s.shutdown.(retryUsed := true, microtasks := s.shutdown.microtasks + 1))
  }

  function WriteFailed(c: Config, s: State, batch: seq<Entry>, now: real, random: real): State
    requires c.Valid()
  {
    var s' := Requeue(s, batch);
    if s.shutdown.closed && !s.shutdown.retryUsed then UseCloseRetry(s')
    else if !s.shutdown.closed && s.outage.recovering && c.rebuilds then FailRecoveryAttempt(c, s')
    else NotifyIdle(if s.shutdown.closed then s' else ScheduleRetry(c, s', now, random))
  }

  function Deliver(s: State, batch: seq<Entry>): State {
    s.(history := s.history.(delivered := s.history.delivered + batch, acked := s.history.acked + 1,
                             tries := Forget(s.history.tries, |batch|)))
  }

  function EndOutage(s: State): State {
    if s.outage.recovering then s.(outage := s.outage.(recovering := false, attempt := 0)) else s
  }

  function WriteSucceeded(c: Config, s: State, batch: seq<Entry>, now: real): State
    requires c.Valid()
  {
    Pump(c, ResetRetry(EndOutage(Deliver(s, batch))), now)
  }

  /** Stop every timer, abandon any recovery and register the close() waiter. */
  function OpenClose(s: State): State {
    ResetRetry(s.(shutdown := s.shutdown.(closing := true, closed := true, flushTimer := false, retryUsed := false,
                                          idleWaiters := s.shutdown.idleWaiters + 1),
                  outage := s.outage.(recovering := false, timer := false),
                  history := s.history.(closeFailures := 0)))
  }

  function BeginClose(c: Config, s: State, now: real): State
    requires c.Valid()
  {
    if s.shutdown.closing then s else Pump(c, OpenClose(s), now)
  }

  function DisarmRetry(s: State): State { s.(retry := s.retry.(timer := false)) }

  function DisarmReconnect(s: State): State { s.(outage := s.outage.(timer := false)) }

  function TakeMicrotask(s: State): State {
    s.(shutdown := s.shutdown.(microtasks := s.shutdown.microtasks - 1))
  }

  /** Timers fire only while armed, continuations resume only while outstanding. */
  predicate Enabled(s: State, e: Event) {
    && e.now >= 0.0
    && match e
       case Write(_, _) => true
       case Flush(_) => true
       case Close(_) => true
       case Tick(_) => s.shutdown.flushTimer
       case RetryFires(_) => s.retry.timer
       case ReconnectFires(_) => s.outage.timer
       case Microtask(_) => s.shutdown.microtasks > 0
       case Completed(index, _, random, _) => index < |s.queue.writing| && 0.0 <= random < 1.0
       case FactorySettled(_, _, _) => s.outage.factories > 0
  }

  function Step(c: Config, s: State, e: Event): State
    requires c.Valid()
  {
    if !Enabled(s, e) then s
    else
      match e
      case Write(entry, now) => WriteEntry(c, s, entry, now)
      case Flush(now) => Pump(c, s, now)
      case Close(now) => BeginClose(c, s, now)
      case Tick(now) => Pump(c, s, now)
      case RetryFires(now) => Pump(c, DisarmRetry(s), now)
      case ReconnectFires(_) => AttemptReconnect(c, DisarmReconnect(s))
      case Microtask(now) => Pump(c, TakeMicrotask(s), now)
      case Completed(k, ok, random, now) =>
        if ok then WriteSucceeded(c, Settle(s, k), s.queue.writing[k], now)
        else WriteFailed(c, Settle(s, k), s.queue.writing[k], now, random)
      case FactorySettled(ok, built, now) => FactoryReturns(c, s, ok, built, now)
  }

  function WriteCalls(entries: seq<Entry>, now: real): seq<Event> {
    if entries == [] then [] else [Write(entries[0], now)] + WriteCalls(entries[1..], now)
  }

  function Run(c: Config, s: State, events: seq<Event>): State
    requires c.Valid()
    decreases |events|
  {
    if events == [] then s else Run(c, Step(c, s, events[0]), events[1..])
  }
}
