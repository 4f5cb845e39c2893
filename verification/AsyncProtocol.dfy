/**
 * The batching protocol of src/writer/buffer.writer.ts as a step machine, cut at every
 * `await`. `Loop` holds what the event loop owes the transport: runFlush calls that wait
 * for the inner transport, queued microtasks, and flush() and close() continuations
 * that wait for the running flush (`waiting`) or may resume (`ready`).
 */
module AsyncProtocol {
  import opened Sequences
  import opened Entries

  datatype Config = Config(batchSize: int, maxQueueSize: int, flushOn: set<Level>, interval: bool) {
    predicate Valid() { batchSize >= 1 && maxQueueSize >= 1 }
  }

  /** A queued entry with the promise of its write() call, named by the number of that call. */
  datatype Item = Item(entry: Entry, promise: int)

  datatype Queue = Queue(
    queue: seq<Item>, pending: int, dropped: int, transportErrors: int, flushing: bool, scheduled: bool, closed: bool)

  datatype Closer = Open | Awaiting | Ready | Done

  datatype Loop = Loop(flying: seq<seq<Item>>, microtasks: int, waiting: int, ready: int, closer: Closer)

  /** What happened so far, kept for the properties only. */
  datatype History = History(writes: int, accepted: seq<Item>, settled: seq<Item>, resolved: seq<int>)

  datatype State = State(q: Queue, loop: Loop, history: History)

  datatype Event =
    | Write(entry: Entry)
    | FlushCall
    | Close
    | Tick
    | Microtask
    | Settled(index: nat, ok: bool)
    | ResumeFlush
    | ResumeClose

  function Initial(): State {
    State(Queue([], 0, 0, 0, false, false, false), Loop([], 0, 0, 0, Open), History(0, [], [], []))
  }

  function Promises(items: seq<Item>): seq<int> {
    if items == [] then [] else [items[0].promise] + Promises(items[1..])
  }

  /** Hand the head batch to the inner transport. */
  function StartBatch(c: Config, s: State): State
    requires c.Valid()
  {
    var n := Min(c.batchSize, |s.q.queue|);
    s.(q := s.q.(queue := s.q.queue[n..], flushing := true),
       loop := s.loop.(flying := s.loop.flying + [s.q.queue[..n]]))
  }

  /** flush() up to its await: join the running flush, starting one if there is work. */
  function Flush(c: Config, s: State): State
    requires c.Valid()
  {
    var s' := if !s.q.flushing && s.q.queue != [] then StartBatch(c, s) else s;
    if s'.q.flushing then s'.(loop := s'.loop.(waiting := s'.loop.waiting + 1)) else s'
  }

  function ScheduleFlush(s: State): State {
    if s.q.flushing || s.q.scheduled || s.q.queue == [] then s
    else s.(q := s.q.(scheduled := true), loop := s.loop.(microtasks := s.loop.microtasks + 1))
  }

  function Reject(s: State): State {
    s.(q := s.q.(dropped := s.q.dropped + 1),
       history := s.history.(writes := s.history.writes + 1, resolved := s.history.resolved + [s.history.writes]))
  }

  function Enqueue(s: State, entry: Entry): State {
    var item := Item(entry, s.history.writes);
    s.(q := s.q.(pending := s.q.pending + 1, queue := s.q.queue + [item]),
       history := s.history.(writes := s.history.writes + 1, accepted := s.history.accepted + [item]))
  }

  function WriteEntry(c: Config, s: State, entry: Entry): State
    requires c.Valid()
  {
    if s.q.closed || s.q.pending >= c.maxQueueSize then Reject(s)
    else
      var s' := Enqueue(s, entry);
      if |s'.q.queue| >= c.batchSize || entry.level in c.flushOn then Flush(c, s') else ScheduleFlush(s')
  }

  /** runFlush after its await: settle the batch and let go of the flush slot. */
  function SettleBatch(s: State, k: nat, ok: bool): State
    requires k < |s.loop.flying|
  {
    var batch := s.loop.flying[k];
    State(s.q.(pending := s.q.pending - |batch|, flushing := false,
               transportErrors := s.q.transportErrors + if ok then 0 else 1),
          s.loop.(flying := s.loop.flying[..k] + s.loop.flying[k + 1..]),
          s.history.(settled := s.history.settled + batch, resolved := s.history.resolved + Promises(batch)))
  }

  /** Whoever waited for that flush may run again. */
  function WakeWaiters(s: State): State {
    s.(loop := s.loop.(ready := s.loop.ready + s.loop.waiting, waiting := 0,
                       closer := if s.loop.closer == Awaiting then Ready else s.loop.closer))
  }

  function WaitForFlushes(c: Config, s: State): State
    requires c.Valid()
  {
    var s' := if !s.q.flushing && s.q.queue != [] then Flush(c, s) else s;
    s'.(loop := s'.loop.(closer := if s'.q.flushing then Awaiting else Done))
  }

  function BeginClose(c: Config, s: State): State
    requires c.Valid()
  {
    if s.loop.closer != Open then s
    else WaitForFlushes(c, s.(q := s.q.(closed := true, scheduled := false)))
  }

  predicate Enabled(c: Config, s: State, e: Event) {
    match e
    case Write(_) => true
    case FlushCall => true
    case Close => true
    case Tick => c.interval && !s.q.closed
    case Microtask => s.loop.microtasks > 0
    case Settled(index, _) => index < |s.loop.flying|
    case ResumeFlush => s.loop.ready > 0
    case ResumeClose => s.loop.closer == Ready
  }

  function TakeMicrotask(s: State): State {
    s.(q := s.q.(scheduled := false), loop := s.loop.(microtasks := s.loop.microtasks - 1))
  }

  function TakeReady(s: State): State {
    s.(loop := s.loop.(ready := s.loop.ready - 1))
  }

  function Step(c: Config, s: State, e: Event): State
    requires c.Valid()
  {
    if !Enabled(c, s, e) then s
    else
      match e
      case Write(entry) => WriteEntry(c, s, entry)
      case FlushCall => Flush(c, s)
      case Close => BeginClose(c, s)
      case Tick => Flush(c, s)
      case Microtask => Flush(c, TakeMicrotask(s))
      case Settled(k, ok) => WakeWaiters(ScheduleFlush(SettleBatch(s, k, ok)))
      case ResumeFlush => Flush(c, TakeReady(s))
      case ResumeClose => WaitForFlushes(c, s)
  }

  function Run(c: Config, s: State, events: seq<Event>): State
    requires c.Valid()
    decreases |events|
  {
    if events == [] then s else Run(c, Step(c, s, events[0]), events[1..])
  }
}
