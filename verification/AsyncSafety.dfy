/** Order, promises, wakeups and shutdown of the batching transport. */
module AsyncSafety {
  import opened Sequences
  import opened Entries
  import opened AsyncProtocol

  function Flying(s: State): seq<Item> { Flat(s.loop.flying) }

  function Outstanding(s: State): seq<Item> { Flying(s) + s.q.queue }

  /** How often `p` occurs. */
  function Count(s: seq<int>, p: int): nat {
    if s == [] then 0 else (if s[0] == p then 1 else 0) + Count(s[1..], p)
  }

  lemma {:induction false} CountConcat(a: seq<int>, b: seq<int>, p: int)
    ensures Count(a + b, p) == Count(a, p) + Count(b, p)
    decreases |a|
  {
    if a == [] {
      assert a + b == b;
    } else {
      assert (a + b)[1..] == a[1..] + b;
      CountConcat(a[1..], b, p);
    }
  }

  ghost predicate SingleFlush(c: Config, s: State) {
    && |s.loop.flying| <= 1 && (s.q.flushing <==> |s.loop.flying| == 1)
    && (forall k :: 0 <= k < |s.loop.flying| ==> 1 <= |s.loop.flying[k]| <= c.batchSize)
  }

  ghost predicate Ordered(c: Config, s: State) {
    && s.history.settled + Outstanding(s) == s.history.accepted
    && s.q.pending == |Outstanding(s)| <= c.maxQueueSize
    && s.history.writes == |s.history.accepted| + s.q.dropped >= 0
  }

  /** Resolved promises and those of outstanding entries are all promises, each once. */
  ghost predicate PromisesOnce(s: State) {
    && s.history.writes >= 0
    && (forall p :: Count(s.history.resolved, p) + Count(Promises(Outstanding(s)), p)
                    == if 0 <= p < s.history.writes then 1 else 0)
  }

  ghost predicate AwakeBase(s: State) {
    && s.loop.microtasks >= 0 && s.loop.waiting >= 0 && s.loop.ready >= 0
    && (!s.q.closed && s.q.scheduled ==> s.loop.microtasks > 0)
    && (s.loop.waiting > 0 ==> s.q.flushing)
    && (s.q.closed <==> s.loop.closer != Open)
    && (s.loop.closer == Awaiting ==> s.q.flushing)
    && (s.loop.closer == Done ==> s.q.queue == [] && !s.q.flushing)
  }

  /** No lost wakeup: queued entries always have a batch in flight or a flush under way. */
  ghost predicate Awake(s: State) {
    AwakeBase(s) && (!s.q.closed && s.q.queue != [] ==> s.q.flushing || s.q.scheduled)
  }

  ghost predicate Inv(c: Config, s: State) {
    SingleFlush(c, s) && Ordered(c, s) && PromisesOnce(s) && Awake(s)
  }

  lemma {:induction false} PromisesConcat(a: seq<Item>, b: seq<Item>)
    ensures Promises(a + b) == Promises(a) + Promises(b)
    decreases |a|
  {
    if a == [] {
      assert a + b == b;
    } else {
      assert (a + b)[1..] == a[1..] + b;
      PromisesConcat(a[1..], b);
    }
  }

  lemma StartKeeps(c: Config, s: State)
    requires c.Valid() && SingleFlush(c, s) && !s.q.flushing && s.q.queue != []
    ensures var s' := StartBatch(c, s);
            SingleFlush(c, s') && Outstanding(s') == Outstanding(s) && s'.q.flushing
  {
    var n := Min(c.batchSize, |s.q.queue|);
    FlatOne(s.q.queue[..n]);
    assert StartBatch(c, s).loop.flying == [s.q.queue[..n]];
    assert s.q.queue[..n] + s.q.queue[n..] == s.q.queue;
  }

  /** What flush() does to the queue: it moves entries into flight and nothing else. */
  lemma FlushKeeps(c: Config, s: State)
    requires c.Valid() && SingleFlush(c, s)
    ensures var s' := Flush(c, s);
            && SingleFlush(c, s') && Outstanding(s') == Outstanding(s) && s'.history == s.history
            && (s'.q.queue != [] ==> s'.q.flushing)
            && (s'.q.flushing <==> s.q.flushing || s.q.queue != [])
  {
    if !s.q.flushing && s.q.queue != [] { StartKeeps(c, s); }
  }

  lemma RejectKeepsPromises(s: State)
    requires PromisesOnce(s)
    ensures PromisesOnce(Reject(s)) && Outstanding(Reject(s)) == Outstanding(s)
  {
    var h, s' := s.history, Reject(s);
    forall p
      ensures Count(s'.history.resolved, p) == Count(h.resolved, p) + if p == h.writes then 1 else 0
    {
      CountConcat(h.resolved, [h.writes], p);
    }
  }

  lemma EnqueueOutstanding(s: State, entry: Entry)
    ensures Outstanding(Enqueue(s, entry)) == Outstanding(s) + [Item(entry, s.history.writes)]
    ensures Promises(Outstanding(Enqueue(s, entry))) == Promises(Outstanding(s)) + [s.history.writes]
  {
    var item := Item(entry, s.history.writes);
    assert Outstanding(Enqueue(s, entry)) == Outstanding(s) + [item];
    PromisesConcat(Outstanding(s), [item]);
    assert Promises([item]) == [s.history.writes];
  }

  lemma EnqueueKeepsOrder(c: Config, s: State, entry: Entry)
    requires Ordered(c, s) && s.q.pending < c.maxQueueSize
    ensures Ordered(c, Enqueue(s, entry))
  {
    EnqueueOutstanding(s, entry);
  }

  lemma EnqueueKeepsPromises(s: State, entry: Entry)
    requires PromisesOnce(s)
    ensures PromisesOnce(Enqueue(s, entry))
  {
    var h, s', outstanding := s.history, Enqueue(s, entry), Promises(Outstanding(s));
    EnqueueOutstanding(s, entry);
    forall p
      ensures Count(Promises(Outstanding(s')), p) == Count(outstanding, p) + if p == h.writes then 1 else 0
    {
      CountConcat(outstanding, [h.writes], p);
    }
  }

  lemma EnqueueKeeps(c: Config, s: State, entry: Entry)
    requires c.Valid() && Inv(c, s) && s.q.pending < c.maxQueueSize
    ensures var s' := Enqueue(s, entry); SingleFlush(c, s') && Ordered(c, s') && PromisesOnce(s')
  {
    EnqueueKeepsOrder(c, s, entry);
    EnqueueKeepsPromises(s, entry);
  }

  lemma ScheduleKeepsInv(c: Config, s: State)
    requires c.Valid() && SingleFlush(c, s) && Ordered(c, s) && PromisesOnce(s) && AwakeBase(s)
    ensures Inv(c, ScheduleFlush(s))
  {
    assert Outstanding(ScheduleFlush(s)) == Outstanding(s);
    assert ScheduleFlush(s).q.pending == s.q.pending;
  }

  lemma AcceptKeepsInv(c: Config, s: State, entry: Entry)
    requires c.Valid() && Inv(c, s) && !s.q.closed && s.q.pending < c.maxQueueSize
    ensures Inv(c, Flush(c, Enqueue(s, entry))) && Inv(c, ScheduleFlush(Enqueue(s, entry)))
  {
    EnqueueKeeps(c, s, entry);
    FlushKeepsInv(c, Enqueue(s, entry));
    ScheduleKeepsInv(c, Enqueue(s, entry));
  }

  lemma RejectKeepsInv(c: Config, s: State)
    requires c.Valid() && Inv(c, s)
    ensures Inv(c, Reject(s))
  {
    RejectKeepsPromises(s);
    assert SingleFlush(c, Reject(s));
    assert Ordered(c, Reject(s));
  }

  lemma WriteKeepsInv(c: Config, s: State, entry: Entry)
    requires c.Valid() && Inv(c, s)
    ensures Inv(c, WriteEntry(c, s, entry))
  {
    if s.q.closed || s.q.pending >= c.maxQueueSize {
      RejectKeepsInv(c, s);
    } else {
      AcceptKeepsInv(c, s, entry);
    }
  }

  lemma FlushKeepsInv(c: Config, s: State)
    requires c.Valid() && SingleFlush(c, s) && Ordered(c, s) && PromisesOnce(s) && AwakeBase(s)
    ensures Inv(c, Flush(c, s)) && Outstanding(Flush(c, s)) == Outstanding(s)
  {
    FlushKeeps(c, s);
    assert Flush(c, s).q.pending == s.q.pending;
  }

  lemma SettleOutstanding(c: Config, s: State, k: nat, ok: bool)
    requires SingleFlush(c, s) && k < |s.loop.flying|
    ensures var s' := SettleBatch(s, k, ok);
            && s'.loop.flying == [] && Outstanding(s') == s.q.queue && Flying(s) == s.loop.flying[0]
  {
    assert s.loop.flying == [s.loop.flying[0]];
    FlatOne(s.loop.flying[0]);
  }

  lemma SettleKeepsPromises(c: Config, s: State, k: nat, ok: bool)
    requires SingleFlush(c, s) && k < |s.loop.flying| && PromisesOnce(s)
    ensures PromisesOnce(SettleBatch(s, k, ok))
  {
    var batch, s' := s.loop.flying[0], SettleBatch(s, k, ok);
    SettleOutstanding(c, s, k, ok);
    PromisesConcat(batch, s.q.queue);
    forall p
      ensures Count(s'.history.resolved, p) == Count(s.history.resolved, p) + Count(Promises(batch), p)
      ensures Count(Promises(Outstanding(s)), p) == Count(Promises(batch), p) + Count(Promises(s.q.queue), p)
    {
      CountConcat(s.history.resolved, Promises(batch), p);
      CountConcat(Promises(batch), Promises(s.q.queue), p);
    }
  }

  lemma SettleKeeps(c: Config, s: State, k: nat, ok: bool)
    requires c.Valid() && Inv(c, s) && k < |s.loop.flying|
    ensures var s' := SettleBatch(s, k, ok);
            && SingleFlush(c, s') && Ordered(c, s') && PromisesOnce(s')
            && |Outstanding(s')| < |Outstanding(s)|
  {
    SettleOutstanding(c, s, k, ok);
    SettleKeepsPromises(c, s, k, ok);
    assert s.history.settled + (s.loop.flying[0] + s.q.queue) == (s.history.settled + s.loop.flying[0]) + s.q.queue;
  }

  lemma CloseKeepsInv(c: Config, s: State)
    requires c.Valid() && SingleFlush(c, s) && Ordered(c, s) && PromisesOnce(s)
    requires s.q.closed && s.loop.microtasks >= 0 && s.loop.waiting >= 0 && s.loop.ready >= 0
    requires s.loop.waiting > 0 ==> s.q.flushing
    ensures Inv(c, WaitForFlushes(c, s))
  {
    FlushKeeps(c, s);
  }

  /** The items, and what is said of them, do not depend on what the event loop owes. */
  lemma SameItemsKeep(c: Config, s: State, s': State)
    requires SingleFlush(c, s) && Ordered(c, s) && PromisesOnce(s) && s'.loop.flying == s.loop.flying
    requires s'.history == s.history
    requires s'.q.queue == s.q.queue && s'.q.pending == s.q.pending && s'.q.dropped == s.q.dropped
    requires s'.q.flushing == s.q.flushing
    ensures SingleFlush(c, s') && Ordered(c, s') && PromisesOnce(s') && Outstanding(s') == Outstanding(s)
  {
  }

  lemma SettledIsAwake(s: State, k: nat, ok: bool)
    requires Awake(s) && k < |s.loop.flying|
    ensures Awake(WakeWaiters(ScheduleFlush(SettleBatch(s, k, ok))))
  {
  }

  lemma SettledKeepsInv(c: Config, s: State, k: nat, ok: bool)
    requires c.Valid() && Inv(c, s) && k < |s.loop.flying|
    ensures Inv(c, Step(c, s, Settled(k, ok)))
    ensures |Outstanding(Step(c, s, Settled(k, ok)))| < |Outstanding(s)|
  {
    var settled := SettleBatch(s, k, ok);
    SettleKeeps(c, s, k, ok);
    SameItemsKeep(c, settled, WakeWaiters(ScheduleFlush(settled)));
    SettledIsAwake(s, k, ok);
  }

  lemma StepKeepsInv(c: Config, s: State, e: Event)
    requires c.Valid() && Inv(c, s)
    ensures Inv(c, Step(c, s, e))
  {
    if Enabled(c, s, e) {
      match e
      case Write(entry) => WriteKeepsInv(c, s, entry);
      case FlushCall => FlushKeepsInv(c, s);
      case Close => BeginCloseKeepsInv(c, s);
      case Tick => FlushKeepsInv(c, s);
      case Microtask => MicrotaskKeepsInv(c, s);
      case Settled(k, ok) => SettledKeepsInv(c, s, k, ok);
      case ResumeFlush => ResumeKeepsInv(c, s);
      case ResumeClose => CloseKeepsInv(c, s);
    }
  }

  lemma BeginCloseKeepsInv(c: Config, s: State)
    requires c.Valid() && Inv(c, s)
    ensures Inv(c, BeginClose(c, s))
  {
    if s.loop.closer == Open {
      var s' := s.(q := s.q.(closed := true, scheduled := false));
      assert Outstanding(s') == Outstanding(s);
      CloseKeepsInv(c, s');
    }
  }

  lemma MicrotaskKeepsInv(c: Config, s: State)
    requires c.Valid() && Inv(c, s) && s.loop.microtasks > 0
    ensures Inv(c, Flush(c, TakeMicrotask(s)))
  {
    assert Outstanding(TakeMicrotask(s)) == Outstanding(s);
    assert Ordered(c, TakeMicrotask(s)) && PromisesOnce(TakeMicrotask(s));
    FlushKeepsInv(c, TakeMicrotask(s));
  }

  lemma ResumeKeepsInv(c: Config, s: State)
    requires c.Valid() && Inv(c, s) && s.loop.ready > 0
    ensures Inv(c, Flush(c, TakeReady(s)))
  {
    assert Outstanding(TakeReady(s)) == Outstanding(s);
    assert Ordered(c, TakeReady(s)) && PromisesOnce(TakeReady(s));
    FlushKeepsInv(c, TakeReady(s));
  }

  lemma {:induction false} RunKeepsInv(c: Config, s: State, events: seq<Event>)
    requires c.Valid() && Inv(c, s)
    ensures Inv(c, Run(c, s, events))
    decreases |events|
  {
    if events != [] {
      StepKeepsInv(c, s, events[0]);
      RunKeepsInv(c, Step(c, s, events[0]), events[1..]);
    }
  }

  // ----- results -----

  /**
   * Over any run: what was settled, then what is in flight, then what is queued are the
   * accepted entries in order; `pending` counts the unsettled ones and respects the bound;
   * at most one batch of legal size is in flight.
   */
  lemma BatchingIsFifo(c: Config, events: seq<Event>)
    requires c.Valid()
    ensures var s := Run(c, Initial(), events);
            && s.history.settled + Flat(s.loop.flying) + s.q.queue == s.history.accepted
            && s.q.pending == |Flat(s.loop.flying)| + |s.q.queue| <= c.maxQueueSize
            && s.history.writes == |s.history.accepted| + s.q.dropped
            && |s.loop.flying| <= 1
            && (forall k :: 0 <= k < |s.loop.flying| ==> 1 <= |s.loop.flying[k]| <= c.batchSize)
  {
    var s := Run(c, Initial(), events);
    RunKeepsInv(c, Initial(), events);
    assert s.history.settled + Flat(s.loop.flying) + s.q.queue == s.history.settled + Outstanding(s);
  }

  lemma PendingIsUnsettled(c: Config, s: State)
    requires Inv(c, s)
    ensures s.q.pending == |s.history.accepted| - |s.history.settled|
  {
  }

  lemma WriteRecords(c: Config, s: State, entry: Entry)
    requires c.Valid() && SingleFlush(c, s)
    ensures var h := Step(c, s, Write(entry)).history;
            var accepts := !s.q.closed && s.q.pending < c.maxQueueSize;
            && h.accepted == s.history.accepted + (if accepts then [Item(entry, s.history.writes)] else [])
            && h.resolved == s.history.resolved + (if accepts then [] else [s.history.writes])
  {
    FlushKeeps(c, Enqueue(s, entry));
  }

  /** A write is refused exactly when the transport is closed or `maxQueueSize` entries are unsettled. */
  lemma AcceptedIff(c: Config, s: State, entry: Entry)
    requires c.Valid() && Inv(c, s)
    ensures var h := Step(c, s, Write(entry)).history;
            var accepts := !s.q.closed && |s.history.accepted| - |s.history.settled| < c.maxQueueSize;
            && h.accepted == s.history.accepted + (if accepts then [Item(entry, s.history.writes)] else [])
            && h.resolved == s.history.resolved + (if accepts then [] else [s.history.writes])
  {
    PendingIsUnsettled(c, s);
    WriteRecords(c, s, entry);
  }

  /** Each write() promise is resolved exactly once, and not before its entry has settled or was refused. */
  lemma PromiseResolvedExactlyOnce(c: Config, events: seq<Event>, promise: int)
    requires c.Valid() && 0 <= promise < Run(c, Initial(), events).history.writes
    ensures var s := Run(c, Initial(), events);
            var outstanding := promise in Promises(Flat(s.loop.flying) + s.q.queue);
            Count(s.history.resolved, promise) == if outstanding then 0 else 1
  {
    var s := Run(c, Initial(), events);
    RunKeepsInv(c, Initial(), events);
    CountIsMembership(Promises(Outstanding(s)), promise);
  }

  lemma {:induction false} CountIsMembership(s: seq<int>, p: int)
    ensures Count(s, p) > 0 <==> p in s
    decreases |s|
  {
    if s != [] {
      CountIsMembership(s[1..], p);
    }
  }

  /** While open, queued entries always have a batch in flight or a flush the event loop will run. */
  lemma NoLostWakeup(c: Config, events: seq<Event>)
    requires c.Valid()
    ensures var s := Run(c, Initial(), events);
            !s.q.closed && s.q.queue != [] ==>
              |s.loop.flying| == 1 || (s.q.scheduled && Enabled(c, s, Microtask))
  {
    RunKeepsInv(c, Initial(), events);
  }

  // ----- shutdown -----

  predicate Internal(e: Event) { !e.Write? && !e.FlushCall? && !e.Close? }

  function Runnable(s: State): int {
    s.loop.microtasks + s.loop.ready + if s.loop.closer == Ready then 1 else 0
  }

  function Blocked(s: State): int {
    s.loop.waiting + if s.loop.closer == Awaiting then 1 else 0
  }

  /**
   * Work left after close. Each continuation runs at most once per batch that can still
   * settle, and every settled batch may add one continuation of its own.
   */
  function Measure(s: State): int {
    Work(|Outstanding(s)|, Runnable(s), Blocked(s), s.q.flushing)
  }

  function Work(u: int, runnable: int, blocked: int, flushing: bool): int {
    u + Mul(u, u + 1) + Mul(runnable, u + 1) + Mul(blocked, u) + if flushing then 0 else u
  }

  /** Multiplication by repeated addition, which keeps the state proofs linear. */
  function Mul(n: int, x: int): int {
    if n <= 0 then 0 else x + Mul(n - 1, x)
  }

  function InternalSteps(c: Config, s: State, events: seq<Event>): nat
    requires c.Valid()
    decreases |events|
  {
    if events == [] then 0
    else (if Internal(events[0]) && Enabled(c, s, events[0]) then 1 else 0)
         + InternalSteps(c, Step(c, s, events[0]), events[1..])
  }

  function FlushCalls(events: seq<Event>): nat
    decreases |events|
  {
    if events == [] then 0 else (if events[0].FlushCall? then 1 else 0) + FlushCalls(events[1..])
  }

  lemma {:induction false} MulMonotone(a: int, b: int, x: int, y: int)
    requires a <= b && 0 <= x <= y
    ensures 0 <= Mul(a, x) <= Mul(b, y)
    decreases if b > 0 then b else 0
  {
    if b > 0 {
      MulMonotone(a - 1, b - 1, x, y);
    }
  }

  lemma {:induction false} MulSum(a: int, b: int, x: int)
    requires a >= 0 && b >= 0
    ensures Mul(a + b, x) == Mul(a, x) + Mul(b, x)
    decreases a
  {
    if a > 0 {
      MulSum(a - 1, b, x);
    }
  }

  /** A settled batch pays for waking everyone and for one new continuation. */
  lemma SettleArithmetic(u: int, u': int, runnable: int, blocked: int)
    requires 0 <= u' < u && runnable >= 0 && blocked >= 0
    ensures Work(u', runnable + blocked + 1, 0, false) < Work(u, runnable, blocked, true)
  {
    MulSum(runnable + blocked, 1, u' + 1);
    MulSum(runnable, blocked, u' + 1);
    MulMonotone(runnable, runnable, u' + 1, u + 1);
    MulMonotone(blocked, blocked, u' + 1, u);
    SquareGrows(u');
    MulMonotone(u' + 1, u, u' + 2, u + 1);
  }

  lemma SquareGrows(u: int)
    requires u >= 0
    ensures Mul(u + 1, u + 2) == Mul(u, u + 1) + 2 * u + 2
  {
    MulStep(u, u + 1);
  }

  lemma {:induction false} MulStep(n: int, x: int)
    requires n >= 0
    ensures Mul(n, x + 1) == Mul(n, x) + n
    decreases n
  {
    if n > 0 {
      MulStep(n - 1, x);
    }
  }

  lemma WorkMonotone(u: int, r: int, r': int, b: int, b': int, flushing: bool)
    requires u >= 0 && 0 <= r <= r' && 0 <= b <= b'
    ensures 0 <= Work(u, r, b, flushing) <= Work(u, r', b', flushing)
  {
    MulMonotone(r, r', u + 1, u + 1);
    MulMonotone(b, b', u, u);
    MulMonotone(0, u, 0, u + 1);
  }

  lemma FlushWork(c: Config, s: State)
    requires c.Valid() && SingleFlush(c, s) && Runnable(s) >= 0 && Blocked(s) >= 0
    ensures var s' := Flush(c, s);
            var u := |Outstanding(s)|;
            && Outstanding(s') == Outstanding(s) && Runnable(s') == Runnable(s)
            && Measure(s') == Measure(s) + (if s.q.flushing then u else 0)
  {
    FlushKeeps(c, s);
  }

  lemma RunnableStepShrinks(c: Config, s: State, s0: State)
    requires c.Valid() && SingleFlush(c, s0) && Outstanding(s0) == Outstanding(s) && s0.q.flushing == s.q.flushing
    requires Runnable(s0) == Runnable(s) - 1 >= 0 && Blocked(s0) == Blocked(s) >= 0
    ensures Measure(Flush(c, s0)) < Measure(s) && |Outstanding(Flush(c, s0))| == |Outstanding(s)|
  {
    FlushWork(c, s0);
  }

  /** Running one continuation pays for blocking it again. */
  lemma BlockArithmetic(u: int, runnable: int, blocked: int, flushing: bool)
    requires u >= 0 && runnable > 0 && blocked >= 0
    ensures Work(u, runnable - 1, blocked, flushing) < Work(u, runnable, blocked, flushing)
    ensures Work(u, runnable - 1, blocked + 1, flushing) < Work(u, runnable, blocked, flushing)
  {
    assert Mul(runnable, u + 1) == u + 1 + Mul(runnable - 1, u + 1);
    assert Mul(blocked + 1, u) == u + Mul(blocked, u);
  }

  lemma CloserRuns(s: State)
    requires s.loop.closer == Ready && Runnable(s) > 0 && Blocked(s) >= 0
    ensures var s' := s.(loop := s.loop.(closer := if s.q.flushing then Awaiting else Done));
            Measure(s') < Measure(s) && |Outstanding(s')| == |Outstanding(s)|
  {
    BlockArithmetic(|Outstanding(s)|, Runnable(s), Blocked(s), s.q.flushing);
    var s' := s.(loop := s.loop.(closer := if s.q.flushing then Awaiting else Done));
    assert Outstanding(s') == Outstanding(s);
  }

  lemma CloserShrinks(c: Config, s: State)
    requires c.Valid() && SingleFlush(c, s) && Awake(s) && s.loop.closer == Ready
    ensures var s' := WaitForFlushes(c, s);
            Measure(s') < Measure(s) && |Outstanding(s')| == |Outstanding(s)|
  {
    if !s.q.flushing && s.q.queue != [] {
      FlushWork(c, s);
      CloserRuns(Flush(c, s));
    } else {
      CloserRuns(s);
    }
  }

  lemma SettledCounts(c: Config, s: State, k: nat, ok: bool)
    requires c.Valid() && SingleFlush(c, s) && Awake(s) && k < |s.loop.flying|
    ensures var s' := Step(c, s, Settled(k, ok));
            && Blocked(s') == 0 && 0 <= Runnable(s') <= Runnable(s) + Blocked(s) + 1
            && !s'.q.flushing && s.q.flushing && s'.q.closed == s.q.closed
  {
  }

  lemma SettleShrinks(c: Config, s: State, k: nat, ok: bool)
    requires c.Valid() && Inv(c, s) && k < |s.loop.flying|
    ensures var s' := Step(c, s, Settled(k, ok));
            Measure(s') < Measure(s) && |Outstanding(s')| < |Outstanding(s)| && s'.q.closed == s.q.closed
  {
    var s' := Step(c, s, Settled(k, ok));
    SettledKeepsInv(c, s, k, ok);
    SettledCounts(c, s, k, ok);
    var r, r' := Runnable(s) + Blocked(s) + 1, Runnable(s');
    SettleArithmetic(|Outstanding(s)|, |Outstanding(s')|, Runnable(s), Blocked(s));
    WorkMonotone(|Outstanding(s')|, r', r, 0, 0, false);
  }

  lemma CallWork(c: Config, s: State, e: Event)
    requires c.Valid() && Inv(c, s) && s.q.closed && !Internal(e)
    ensures var s' := Step(c, s, e);
            && s'.q.closed && |Outstanding(s')| == |Outstanding(s)|
            && Measure(s') <= Measure(s) + if e.FlushCall? then |Outstanding(s)| else 0
  {
    match e
    case Write(_) => assert Outstanding(Reject(s)) == Outstanding(s);
    case FlushCall => FlushWork(c, s);
    case Close =>
  }

  lemma ContinuationShrinks(c: Config, s: State, s0: State)
    requires c.Valid() && Inv(c, s) && s.q.closed && (s0 == TakeMicrotask(s) || s0 == TakeReady(s))
    requires s0.loop.microtasks >= 0 && s0.loop.ready >= 0
    ensures var s' := Flush(c, s0);
            s'.q.closed && |Outstanding(s')| == |Outstanding(s)| && Measure(s') < Measure(s)
  {
    assert Outstanding(s0) == Outstanding(s);
    RunnableStepShrinks(c, s, s0);
  }

  lemma ClosedStepWork(c: Config, s: State, e: Event)
    requires c.Valid() && Inv(c, s) && s.q.closed && Internal(e) && Enabled(c, s, e)
    ensures var s' := Step(c, s, e);
            s'.q.closed && |Outstanding(s')| <= |Outstanding(s)| && Measure(s') < Measure(s)
  {
    match e
    case Microtask => ContinuationShrinks(c, s, TakeMicrotask(s));
    case ResumeFlush => ContinuationShrinks(c, s, TakeReady(s));
    case ResumeClose => CloserShrinks(c, s);
    case Settled(k, ok) => SettleShrinks(c, s, k, ok);
  }

  /** A step the event loop takes costs one of the measure, a flush() call adds what is unsettled. */
  lemma ClosedStepCosts(c: Config, s: State, e: Event)
    requires c.Valid() && Inv(c, s) && s.q.closed
    ensures var s' := Step(c, s, e);
            && s'.q.closed && |Outstanding(s')| <= |Outstanding(s)|
            && Measure(s') + (if Internal(e) && Enabled(c, s, e) then 1 else 0)
               <= Measure(s) + if e.FlushCall? then |Outstanding(s)| else 0
  {
    if !Internal(e) {
      CallWork(c, s, e);
    } else if Enabled(c, s, e) {
      ClosedStepWork(c, s, e);
    }
  }

  lemma MeasureIsNatural(c: Config, s: State)
    requires c.Valid() && Inv(c, s)
    ensures 0 <= Measure(s)
  {
    WorkMonotone(|Outstanding(s)|, Runnable(s), Runnable(s), Blocked(s), Blocked(s), s.q.flushing);
  }

  /** Over fewer unsettled entries the later flush() calls cost no more. */
  lemma LaterCalls(events: seq<Event>, u: nat, v: nat)
    requires events != [] && v <= u
    ensures (if events[0].FlushCall? then u else 0) + Mul(FlushCalls(events[1..]), v) <= Mul(FlushCalls(events), u)
  {
    MulMonotone(FlushCalls(events[1..]), FlushCalls(events[1..]), v, u);
  }

  /**
   * Shutdown terminates: once closed, the event loop takes at most `Measure` steps on the
   * transport's behalf, plus one per unsettled entry for each later flush() call.
   */
  lemma {:induction false} CloseTerminates(c: Config, s: State, events: seq<Event>)
    requires c.Valid() && Inv(c, s) && s.q.closed
    ensures InternalSteps(c, s, events) <= Measure(s) + Mul(FlushCalls(events), |Outstanding(s)|)
    decreases |events|
  {
    if events == [] {
      MeasureIsNatural(c, s);
    } else {
      var s' := Step(c, s, events[0]);
      StepKeepsInv(c, s, events[0]);
      ClosedStepCosts(c, s, events[0]);
      CloseTerminates(c, s', events[1..]);
      LaterCalls(events, |Outstanding(s)|, |Outstanding(s')|);
    }
  }

  /** close() never hangs: until it is done the event loop holds a step that leads on. */
  lemma CloseMakesProgress(c: Config, s: State)
    requires c.Valid() && Inv(c, s) && s.q.closed && s.loop.closer != Done
    ensures Enabled(c, s, Settled(0, true)) || Enabled(c, s, ResumeClose)
  {
  }

  /** When close() is done everything accepted was handed over and settled, and every promise resolved. */
  lemma CloseDrains(c: Config, events: seq<Event>)
    requires c.Valid() && Run(c, Initial(), events).loop.closer == Done
    ensures var s := Run(c, Initial(), events);
            && s.q.queue == [] && s.loop.flying == [] && s.q.pending == 0
            && s.history.settled == s.history.accepted
            && (forall p :: 0 <= p < s.history.writes ==> Count(s.history.resolved, p) == 1)
  {
    var s := Run(c, Initial(), events);
    RunKeepsInv(c, Initial(), events);
    assert Outstanding(s) == [];
  }

  // ----- one write, one settlement -----

  /** An accepted write of an urgent level, or one that fills a batch, leaves a batch in flight. */
  lemma UrgentWriteFlushes(c: Config, s: State, entry: Entry)
    requires c.Valid() && Inv(c, s) && !s.q.closed && s.q.pending < c.maxQueueSize
    requires entry.level in c.flushOn || |s.q.queue| + 1 >= c.batchSize
    ensures |Step(c, s, Write(entry)).loop.flying| == 1
  {
    EnqueueNeedsFlush(c, s, entry);
  }

  lemma EnqueueNeedsFlush(c: Config, s: State, entry: Entry)
    requires c.Valid() && SingleFlush(c, s)
    ensures |Flush(c, Enqueue(s, entry)).loop.flying| == 1
  {
    var s' := Enqueue(s, entry);
    assert s'.q.queue != [] && s'.loop == s.loop && s'.q.flushing == s.q.flushing;
    FlushKeeps(c, s');
  }

  /** A settled batch, delivered or not, frees its places in the queue and its promises; failures are counted. */
  lemma SettlementIsExact(c: Config, s: State, ok: bool)
    requires c.Valid() && Inv(c, s) && s.q.flushing
    ensures var s' := Step(c, s, Settled(0, ok));
            var batch := s.loop.flying[0];
            && s'.history.settled == s.history.settled + batch
            && s'.history.resolved == s.history.resolved + Promises(batch)
            && s'.q.pending == s.q.pending - |batch| && !s'.q.flushing
            && s'.q.transportErrors == s.q.transportErrors + (if ok then 0 else 1)
            && (s.q.queue != [] ==> s'.q.scheduled)
  {
    SettledKeepsInv(c, s, 0, ok);
  }
}
