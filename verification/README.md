# hp_logger: model and proofs

A Dafny model of the parts of hp_logger whose promises hold over whole runs: the
delivery queues, flood control, redaction, the metrics and the small parsers and
tables around them. Every asynchronous function is cut at its `await`; what
remains are steps, and the environment chooses which enabled step comes next,
whether a call succeeds, how long it takes and what a random draw gives. A theorem
about a run therefore covers every interleaving of calls, timers, microtasks and
completions.

Two forms appear side by side. A pure step machine (`DatabaseProtocol`,
`AsyncProtocol`, `Repeat`, `Resolvers`, `Adaptive`, ...) carries ghost histories
and the theorems. A class with the source's fields and methods
(`DatabaseTransport`, `AsyncTransport`, `LruCache`, ...) is proved, method by
method, to take exactly the machine's steps, so the theorems hold of the class.

| Component | Files |
|---|---|
| Batched database delivery with retry, backoff, adapter rebuild and shutdown | `DatabaseProtocol`, `DatabaseSafety`, `DatabaseTheorems`, `DatabaseSteps`, `DatabaseTransport`, `RetrySchedule` |
| Bounded batching queue with one promise per entry | `AsyncProtocol`, `AsyncSafety`, `AsyncSteps`, `AsyncTransport` |
| Repeat collapsing over counted groups over an LRU cache | `Lru`, `GroupCounter`, `Repeat`, `RepeatOutput`, `RepeatTransport`, `GroupKeys` |
| Error-storm throttling | `Adaptive`, `AdaptiveStorms`, `AdaptiveTransport` |
| Redaction | `Memo`, `Redaction`, `RedactionLeaks`, `Redactor` |
| Label keys, counters, histograms, profiler | `Labels`, `Counter`, `Histogram`, `Profiler` |
| Template parser | `Template`, `TemplateSpans` |
| Context resolvers | `Ttl`, `CacheKeys`, `Resolvers`, `ResolverCollisions`, `ResolverFailures`, `ResolverMerges`, `ResolverSet` |
| Log ring with polling cursors, span forest | `Ring`, `LogBuffer`, `Spans`, `SpanCycles`, `SpanDrawings`, `SpanRegistry` |
| Shared | `Sequences`, `Entries`, `Arithmetic`, `OrderedMap` |

A JavaScript `Map` is an insertion-ordered list of distinct keys with a finite map
(`OrderedMap`), because eviction depends on that order. Stored values are never
`undefined`. Redacted values live in a heap of nodes that may be cyclic.

Places where a natural promise fails, each with its exact condition and an input:

- `stats().queued` counts an in-flight batch as one, so it is exact only while at
  most one entry is in flight (`QueuedUndercounts`, `TwoInFlightCountAsOne`).
- When the `close()` waiter fires, the queue is empty exactly if at most one
  adapter call has failed since `close()` began; after a second failure entries are
  left behind and not counted in `dropped` (`ReleaseIsCleanIff`,
  `TwoFailuresLoseAnEntry`).
- At the retry cap the head of the queue is dropped, up to the batch size, and not
  the batch that failed. Only tried entries are dropped exactly if the failed batch
  was full or nothing was queued behind it (`DropsOnlyTriedIff`,
  `UntriedEntryDropped`).
- The reconnect timer can be armed without an outage: exactly after a factory that
  fails once recovery has ended, or a write that succeeds while the timer is armed.
  It then blocks delivery until it fires, and leads to no rebuild (`StrayTimerIff`,
  `StrayTimerOnlyBlocks`, `LateFailureLeavesStrayTimer`).
- The no-copy path of redaction equals the copying path exactly below the depth
  bound, or where every field already is the censor (`FastPathExactIff`,
  `ScalarAtTheBoundIsShown`).
- Printing a template and parsing it back fails exactly when a literal ending in a
  backslash stands directly before a token or a colored span
  (`ParseUndoesPrintIff`, `BackslashBeforeToken`).
- Quantile estimates are monotone exactly if no bucket has counted anything, or the
  interpolation in the first bucket that has does not touch a negative bound: its own
  bound if it is the very first bucket, the bound before it otherwise (`MonotoneIff`,
  `QuantilesMonotoneIff`, `NegativeBoundsFall`).
- Resolver cache keys are distinct exactly for keys that do not imitate one another,
  that is, none reads like another followed by `:string` or `:string:...`
  (`KeysCollideIff`, `CacheKeysInjectiveIff`, `ColonKeysCollide`). Requests are
  answered, from the cache or by the lookup they join, with the fields of their own key
  and value exactly for such keys, whatever the lifetimes (`RepliesAreOwnIff`,
  `ImitatorJoinsForeignLookup`). For answers from the cache alone the condition is the
  same if the clock may run backwards (`WarmHitsAtAnyTimeIff`); if it may not, they are
  their own exactly if of two keys that can collide neither has a positive lifetime
  (`WarmHitsAreOwnIff`, `ImitatorGetsForeignFields`).
- A resolver that throws before it returns a promise fails the whole `resolveAll`
  call: the call at `src/resolvers/index.resolver.ts:206` is outside the `try`. Failing
  resolvers are otherwise skipped or marked. The model follows the code: a call fails
  exactly if a lookup it awaits was thrown out of, even while others never settle
  (`ResolveAllFailsIff`, `ThrowingResolverFailsTheCall`).
- The rendered span tree has one line per record exactly if the retained parents are
  acyclic; spans in or below a cycle are not shown (`OneLinePerRecordIff`,
  `CyclicSpansVanish`). That is for distinct span ids. Ids repeat after 65536 spans
  (`src/core/span.core.ts:8-17`), and for arbitrary records rendering ends exactly if no
  chain of listed children from a root comes back to a node it has passed
  (`RenderingEndsIff`, `RepeatedIdNeverEnds`).
- A quantile estimate lies within its bucket exactly if that is not the first one or the
  first bound is not negative (`EstimateWithinBucketIff`).
- Repeated entries are kept apart exactly as long as their author, message and
  fingerprint hold no NUL, and errors during a storm as long as their author and
  message hold none: the keys join those texts with NUL (`KeyDeterminesEntryIff`,
  `StormKeyDeterminesErrorIff`).
- The counters of `GroupCounter` balance exactly as long as a group is started only
  under an absent key (`StartBalancedIff`, `StartingTwiceUnbalances`).

## Model

| member | source | states |
|---|---|---|
| RetrySchedule.ResolveRetry | src/lib/retry.utils.ts:16-26 | settings resolve to a policy exactly when there are some, and every resolved policy is valid whatever the input numbers: at least one attempt, nonnegative base, maximum not below the base, jitter share in [0, 1] |
| RetrySchedule.LegalSettingsAreKept | src/lib/retry.utils.ts:16-26 | settings in range are taken as they are |
| RetrySchedule.DefaultSettings | src/lib/retry.utils.ts:12-26 | absent settings stand for five exponential attempts between 1000 and 30000 ms without jitter |
| RetrySchedule.IllegalSettingsAreMoved | src/lib/retry.utils.ts:18-25 | settings out of range are moved to its nearest end |
| RetrySchedule.DelayWithinBounds | src/lib/retry.utils.ts:29-37 | every wait lies between the base and the maximum |
| RetrySchedule.DelayGrowth | src/lib/retry.utils.ts:29-37 | the first wait is the base; the next one is the same, one base more, or twice as long, by backoff kind, cut at the maximum |
| RetrySchedule.DelayMonotone | src/lib/retry.utils.ts:29-37 | waits never shrink as the attempt number grows |
| RetrySchedule.JitterWithinShare | src/lib/retry.utils.ts:40-44 | jitter moves a wait by at most its share, in either direction, and never below zero |
| RetrySchedule.JitterIsEven | src/lib/retry.utils.ts:40-44 | the random draw moves a wait evenly over that whole range |
| DatabaseSafety.StepKeepsInv | src/writer/database.writer.ts:82-396 | every step of the transport keeps the whole invariant: single writer, conservation, bounded recovery, bounded retry, bounded tries, no stranded `close()` |
| DatabaseSafety.FailureKeepsInv | src/writer/database.writer.ts:127-148 | a failed call, whichever of its four branches it takes, keeps the invariant |
| DatabaseSafety.SuccessKeepsInv | src/writer/database.writer.ts:150-163 | a confirmed call and the batch it starts next keep the invariant |
| DatabaseSafety.FactoryKeepsInv | src/writer/database.writer.ts:262-289 | a factory result keeps the invariant even if it arrives after recovery or the transport has ended |
| DatabaseSafety.CloseKeepsInv | src/writer/database.writer.ts:372-396 | beginning `close()` in any state of queue, retry and recovery keeps the invariant |
| DatabaseSafety.RequeueRestoresQueue | src/writer/database.writer.ts:128-129 | putting a failed batch back restores the order and the conservation of the queue |
| DatabaseSafety.PumpWakesCloser | src/writer/database.writer.ts:108-121 | after a pump of a closing transport the waiter has fired or a call is in flight |
| DatabaseTheorems.RunKeepsInv | src/writer/database.writer.ts:82-396 | the invariant holds after any list of events |
| DatabaseTheorems.SubmittedAreOffered | src/writer/database.writer.ts:82-92 | the ghost list of submitted entries is what the calls alone determine: the writes that pass the author, level and closed filters |
| Entries.LevelsAreRanked | src/config/levels.config.ts:3-22 | a level ranks by its place in the ascending list of levels |
| DatabaseTheorems.DeliveryIsFifo | src/writer/database.writer.ts:82-164 | in every reachable state at most one batch is in flight; delivered, then in flight, then buffered entries are an order-preserving part of what was offered without duplicates, and what is missing is exactly `dropped` |
| DatabaseTheorems.QueuedUndercounts | src/writer/database.writer.ts:359-365 | `queued` never exceeds the undelivered entries and equals them exactly when at most one entry is in flight |
| DatabaseTheorems.TwoInFlightCountAsOne | src/writer/database.writer.ts:359-365 | a reachable state with two undelivered entries in one batch and `queued` equal to 1 |
| DatabaseTheorems.TriggersDeliver | src/writer/database.writer.ts:108-121 | each trigger starts exactly the head batch if the transport is idle and has entries, and otherwise leaves the queue alone |
| DatabaseTheorems.FullBufferIsStarted | src/writer/database.writer.ts:90-91 | the write that fills a batch starts it if nothing is in the way |
| DatabaseTheorems.TriesNeverExceedAttempts | src/writer/database.writer.ts:178-198 | with finite attempts and no factory, no entry of an open transport is handed over more than `attempts` times, and at rest the entries behind the head batch were never tried |
| DatabaseTheorems.FailureArmsBackoff | src/writer/database.writer.ts:200-206 | a failure below the cap restores the queue and puts off the next call by the scheduled wait, up to its jitter share |
| DatabaseTheorems.BackoffHolds | src/writer/database.writer.ts:108-113 | whatever triggers arrive, no adapter call starts before `retryDueAt` unless `close()` begins |
| DatabaseTheorems.ExhaustedRetryDropsHead | src/writer/database.writer.ts:183-198 | at the cap without a factory exactly the head of the queue, up to the batch size, is given up and counted, and what follows has a fresh budget |
| DatabaseTheorems.DropsOnlyTriedIff | src/writer/database.writer.ts:188-189 | that head holds only entries the adapter has seen exactly if the failed batch was full or nothing was queued behind it |
| DatabaseTheorems.UntriedEntryDropped | src/writer/database.writer.ts:188-189 | a reachable state where one adapter call led to two dropped entries |
| DatabaseTheorems.SuccessRenewsBudget | src/writer/database.writer.ts:150-163 | a confirmed batch is delivered, ends an outage, resets the retry state and lets the next batch start |
| DatabaseTheorems.RecoveryIsBounded | src/writer/database.writer.ts:226-337 | in every reachable state the rebuild tries are within their cap, strictly below it while the reconnect timer is armed, and an outage has called the factory no more often than the cap; the retry attempt is below its cap |
| DatabaseTheorems.OutageCallsCountFactoryCalls | src/writer/database.writer.ts:262-267 | the counted calls restart exactly when an outage begins and grow exactly with factory calls, which only the reconnect timer makes |
| DatabaseTheorems.AdapterComesFromFactory | src/writer/database.writer.ts:262-289 | the adapter changes only to the one a factory just built |
| DatabaseTheorems.FailedFactoryTriesAgainOrGivesUp | src/writer/database.writer.ts:268-273 | a failed rebuild arms the reconnect timer with the backlog kept, for another try exactly if the outage still runs, or at the cap drops and counts the whole backlog |
| DatabaseTheorems.StrayTimerIff | src/writer/database.writer.ts:150-151 | the timer becomes armed without an outage exactly when an open transport sees a factory fail after recovery has ended, or a write succeed while the timer is armed |
| DatabaseTheorems.StrayTimerOnlyBlocks | src/writer/database.writer.ts:255-263 | until it fires nothing but `close()` starts a call, and when it fires it only disarms itself |
| DatabaseTheorems.LateFailureLeavesStrayTimer | src/writer/database.writer.ts:262-273 | a reachable state with such a timer |
| DatabaseTheorems.FailedProbeTriesAgainOrGivesUp | src/writer/database.writer.ts:138-143 | a failed write during recovery does the same, with its batch back at the head |
| DatabaseTheorems.InternalStepsShrink | src/writer/database.writer.ts:124-148 | once closed, every step the event loop takes by itself shrinks the measure |
| DatabaseTheorems.CloseTerminates | src/writer/database.writer.ts:378-396 | after `close()` the event loop takes at most a fixed number of steps for the transport, plus one per later `flush()` |
| DatabaseTheorems.CloseMakesProgress | src/writer/database.writer.ts:352-357 | while the waiter is pending some step is enabled |
| DatabaseTheorems.CloseDrains | src/writer/database.writer.ts:378-396 | once closed no timer is armed, the waiter fires at most once and is pending until then, and with at most one failed call everything offered was delivered or counted in `dropped` when it fired |
| DatabaseTheorems.CloseFailuresComeFromCalls | src/writer/database.writer.ts:124-137 | the failures counted since `close()` are settled adapter calls that failed |
| DatabaseTheorems.ReleaseIsCleanIff | src/writer/database.writer.ts:130-148 | the step that fires the waiter leaves an empty queue exactly if at most one call failed since `close()` |
| DatabaseTheorems.TwoFailuresLoseAnEntry | src/writer/database.writer.ts:130-148 | a reachable state where the waiter has fired and an entry is neither delivered nor dropped |
| DatabaseSteps.FailureWithoutPolicy | src/writer/database.writer.ts:124-149 | without a retry policy a failed call of an open transport puts its batch back at the head and changes nothing but the error count |
| DatabaseSteps.NothingDroppedWithoutPolicy | src/writer/database.writer.ts:82-164 | over any run without a retry policy, delivered, then in-flight, then buffered entries are exactly what was offered; nothing is dropped, put off or rebuilt |
| DatabaseSteps.WriteIsExact | src/writer/database.writer.ts:82-92 | a write that passes the filters joins the queue, or during recovery with 10000 entries queued is counted in `dropped`; it starts a call only if it fills a batch and none is in flight; any other write changes nothing |
| DatabaseSteps.ExhaustedRetryStartsOutage | src/writer/database.writer.ts:178-260 | at the cap with a factory the batch returns to the head, the retry state is reset and an outage begins with its timer armed |
| DatabaseSteps.TimerCallsFactory | src/writer/database.writer.ts:253-267 | the reconnect timer calls the factory once for every try of an outage, and otherwise only disarms itself |
| DatabaseSteps.BuiltAdapterIsProbed | src/writer/database.writer.ts:262-289 | a built adapter replaces the old one, and an open, idle transport hands it the head of the backlog at once |
| DatabaseSteps.CloseIsExact | src/writer/database.writer.ts:372-396 | the first `close()` stops every timer and any recovery and starts the head batch, or fires its waiter if nothing is left; a second one changes nothing |
| DatabaseSteps.FailureAfterClose | src/writer/database.writer.ts:127-148 | the first failure after `close()` asks for one more pass, a later one lets the waiter go; both put the batch back |
| DatabaseSteps.TriggersDropNothing | src/writer/database.writer.ts:108-121 | a trigger drops nothing and changes no timer but its own |
| DatabaseSteps.DropsAreExact | src/writer/database.writer.ts:82-337 | `dropped` grows exactly by a write into a full backlog, by the head at the retry cap without a factory, and by the backlog when an outage is given up |
| DatabaseWriter.DatabaseTransport.constructor | src/writer/database.writer.ts:63-80 | the object starts in the initial state with the clamped, defaulted settings |
| DatabaseWriter.DatabaseTransport.Write | src/writer/database.writer.ts:82-92 | refines the write step: filters, backlog cap during recovery, enqueue, pump when full |
| DatabaseWriter.DatabaseTransport.WriteBatch | src/writer/database.writer.ts:94-96 | equals the run of its writes, one after another |
| DatabaseWriter.DatabaseTransport.TakeBatch | src/writer/database.writer.ts:99-101 | returns the longest allowed prefix of the buffer and leaves the rest |
| DatabaseWriter.DatabaseTransport.Pump | src/writer/database.writer.ts:108-121 | refines the pump step with its three guards |
| DatabaseWriter.DatabaseTransport.ResumeWriteNext | src/writer/database.writer.ts:124-164 | refines the completion step for either outcome |
| DatabaseWriter.DatabaseTransport.FailWrite | src/writer/database.writer.ts:127-148 | refines the failure of a call: requeue, then close retry, recovery, backoff or nothing |
| DatabaseWriter.DatabaseTransport.ScheduleRetry | src/writer/database.writer.ts:178-218 | refines the retry step: recovery or dropping the head at the cap, a wait below it |
| DatabaseWriter.DatabaseTransport.StartRecovery | src/writer/database.writer.ts:226-251 | refines the start of an outage, which happens only once |
| DatabaseWriter.DatabaseTransport.AttemptReconnect | src/writer/database.writer.ts:262-267 | refines the part of a rebuild try before its await |
| DatabaseWriter.DatabaseTransport.ResumeAttemptReconnect | src/writer/database.writer.ts:266-289 | refines the part after it, for a built adapter, a failed factory and a closed transport |
| DatabaseWriter.DatabaseTransport.ContinueRecovery | src/writer/database.writer.ts:292-298 | its own cap test agrees with the one in the step it calls |
| DatabaseWriter.DatabaseTransport.FailRecoveryAttempt | src/writer/database.writer.ts:300-316 | refines the failed rebuild try |
| DatabaseWriter.DatabaseTransport.FinishRecoveryFailure | src/writer/database.writer.ts:318-337 | refines giving up: the backlog is emptied and counted |
| DatabaseWriter.DatabaseTransport.NotifyIdle | src/writer/database.writer.ts:352-357 | refines the release of the close waiters |
| DatabaseWriter.DatabaseTransport.Flush | src/writer/database.writer.ts:368-370 | is a pump |
| DatabaseWriter.DatabaseTransport.Close | src/writer/database.writer.ts:372-396 | refines the beginning of shutdown; a second call changes nothing |
| DatabaseWriter.DatabaseTransport.OnTick | src/writer/database.writer.ts:77-79 | refines the interval step |
| DatabaseWriter.DatabaseTransport.OnRetryTimer | src/writer/database.writer.ts:203-206 | refines the retry timer step |
| DatabaseWriter.DatabaseTransport.OnReconnectTimer | src/writer/database.writer.ts:255-259 | refines the reconnect timer step |
| DatabaseWriter.DatabaseTransport.OnMicrotask | src/writer/database.writer.ts:133-137 | refines the pump queued by the first failure after close |
| AsyncSafety.StepKeepsInv | src/writer/buffer.writer.ts:34-123 | every step keeps order, bounds, promise accounting and the wake-up condition |
| AsyncSafety.RunKeepsInv | src/writer/buffer.writer.ts:34-123 | so does every run |
| AsyncSafety.BatchingIsFifo | src/writer/buffer.writer.ts:34-83 | settled, then in-flight, then queued entries are exactly the accepted ones in order; `pending` counts the last two and stays within `maxQueueSize`; one batch at a time, of at most `batchSize`; every write is accepted or counted in `dropped` |
| AsyncSafety.AcceptedIff | src/writer/buffer.writer.ts:39-46 | a write is accepted exactly if the transport is open and fewer than `maxQueueSize` accepted entries are unsettled; a rejected one resolves at once |
| AsyncSafety.PromiseResolvedExactlyOnce | src/writer/buffer.writer.ts:34-83 | at any time a write's promise has been resolved once, or not at all if its entry is still outstanding |
| AsyncSafety.NoLostWakeup | src/writer/buffer.writer.ts:55-62 | while open, queued entries have a batch in flight or a flush that the event loop will run |
| AsyncSafety.CloseTerminates | src/writer/buffer.writer.ts:100-123 | after `close()` the number of event-loop steps is bounded by a measure of the outstanding entries and waiting continuations, plus a bounded amount per later `flush()` |
| AsyncSafety.CloseMakesProgress | src/writer/buffer.writer.ts:114-123 | until `close()` is done a batch can settle or its continuation can run |
| AsyncSafety.CloseDrains | src/writer/buffer.writer.ts:106-123 | when `close()` is done nothing is pending, everything accepted was handed over and settled, and every promise was resolved exactly once |
| AsyncSafety.UrgentWriteFlushes | src/writer/buffer.writer.ts:47-48 | an accepted write of an urgent level, or one that fills a batch, leaves a batch in flight |
| AsyncSafety.SettlementIsExact | src/writer/buffer.writer.ts:77-89 | a settled batch frees its places, resolves its promises in order, is counted as an error exactly if it failed, and schedules the rest |
| AsyncSteps.FlushIsExact | src/writer/buffer.writer.ts:55-75 | `flush()`, the interval and a scheduled flush start the whole head batch if none is in flight; the caller waits exactly as long as something is queued or in flight |
| AsyncSteps.AcceptedWriteIsExact | src/writer/buffer.writer.ts:45-52 | an accepted write joins the queue; it starts the head batch if it is urgent or fills one and none is in flight, and otherwise waits for that batch or for a flush scheduled once |
| AsyncSteps.RefusedWriteIsExact | src/writer/buffer.writer.ts:39-43 | a refused write is counted, resolved at once, and changes nothing else |
| AsyncSteps.SettlementWakesAll | src/writer/buffer.writer.ts:71-83 | a settled batch wakes everyone who waited for it, and `close()` if it did |
| AsyncSteps.CloseIsExact | src/writer/buffer.writer.ts:100-123 | `close()` and its continuations start the head batch and wait until nothing is queued or in flight; a second call changes nothing |
| AsyncWriter.AsyncTransport.constructor | src/writer/buffer.writer.ts:22-32 | the object starts in the initial state with the clamped, defaulted settings |
| AsyncWriter.AsyncTransport.Write | src/writer/buffer.writer.ts:34-53 | refines the write step |
| AsyncWriter.AsyncTransport.ScheduleFlush | src/writer/buffer.writer.ts:55-62 | refines scheduling at most one flush |
| AsyncWriter.AsyncTransport.Flush | src/writer/buffer.writer.ts:65-75 | refines one pass of flush up to its await |
| AsyncWriter.AsyncTransport.ResumeRunFlush | src/writer/buffer.writer.ts:77-89 | refines the settlement of a batch |
| AsyncWriter.AsyncTransport.OnMicrotask | src/writer/buffer.writer.ts:58-61 | refines the scheduled flush |
| AsyncWriter.AsyncTransport.ResumeFlush | src/writer/buffer.writer.ts:71-74 | refines a flush caller that wakes and tries again |
| AsyncWriter.AsyncTransport.Close | src/writer/buffer.writer.ts:100-110 | refines the beginning of shutdown; a second call changes nothing |
| AsyncWriter.AsyncTransport.WaitForFlushes | src/writer/buffer.writer.ts:114-123 | refines one pass of the shutdown wait |
| Lru.LruCache.constructor | src/brain/lru.utils.ts:32-35 | an empty cache of at least one place |
| Lru.LruCache.Get | src/brain/lru.utils.ts:41-52 | returns the stored value and moves it to the recent end; exactly one of hits and misses grows |
| Lru.LruCache.Set | src/brain/lru.utils.ts:54-70 | stores at the recent end; hands back exactly the evicted pair, the oldest one, when a new key finds the cache full; counts it |
| Lru.LruCache.Delete | src/brain/lru.utils.ts:81-83 | removes the key and tells whether it was there |
| Lru.RunIsMostRecent | src/brain/lru.utils.ts:41-70 | any run of gets and sets keeps the keys the most recently touched ones in touch order |
| Lru.CacheHoldsMostRecent | src/brain/lru.utils.ts:41-88 | from empty, the keys are exactly the `maxSize` most recently touched distinct keys, in the order of their last touch |
| Lru.CacheHoldsLastSet | src/brain/lru.utils.ts:54-70 | a cached value is the last one set under its key |
| GroupCounting.RemovalsKeepBalance | src/brain/group.utils.ts:45-82 | absorbing, taking and draining keep started = live + taken + drained + evicted |
| GroupCounting.StartBalancedIff | src/brain/group.utils.ts:54-57 | starting keeps that balance exactly if the key was absent |
| GroupCounting.StartingTwiceUnbalances | src/brain/group.utils.ts:54-57 | two starts under one key: two counted, one live, none removed |
| GroupCounting.GroupCounter.constructor | src/brain/group.utils.ts:33-38 | an empty, balanced counter |
| GroupCounting.GroupCounter.AbsorbKey | src/brain/group.utils.ts:45-51 | counts one more exactly if the group exists, and says so |
| GroupCounting.GroupCounter.StartGroup | src/brain/group.utils.ts:54-57 | starts the group and reports exactly the group it evicted |
| GroupCounting.GroupCounter.TakeGroup | src/brain/group.utils.ts:60-67 | removes and returns the group if it exists |
| GroupCounting.GroupCounter.DrainKey | src/brain/group.utils.ts:73-82 | one round of drain: removes the group and returns it for the visit |
| Repeat.StepKeeps | src/writer/repeat.writer.ts:57-99 | every push, timer, flush and close keeps the match of timers and groups, and adds to the accounted entries of each key exactly what was pushed |
| Repeat.RunKeeps | src/writer/repeat.writer.ts:57-99 | so does every run |
| Repeat.NoCountIsLost | src/writer/repeat.writer.ts:38-99 | for every key, over every run: first occurrences written, plus N - 1 per summary of N, plus the live count less one equals the entries pushed while open; live timers and live groups correspond one to one; the group counters balance |
| Repeat.PushIsExact | src/writer/repeat.writer.ts:69-80 | a repeated entry only grows its group; a new one is written as it is and opens a group of one; a closed transport ignores both |
| Repeat.DrainAllEmpties | src/writer/repeat.writer.ts:82-87 | draining leaves no group and no timer and loses no count |
| Repeat.FlushAccountsForEverything | src/writer/repeat.writer.ts:64-67 | right after a flush what was written accounts for everything pushed, and no timer is armed |
| RepeatOutputs.FlushWritesSummaries | src/writer/repeat.writer.ts:64-99 | `flush()` writes one summary for each group of at least two, oldest group first, and nothing else |
| RepeatOutputs.CloseWritesSummaries | src/writer/repeat.writer.ts:57-62 | so does the first `close()`; a second one writes nothing |
| RepeatOutputs.TimerEndsGroup | src/writer/repeat.writer.ts:89-99 | a window timer that fires ends its own group with its summary and leaves the others alone |
| RepeatOutputs.FirstOccurrenceWrites | src/writer/repeat.writer.ts:38-80 | a first occurrence is written at once; if the table is full it also ends the group at its old end, whose summary follows |
| RepeatOutputs.PushMovesToEnd | src/writer/repeat.writer.ts:69-80 | an accepted push moves its group to the recent end, behind the others in their order |
| RepeatOutputs.NoEmptySummaries | src/writer/repeat.writer.ts:96-99 | over any run a summary is written only for an entry that came at least twice |
| GroupKeys.KeyDeterminesEntryIff | src/writer/repeat.writer.ts:24-25 | a repeat key stands for one entry exactly if its author, message and fingerprint hold no NUL |
| GroupKeys.EntryIsNotLost | src/writer/repeat.writer.ts:69-99 | over any run that ends with `flush()` every entry without a NUL was written, or counted in a summary of that very entry, as often as it was pushed |
| RepeatWriter.RepeatTransport.constructor | src/writer/repeat.writer.ts:38-47 | an open transport without groups, of the configured size |
| RepeatWriter.RepeatTransport.PushEntries | src/writer/repeat.writer.ts:69-80 | equals the run of its pushes |
| RepeatWriter.RepeatTransport.PushEntry | src/writer/repeat.writer.ts:71-79 | refines one push, including the eviction it causes |
| RepeatWriter.RepeatTransport.ReleaseGroup | src/writer/repeat.writer.ts:43-46 | stops the timer of a removed group and writes its summary if it has one |
| RepeatWriter.RepeatTransport.DrainKey | src/writer/repeat.writer.ts:82-87 | refines one round of the drain: the group of a key is removed and released if it is there |
| RepeatWriter.RepeatTransport.DrainAll | src/writer/repeat.writer.ts:82-87 | refines the drain over the keys present when it starts |
| RepeatWriter.RepeatTransport.FlushGroup | src/writer/repeat.writer.ts:89-94 | refines the release of one group; nothing if it is gone |
| RepeatWriter.RepeatTransport.OnTimer | src/writer/repeat.writer.ts:75-77 | refines a window timer that fires |
| RepeatWriter.RepeatTransport.Flush | src/writer/repeat.writer.ts:64-67 | refines flush |
| RepeatWriter.RepeatTransport.Close | src/writer/repeat.writer.ts:57-62 | refines close; a second call changes nothing |
| Memo.Memoize.constructor | src/brain/memo.utils.ts:30-32 | an empty memo of at least one place |
| Memo.Memoize.Call | src/brain/memo.utils.ts:35-59 | the result is what the function gives, hit or miss; cache, tombstones and all counters are exactly as described: first in, first out, with a bounded list of evicted keys |
| Memo.CacheIsFifo | src/brain/memo.utils.ts:35-59 | a hit moves nothing, a new key goes to the end, and exactly the oldest leaves a full cache |
| Memo.Memoize.ForgetTombstone | src/brain/memo.utils.ts:42-42 | a missed key loses its tombstone and counts as recomputed exactly if it had one |
| Memo.Memoize.Store | src/brain/memo.utils.ts:44-56 | a computed value enters the cache and displaces exactly the oldest entry of a full one |
| Memo.Memoize.EvictOldest | src/brain/memo.utils.ts:44-55 | the oldest entry goes and leaves a tombstone; the oldest tombstone goes if there are too many |
| Redaction.CompiledMatchesIff | src/redact/index.redact.ts:51-82 | no patterns compile to nothing; otherwise a path matches the compiled sets exactly if it matches some raw pattern |
| Redaction.ScansAgree | src/redact/index.redact.ts:84-99 | above the depth bound, inputs that differ only where they may agree on whether a copy is needed, and without one they are the same |
| Redaction.NonInterference | src/redact/index.redact.ts:226-271 | with some mode on, two values, cyclic ones included, have equal redactions if they differ only under hidden keys or paths, in text the patterns mask, inside arrays of equal length, and in objects at the depth bound with the same keys that both need a copy |
| Redaction.OutputIsClean | src/redact/index.redact.ts:151-271 | with some mode on the visible output holds the censor under every hidden key or path, no object below the depth bound, and no array, error or bare reference anywhere |
| Redaction.FastPathExactIff | src/redact/index.redact.ts:180-212 | returning the object itself equals copying it exactly if the object is above the depth bound or holds nothing but censors |
| Redaction.ScalarAtTheBoundIsShown | src/redact/index.redact.ts:191-191 | an object at the bound that is returned as it is, where its copy would hold the censor |
| Redaction.HarmlessFieldsKept | src/redact/index.redact.ts:193-211 | above the bound every field keeps its place and key, and a field the scan passes keeps its value |
| RedactionLeaks.ConcealedIsHidden | src/redact/index.redact.ts:51-99 | whether a field is hidden depends on its key and the configured patterns exactly as they read: secret keys, exact dot paths, and `.*` for a parent and everything below |
| RedactionLeaks.SecretsAreCensored | src/redact/index.redact.ts:151-271 | wherever a secret key or a masked path leads in the visible output, the censor stands |
| RedactionLeaks.MaskedTextIsFree | src/redact/index.redact.ts:214-252 | if each mask removes its trace and those applied after it bring none back, masked text holds no trace an enabled mode is to remove; text the enabled masks leave alone is returned unchanged |
| RedactionLeaks.NothingLeaks | src/redact/index.redact.ts:226-271 | then no visible text anywhere in the output holds such a trace, unless it is the censor or the length of an array |
| RedactionLeaks.TheRestIsShown | src/redact/index.redact.ts:169-271 | down to the depth bound, where no key or path on the way is concealed, the output has the shape, keys and order of the value, its scalars, and its text wherever the enabled masks leave that alone |
| RedactionLeaks.ReturnedAsItIsIff | src/redact/index.redact.ts:180-191 | an object is handed back as it is exactly if none of its fields is hidden, an object, or text a mode would look at |
| RedactionLeaks.OffChangesNothing | src/redact/index.redact.ts:180-180 | with every mode off text and objects are handed back as they are |
| Redactor.CompileRedactPaths | src/redact/index.redact.ts:51-67 | the loop computes the compiled sets of the specification |
| Redactor.MatchPath | src/redact/index.redact.ts:76-82 | true exactly if the path matches |
| Redactor.MatchKey | src/redact/index.redact.ts:32-35 | the memoized verdict equals the direct one, and the memo stays sound |
| Redactor.IsHidden | src/redact/index.redact.ts:164-165 | true exactly if the path or the key hides the field |
| Redactor.ScanFields | src/redact/index.redact.ts:182-191 | the early exit decides exactly whether some field needs a copy |
| Redactor.CopyFields | src/redact/index.redact.ts:193-211 | the copy holds the redaction of every field, in order |
| Redactor.RedactChild | src/redact/index.redact.ts:151-167 | a hidden child is the censor, any other is redacted one level deeper |
| Redactor.RedactObject | src/redact/index.redact.ts:169-212 | computes the specified redaction of an object |
| Redactor.RedactInternal | src/redact/index.redact.ts:226-271 | computes the specified redaction of any value and terminates on cyclic graphs |
| Redactor.RedactCompiled | src/redact/index.redact.ts:285-292 | computes the specified redaction from the top; with some mode on its visible output is clean, every concealed position holds the censor, and no text leaks |
| Labels.ChainIsEscape | src/metrics/base.metric.ts:61-61 | the three successive replacements equal one character-wise escape |
| Labels.ReadUndoesEscape | src/metrics/base.metric.ts:58-68 | a reader of quoted label values gives back the value and stops at its closing quote, whatever follows |
| Labels.LabelKeyInjective | src/metrics/base.metric.ts:33-37 | two label sets have the same key exactly if they agree on every label name |
| Labels.LabelKeyDeterminesValues | src/metrics/base.metric.ts:33-37 | label sets that hold every label have the same key exactly if they map every label to the same value |
| Labels.AbsentReadsEmpty | src/metrics/base.metric.ts:35-35 | an absent label has the key of an empty one |
| Labels.EscapeCache.constructor | src/metrics/base.metric.ts:55-56 | an empty cache |
| Labels.EscapeCache.EscapeValue | src/metrics/base.metric.ts:58-68 | cached or not, the result is the escape and reads back as the value; the cache is first in, first out and bounded |
| CounterMetric.RunTotals | src/metrics/counter.metric.ts:10-13 | a run of increments adds to each label set the sum of its own increments |
| CounterMetric.CounterIsExact | src/metrics/counter.metric.ts:10-18 | after any run the counter of a label set is the sum of the increments made with exactly those labels |
| CounterMetric.Counter.constructor | src/metrics/counter.metric.ts:5-7 | a counter without values |
| CounterMetric.Counter.KeyOf | src/metrics/base.metric.ts:33-37 | the loop over the label names builds the label key |
| CounterMetric.Counter.Inc | src/metrics/counter.metric.ts:10-13 | adds the amount under the label key and touches no other |
| CounterMetric.Counter.Get | src/metrics/counter.metric.ts:16-18 | the value under the label key, 0 if there is none |
| HistogramMetric.SortedBuckets | src/metrics/histogram.metric.ts:18-18 | as many bounds as configured, in ascending order |
| HistogramMetric.SortingKeepsBounds | src/metrics/histogram.metric.ts:18-18 | and exactly those, repetitions included |
| HistogramMetric.NewHistogram | src/metrics/histogram.metric.ts:16-23 | there is no histogram exactly if there are no bounds; otherwise it is empty, over the sorted bounds |
| HistogramMetric.Histogram.constructor | src/metrics/histogram.metric.ts:16-23 | an empty histogram over the sorted bounds |
| HistogramMetric.CountObservation | src/metrics/histogram.metric.ts:50-55 | if each bucket counted the observations up to its bound, it still does with one more observation |
| HistogramMetric.Histogram.Observe | src/metrics/histogram.metric.ts:37-56 | the observation joins those of its label set; count, sum and every cumulative bucket stay exact, and other label sets are untouched |
| HistogramMetric.Histogram.Quantile | src/metrics/histogram.metric.ts:29-34 | an answer exactly for q in [0, 1]; it is the estimate of the label set, NaN without one |
| HistogramMetric.Estimate | src/metrics/histogram.metric.ts:90-107 | the loop with its carried previous count finds the first bucket that reaches the target and interpolates in it |
| HistogramMetric.TargetIsProduct | src/metrics/histogram.metric.ts:92-92 | the target, defined by repeated addition, is q times the count |
| HistogramMetric.ChosenBucketHoldsRank | src/metrics/histogram.metric.ts:94-104 | the bucket chosen for a target holds the observation of rank ceil(target); the estimate is NaN exactly if that observation lies above the last bound |
| HistogramMetric.QuantileBucketHoldsRank | src/metrics/histogram.metric.ts:90-107 | for 0 < q <= 1 an observation of rank ceil(q * count) exists, the bucket of the quantile holds it, and the quantile is NaN exactly if it lies above the last bound |
| HistogramMetric.QuantileInterpolates | src/metrics/histogram.metric.ts:90-107 | a quantile lies on the line through its bucket: its share of the way from the lower to the upper bound is the share of the bucket counted up to q times the count; it is the lower bound for an empty bucket, and NaN if no count reaches the target |
| HistogramMetric.EstimateQuantile | src/metrics/histogram.metric.ts:90-107 | refines the quantile of an entry, with that law |
| HistogramMetric.EstimateWithinBucketIff | src/metrics/histogram.metric.ts:99-102 | the estimate lies within its bucket exactly if that is not the first one or the first bound is not negative |
| HistogramMetric.EstimateMonotone | src/metrics/histogram.metric.ts:90-107 | where interpolation in the first counting bucket touches no negative bound, estimates do not decrease with the target, and NaN stays NaN |
| HistogramMetric.QuantileMonotone | src/metrics/histogram.metric.ts:90-107 | there quantiles do not decrease with q, and NaN for q implies NaN for every larger q |
| HistogramMetric.MonotoneIff | src/metrics/histogram.metric.ts:98-102 | over all cumulative counts, estimates are monotone exactly under that condition |
| HistogramMetric.QuantilesMonotoneIff | src/metrics/histogram.metric.ts:90-107 | so are the quantiles of every recorded entry |
| HistogramMetric.NegativeBoundsFall | src/metrics/histogram.metric.ts:98-102 | a recorded entry over negative bounds whose quantile falls from 0 to -5 |
| Profiler.RecordTracks | src/metrics/profiler.metric.ts:35-45 | a record uses a tracked name or the overflow label, and the tracked names stay within the cap |
| Profiler.RunTracks | src/metrics/profiler.metric.ts:35-45 | so does every run of records, and each record adds one to the sum of the counts |
| Profiler.LabelsAreBounded | src/metrics/profiler.metric.ts:22-45 | after any run of records the histogram has at most `maxOperations` + 1 labels, and their counts sum to the number of records |
| Profiler.OwnLabelWhileRoom | src/metrics/profiler.metric.ts:35-45 | over any run with no more names than labels every name is its own label and holds exactly the durations recorded under it, in order |
| Profiler.FullGoesToOther | src/metrics/profiler.metric.ts:38-44 | once the table is full a name without a place in it is recorded under `_other` |
| Profiler.RecordIsRecent | src/metrics/profiler.metric.ts:36-43 | a record makes its name the most recent one of the table |
| Profiler.OperationProfiler.constructor | src/metrics/profiler.metric.ts:22-32 | an empty cache of the clamped size and an empty histogram |
| Profiler.OperationProfiler.Record | src/metrics/profiler.metric.ts:35-45 | adds exactly one observation, under the bounded label |
| Template.ParseTemplate | src/format/template.format.ts:96-169 | parses the whole text as the scanner's specification does; the scanner always advances |
| Template.ScanTemplate | src/format/template.format.ts:108-168 | the index loop with its literal, span color and parts computes the recursive scan |
| Template.TurnScans | src/format/template.format.ts:109-165 | one turn of the loop advances, and what it emits followed by the scan of the rest is the scan from where it began |
| Template.ScanOne | src/format/template.format.ts:109-165 | the body of the loop computes that turn: escape, character, span marker or token |
| Template.TokenReadsBack | src/format/template.format.ts:143-165 | a token printed as `{name}` or `{name:color}` reads back with its name, color and level coloring |
| Template.ScanPrinted | src/format/template.format.ts:96-169 | a printed list of parts scans back to itself exactly if no literal ends in a backslash before a token or span |
| Template.ParseUndoesPrintIff | src/format/template.format.ts:96-169 | for all lists of nonempty, non-adjacent literals and known brace-free, colon-free tokens, parsing undoes printing exactly under that condition |
| Template.BackslashBeforeToken | src/format/template.format.ts:110-114 | the shortest list for which it does not |
| TemplateSpans.TokenMeaning | src/format/template.format.ts:143-165 | the listed names and every dotless one are tokens, in the written color or else that of the span around them, level-colored only without either; any other name stays as it is written, uncolored |
| TemplateSpans.SpanReadsBackIff | src/format/template.format.ts:130-165 | a colored span of texts and tokens reads back in its color, with what follows uncolored again, exactly if none of its texts ends in a backslash |
| TemplateSpans.UnclosedIsLiteral | src/format/template.format.ts:109-126 | a template without a closing brace is one literal, open braces included |
| TemplateSpans.EscapedTextReadsBack | src/format/template.format.ts:110-119 | any text with a backslash before each brace reads back as itself |
| Ttl.GetKeepsBound | src/brain/ttl.utils.ts:40-58 | reading keeps the bound and changes no stored value |
| Ttl.SetKeepsBound | src/brain/ttl.utils.ts:61-72 | storing keeps the bound, stores exactly the new value with its expiry and changes no other |
| Ttl.RecentEnd | src/brain/ttl.utils.ts:40-72 | a read moves a live key to the recent end and drops a dead one; a write puts its key there and displaces exactly the oldest of a full cache |
| Ttl.TtlCache.constructor | src/brain/ttl.utils.ts:31-33 | an empty cache of at least one place |
| Ttl.TtlCache.Get | src/brain/ttl.utils.ts:40-58 | returns a value exactly while it is live, drops a dead one, refreshes a live one, and counts hit, miss and expiry |
| Ttl.TtlCache.Set | src/brain/ttl.utils.ts:61-72 | stores the value at the recent end, evicts and counts the oldest when a new key finds the cache full; the value is live exactly if its time is positive |
| CacheKeys.KeysCollideIff | src/resolvers/index.resolver.ts:119-119 | two different keys share a cache key for some values exactly if one reads like the other followed by the type tag of a string |
| CacheKeys.CacheKeysInjectiveIff | src/resolvers/index.resolver.ts:119-119 | over a configuration the cache key determines key and value exactly if no configured key imitates another |
| CacheKeys.CloseLengthsNeverCollide | src/resolvers/index.resolver.ts:119-119 | different keys whose lengths differ by less than that of the tag never share a cache key, with or without colons |
| CacheKeys.ColonKeysCollide | src/resolvers/index.resolver.ts:119-119 | two different lookups with the same cache key |
| Resolvers.StepKeepsInv | src/resolvers/index.resolver.ts:113-176 | every request and every settlement keeps one lookup per key and the origin of every cached value |
| Resolvers.RunKeepsInv | src/resolvers/index.resolver.ts:113-176 | so does every interleaving |
| Resolvers.AtMostOneLookupPerKey | src/resolvers/index.resolver.ts:138-149 | two active lookups of the same key and value are the same lookup |
| Resolvers.SettlingIsExact | src/resolvers/index.resolver.ts:151-176 | a settled lookup leaves the in-flight table, and nothing else does; it has an answer; timeouts and errors leave the cache alone; an object with a positive lifetime is answered and cached |
| Resolvers.AnswersAreFinal | src/resolvers/index.resolver.ts:138-149 | an answer never changes, so all who joined the lookup get the same one |
| Resolvers.SecondAskJoins | src/resolvers/index.resolver.ts:144-145 | a request for a running lookup joins it and starts nothing |
| Resolvers.WarmHitIsFresh | src/resolvers/index.resolver.ts:119-124 | if no configured key imitates another, a warm answer holds the fields of a successful lookup of the same key and value stored less than its lifetime ago |
| ResolverCollisions.RepliesAreOwnIff | src/resolvers/index.resolver.ts:113-149 | over all runs every reply, warm or joined, is that of the request's own key and value exactly if no configured key imitates another |
| ResolverCollisions.ImitatorJoinsForeignLookup | src/resolvers/index.resolver.ts:138-149 | if one does, a single earlier request after which one for the other key waits for the foreign lookup, whatever the lifetime |
| ResolverCollisions.WarmHitsAreOwnIff | src/resolvers/index.resolver.ts:119-124 | under a clock that does not run backwards, warm replies alone are the request's own exactly if of two keys that can collide neither has a positive lifetime |
| ResolverCollisions.WarmHitsAtAnyTimeIff | src/resolvers/index.resolver.ts:119-124 | under any clock, warm replies alone are the request's own exactly if no configured key imitates another |
| ResolverCollisions.ImitatorGetsForeignFields | src/resolvers/index.resolver.ts:119-124 | while the answer for one of two keys that can collide is kept, a request for the other is answered with its fields |
| Resolvers.CollectIsRun | src/resolvers/index.resolver.ts:116-126 | the loop over the context is the run of one request per pair |
| ResolverMerges.OutcomeIsAnswered | src/resolvers/index.resolver.ts:151-187 | a settled lookup is answered with the fields of its outcome: an object as it is, a scalar under its configured name, an error or timeout as the marker if it is marked, else with nothing; successes, and nothing else, are stored for the lifetime |
| ResolverMerges.FirstAskStarts | src/resolvers/index.resolver.ts:138-149 | a request that finds neither a live answer nor a running lookup starts exactly one, of its key and value |
| ResolverMerges.WarmAskStartsNothing | src/resolvers/index.resolver.ts:120-124 | a live answer is given at once and nothing is started |
| ResolverMerges.CacheIsBounded | src/resolvers/index.resolver.ts:82-82 | over any run at most 8192 answers are stored, and none is displaced while there is room |
| ResolverMerges.EveryPairIsAsked | src/resolvers/index.resolver.ts:116-126 | every pair with a resolver has its reply, the one its request gets after those before it |
| ResolverMerges.ResultIsLastOf | src/resolvers/index.resolver.ts:113-135 | a call awaits exactly the lookups its requests joined, in order; each field of its result is that of the last awaited answer that has it, else of the last warm answer, and there are no others |
| ResolverFailures.FailedIffThrew | src/resolvers/index.resolver.ts:157-175 | a lookup fails exactly if its resolver threw before it returned a promise; every other outcome has an answer |
| ResolverFailures.AnswerFollowsOutcome | src/resolvers/index.resolver.ts:151-176 | over any run a lookup has an answer exactly once it has settled, and it is the one its outcome gives |
| ResolverFailures.PromiseIsMerge | src/resolvers/index.resolver.ts:128-134 | once everything awaited has settled, merging the answers alone decides between a result and a failure |
| ResolverFailures.ResolveAllFailsIff | src/resolvers/index.resolver.ts:113-135 | after any history and over any later run, a call has failed exactly if some lookup it awaits was thrown out of, whether or not the others have settled; it has a result exactly if all of them settled and none was thrown out of |
| ResolverFailures.ThrowingResolverFailsTheCall | src/resolvers/index.resolver.ts:202-206 | a call that fails because a resolver throws, and succeeds if it rejects instead |
| ResolverSets.ResolverSet.constructor | src/resolvers/index.resolver.ts:113-115 | an empty cache and no lookups |
| ResolverSets.ResolverSet.CollectLookups | src/resolvers/index.resolver.ts:113-126 | refines the loop over the context up to its await |
| ResolverSets.ResolverSet.AskOne | src/resolvers/index.resolver.ts:119-125 | refines one request: warm, joined or started |
| ResolverSets.ResolverSet.Dedupe | src/resolvers/index.resolver.ts:138-149 | refines joining or starting a lookup |
| ResolverSets.ResolverSet.ResumeLookup | src/resolvers/index.resolver.ts:151-176 | refines the settlement of a lookup for every outcome |
| ResolverSets.ResolverSet.SettleLookup | src/resolvers/index.resolver.ts:151-176 | stores a success, leaves the in-flight table and answers every joiner |
| ResolverSets.ResolverSet.MergeAnswers | src/resolvers/index.resolver.ts:127-134 | merges the answers over the warm fields in request order; there is no result exactly if some awaited lookup failed |
| Adaptive.DropOldIsFilter | src/writer/adaptive.writer.ts:103-106 | shifting from the front removes exactly the stamps before the window |
| Adaptive.ErrorTimesAreStamps | src/writer/adaptive.writer.ts:100-102 | the recorded error times are those of the pushed error entries |
| Adaptive.RunKeepsInv | src/writer/adaptive.writer.ts:75-131 | with a nondecreasing clock every run keeps the window, the cooldown and the notices exact |
| Adaptive.WindowAndNotices | src/writer/adaptive.writer.ts:98-131 | `errors` holds exactly the error times not older than the window at the last observation; start and end notices strictly alternate and agree with `throttled` |
| Adaptive.StormEndsIff | src/writer/adaptive.writer.ts:108-130 | a storm starts exactly when the window reaches the rate, and ends exactly when the observations since the last loud one span the cooldown |
| Adaptive.CalmPassesEverything | src/writer/adaptive.writer.ts:81-84 | outside a storm, and in the push that starts or ends one, every entry is written unchanged and in order |
| AdaptiveStorms.PushWrites | src/writer/adaptive.writer.ts:75-144 | what a push writes, in order: every entry outside a storm; the notice and every entry when one begins; summaries, notice and every entry when it ends; during it the warnings, the successes, and the debug, info and trace entries drawn below the sampling rate |
| AdaptiveStorms.ErrorsAreCounted | src/writer/adaptive.writer.ts:86-88 | during a storm each error and fatal entry joins its group or starts one, and while no group is displaced every group grows by exactly the errors of its key |
| AdaptiveStorms.FlushSumsUp | src/writer/adaptive.writer.ts:139-144 | `flush()` sums up each group of at least two, oldest first, and leaves no group |
| AdaptiveStorms.RunIsSound | src/writer/adaptive.writer.ts:54-54 | over any run there are at most 500 groups, of distinct keys |
| AdaptiveStorms.WindowCountsErrors | src/writer/adaptive.writer.ts:98-106 | with a nondecreasing clock the window holds as many stamps as error and fatal entries were pushed within it |
| GroupKeys.StormKeyDeterminesErrorIff | src/writer/adaptive.writer.ts:18-19 | an error shares its group only with entries of its level, author and message exactly if its author and message hold no NUL |
| AdaptiveWriter.AdaptiveTransport.constructor | src/writer/adaptive.writer.ts:48-55 | a calm transport without errors or groups |
| AdaptiveWriter.AdaptiveTransport.TrackErrors | src/writer/adaptive.writer.ts:100-106 | both loops together give the new window |
| AdaptiveWriter.AdaptiveTransport.Observe | src/writer/adaptive.writer.ts:98-131 | refines the observation; the result says whether the storm just started |
| AdaptiveWriter.AdaptiveTransport.GroupError | src/writer/adaptive.writer.ts:133-137 | refines grouping one error |
| AdaptiveWriter.AdaptiveTransport.PushEntries | src/writer/adaptive.writer.ts:75-95 | refines a push for every sequence of random draws |
| AdaptiveWriter.AdaptiveTransport.WriteAll | src/writer/adaptive.writer.ts:82-82 | the loop of a calm push writes every entry in order |
| AdaptiveWriter.AdaptiveTransport.PassAll | src/writer/adaptive.writer.ts:86-94 | the loop of a push during a storm passes one entry after another |
| AdaptiveWriter.AdaptiveTransport.PassEntry | src/writer/adaptive.writer.ts:86-94 | refines one entry during a storm: grouped, sampled or written |
| AdaptiveWriter.AdaptiveTransport.FlushGroupSummaries | src/writer/adaptive.writer.ts:139-144 | refines the drain of the groups |
| Ring.Wrap | src/brain/ring.utils.ts:35-35 | the modular index is one subtraction away |
| Ring.RingBuffer.constructor | src/brain/ring.utils.ts:24-27 | an empty ring of at least one slot |
| Ring.WriteHolds | src/brain/ring.utils.ts:35-43 | a write behind the last value lengthens the run of values from the head or, when it is full, takes the oldest place and moves the head, so the slots keep holding the end of the history |
| Ring.RingBuffer.WriteSlot | src/brain/ring.utils.ts:35-35 | the value goes to the slot behind the last one and no other slot changes |
| Ring.RingBuffer.Advance | src/brain/ring.utils.ts:36-44 | the run grows until it fills the ring; from then on the head moves and the overwrite is counted |
| Ring.RingBuffer.Push | src/brain/ring.utils.ts:33-45 | the value joins the history, which the slots hold the end of; an overwrite is counted exactly when the ring was full |
| Ring.RingBuffer.ToArray | src/brain/ring.utils.ts:48-54 | wherever the head is, the result is the last `capacity` values pushed, oldest first |
| Ring.RingBuffer.Clear | src/brain/ring.utils.ts:56-60 | the history is empty |
| LogBuffers.LogBuffer.constructor | src/http/log.server.ts:45-55 | an empty buffer |
| LogBuffers.LogBuffer.Push | src/http/log.server.ts:77-79 | the entry joins the pushed ones under the next id |
| LogBuffers.LogBuffer.Collect | src/http/log.server.ts:67-75 | the retained entries after the cursor, and the id of the last one |
| LogBuffers.LogBuffer.Answer | src/http/log.server.ts:117-121 | cursor 0 asks for the whole ring, any other for what is newer |
| LogBuffers.PollYieldsNewEntries | src/http/log.server.ts:58-75 | a poll with a returned cursor yields exactly the last min(pushed since, capacity) entries and the cursor that covers them |
| LogBuffers.StepKeepsInv | src/http/log.server.ts:58-79 | a push or poll keeps what the client got an ascending, repetition-free selection of what was pushed |
| LogBuffers.ClientSeesEachEntryOnce | src/http/log.server.ts:58-121 | over any run a polling client gets every entry at most once and in order |
| LogBuffers.NothingMissed | src/http/log.server.ts:58-121 | if no more than `capacity` entries came in between, a poll completes the client's copy |
| Spans.FillNodes | src/core/span.core.ts:76-78 | one empty child list per span id, with the last record of that id |
| Spans.TreeForTrace | src/core/span.core.ts:72-94 | children and roots are the records under each parent and under none, in completion order |
| Spans.NodesExact | src/core/span.core.ts:76-78 | with distinct ids every record is the node of its id |
| Spans.EveryRecordPlacedOnce | src/core/span.core.ts:79-92 | with distinct ids every record is listed once under its retained parent, or once as a root, and nowhere else |
| Spans.PlacedByParentId | src/core/span.core.ts:79-92 | a record whose parent id is that of a retained record is listed once under it and nowhere else, any other once among the roots |
| Spans.ListedInOrder | src/core/span.core.ts:79-92 | siblings are listed in the order their records came |
| Spans.ForestIsRenderable | src/core/span.core.ts:79-93 | for any records with distinct ids, cyclic parents included, rendering from the roots ends |
| Spans.ShownIffReachesRoot | src/format/span.format.ts:11-42 | rendering shows a span exactly once if its chain of retained parents ends at a root, and not at all otherwise |
| Spans.OneLinePerRecord | src/format/span.format.ts:34-42 | with acyclic parents the rendered lines are one per record and no more |
| Spans.OneLinePerRecordIff | src/format/span.format.ts:34-42 | and only with acyclic parents |
| Spans.CyclicSpansVanish | src/format/span.format.ts:34-42 | two retained spans of which nothing is rendered |
| SpanDrawings.DrawingReadsBack | src/format/span.format.ts:11-42 | from the indentation and the connectors of the drawn lines the forest reads back, every span under its parent and in order |
| SpanDrawings.LinesSayRecords | src/format/span.format.ts:13-20 | every line says the name, duration, span id and parent id of its record, padded to 24 columns |
| SpanCycles.RenderingEndsIff | src/format/span.format.ts:11-42 | for any records, repeated ids included, rendering from the roots ends exactly if no chain of listed children from a root comes back to a node it has passed |
| SpanCycles.RepeatedIdNeverEnds | src/core/span.core.ts:72-94 | two records with one id for which it does not end |
| Spans.LineBuffer.PushNode | src/format/span.format.ts:11-28 | appends the lines of one subtree in order |
| Spans.LineBuffer.PushList | src/format/span.format.ts:23-27 | appends the lines of a list of siblings, marking the last |
| SpanRegistries.SpanRegistry.constructor | src/core/span.core.ts:57-59 | an empty registry |
| SpanRegistries.SpanRegistry.Add | src/core/span.core.ts:62-64 | the record joins the history of the ring |
| Spans.ForTraceIsFilter | src/core/span.core.ts:67-69 | exactly the records of the trace, in the order they came |
| SpanRegistries.SpanRegistry.ForTrace | src/core/span.core.ts:67-69 | the retained records of the trace, oldest first |
| SpanRegistries.SpanRegistry.TreeForTrace | src/core/span.core.ts:72-94 | the forest of the retained records of the trace |

## Left out

- ParseTemplate: the warn-once bookkeeping for unknown tokens, rendering and colors are not modelled; custom tokens do not reach the parser.
- Observe: label sets are given to histograms by their key; the key itself is the subject of `Labels`, with which `Counter` is proved together.
- Record: the operation name is used as the histogram key; the bucket list of `src/config/metrics.config.ts` is a parameter.
- FlushGroup: the window length is not modelled; an armed timer may fire at any time.
- KeysCollideIff: values are strings and integers; the text of other types, which may hold more colons, is not modelled.
- Answer: HTTP, authorization and the parsing of the cursor are left out; `PollYieldsNewEntries` is about cursors the server returned.
- OneLinePerRecord: span names have no line breaks; the formatting of durations is left to a field of the record.
- ErrorsAreCounted: the errors of a group displaced by a newer one are dropped without a summary, and so is a group seen once, both by design (`src/writer/adaptive.writer.ts:54`, `:139-143`); nothing is claimed of them beyond the counters.
- NothingLeaks: the regular expressions themselves are not modelled; what each mask removes, and that later masks bring it not back, are its hypotheses.
- Database notices, their text, and the closing of dead, late or final adapters; an adapter is a number and does not call back into the transport. The missing-adapter error of the constructor.
- `stats()` beyond `queued`, `dropped` and `transportErrors`: ratios, watermarks and nested transports.
- The classes of the two queues hold their fields in a few records; those records also carry what the event loop owes the object, which no method branches on.
- Objects the source changes in place behind a reference (groups, histogram entries, span nodes) are values that are replaced; eviction callbacks and drain visitors are returned values and inlined loop bodies.
- Clocks are nonnegative reals; caps and sizes are integers; an unlimited attempt count is its own value. Arithmetic on reals has no rounding, no infinity and no NaN input.
- Regular expressions, PII detectors and error fingerprints are uninterpreted; serialized errors are opaque leaves; getters, prototypes and symbols are left out.
- Resolver deadlines: a timeout is one of the outcomes the environment may choose. Default settings of resolvers and `waitForIdle`.
- Text of summaries, metric exposition, snapshots and their sorting; label values are taken after conversion to text.
- Span id generation, inherited span contexts and the latest trace id.
- File, console, SQLite and worker transports, gzip rotation, settings, tags, colors, tables, sampling and trace headers: wide but shallow.
