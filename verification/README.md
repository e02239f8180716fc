# Pibo runtime verification

A Dafny model of the parts of the Pibo runtime that schedule, queue, retry, order and hand over, with proofs of
the promises they make. Every piece that updates state in place is a class or a method with a loop, proved step by
step against a specification on values; the promises are proved about that specification, over every run.

| piece | files |
|---|---|
| fair capacity pool and provider registry | `JsMap`, `CapacitySpec`, `CapacityAccounting`, `CapacityCaps`, `CapacityFairness`, `CapacityPool`, `ProviderRegistry` |
| routed session: queue, drain loop, identity lock | `SessionQueueSpec`, `SessionQueueLaws`, `SessionAdmission`, `SessionControl`, `RoutedSession` |
| message turns with model fallbacks | `TurnSpec`, `TurnLaws`, `TurnEnds`, `TurnRunner` |
| numbering of content blocks | `ContentBlocks` |
| persistence retry in memory | `RetrySpec`, `RetryLaws`, `RetryDrain`, `RetryEnds`, `RetryQueue` |
| persistence retry on a shared durable store | `JobStoreSpec`, `DurableRetrySpec`, `DurableRetryLaws`, `DurableRetry`, `DurableClaims`, `DurableWorker` |
| output render sequencer | `JsNumber`, `RecentLists`, `SequencerSpec`, `SequencerLaws`, `OutputPartLaws`, `SequencerRuns`, `SegmentKeys`, `SegmentLife`, `ToolInvocations`, `RenderSequencer` |
| portable history | `PortableHistory`, `PortableLaws`, `PortableReader`, `PortableLimits` |
| PNG reader and writer | `PngFilters`, `PngImage`, `PngRoundTrip`, `PngPixels`, `PngScript`, `PngPadding` |
| canonical JSON and history digest | `JsonText`, `CanonicalJson`, `CanonicalLaws`, `CanonicalEquality`, `JsonReading`, `HistoryDigest` |

`dafny verify dfyconfig.toml` checks the whole project.

## Where the code does not do what one might expect

Each of these is proved, with the exact condition and, where it helps, a concrete case.

- Nested work can be starved by its parents when no slot is reserved or a room has a single place; otherwise it
  cannot (`NestedNeverStarvesExactly`). A provider with one turn per room, or one turn in all, is such a pool.
- A run reminder that is refused has already removed the reminder that was queued (`RefusalLosesExactly`,
  `RefusedReminderDropsTheQueuedOne`).
- A message can be accepted during an identity operation while fork candidates are being fetched; it waits for the
  end of that (`GateDuringIdentity`, `NothingTakenUnderLock`, `UnlockWakes`, `AcceptedUnderLock`).
- A turn whose preflight throws after a stray runtime failure reports nothing (`SaysHowItEnded`).
- A turn can report finished without started when a stop is withdrawn, also one that has aborted its wait for
  capacity (`FinishedWithoutStarted`, `AbortedWaitFinishesUnstarted`).
- `onSuccess` can fire for a job that is among the dead letters, or a second time, when a claim has expired under a
  run that then completes (`SuccessIsOwnExactly`, `SuccessAfterDeadLetter`, `SuccessTwice`).
- Positions stop advancing at 2^53, which an event can reach by bringing the largest one accepted (`FreshIsHighest`,
  `PositionsRepeat`).
- The PNG reader accepts bit depths for which it gives too few pixels (`ReadGivesAllPixels`, `LegalDepthsHold`).
- Two segments of different turns share a position when a colon in their ids makes their keys equal (`SameKeyExactly`,
  `ColonsConfuse`).
- Pair repair of a history is not idempotent on tool results that themselves carry tool calls (`IdempotentExactly`);
  the reader never makes such entries.
- The JSON signature is canonical only while `localeCompare` tells all member names apart (`CanonicalExactly`).
- `write_png_rgba` accepts a pixel list of the wrong length, and then the round trip fails (`RoundTripExactly`).

## Model

| member | source | states |
|---|---|---|
| CapacityAccounting.RunInv | src/core/runtime-capacity.ts:31-90 | after every run of acquire, cancel, release and close: `active`, `activeRooms`, `generalActive`, `generalRooms` and `waiting` are the counts of leases and waiters, every cap holds, and an open pool never rests with a free slot and an eligible waiter |
| CapacityAccounting.NothingLeftWaiting | src/core/runtime-capacity.ts:71-76 | the same seen from a waiter: if an open pool has a free slot, the waiter is not eligible |
| CapacityAccounting.SettledOnce | src/core/runtime-capacity.ts:50-61 | no operation settles a promise again or changes its outcome, and releasing a lease that is not out changes nothing |
| CapacityFairness.FirstComeFirstServed | src/core/runtime-capacity.ts:71-80 | inside a room, waiters of one class are granted in order of arrival, and no later arrival overtakes a reserved waiter |
| CapacityFairness.GrantMovesUp | src/core/runtime-capacity.ts:75-78 | a grant to another room never raises a waiting room's rank, and lowers it by exactly one if the room could have been served |
| CapacityFairness.RankNeverRises | src/core/runtime-capacity.ts:44-88 | no arrival, cancellation, release or foreign grant raises the rank of a room that keeps a waiter |
| CapacityFairness.ServedWithinRank | src/core/runtime-capacity.ts:71-88 | over any interleaving a room is passed over, while it could be served, at most as often as its rank says |
| CapacityFairness.OperationsAreSteps | src/core/runtime-capacity.ts:44-87 | acquire, cancel and release are such interleavings, so the bound holds for the pool's own operations |
| CapacityFairness.NestedNotStarved | src/core/runtime-capacity.ts:71-80 | with a reserved slot and two places per room, a waiting reserved waiter of an open pool implies active reserved leases: in its own room if that room is full, else at least `reserved` of them |
| CapacityFairness.NestedStarves | src/core/runtime-capacity.ts:71-80 | with no reserved slot, or one place per room, a concrete run starves a reserved waiter |
| CapacityFairness.NestedNeverStarvesExactly | src/core/runtime-capacity.ts:71-80 | so nested work is safe from its parents on all runs if and only if `reserved` is at least 1 and `perRoom` at least 2 |
| CapacityCaps.PendingOnlyWhenFull | src/core/runtime-capacity.ts:71-81 | over every history, in terms of the leases that are out alone: they fit the limit, the room and the share of ordinary work, and a promise of an open pool is pending only if one of these is reached for it; a room gives ordinary work all but one place, unless nothing is reserved or it has only one |
| CapacityCaps.ArrivalExactly | src/core/runtime-capacity.ts:44-47 | which answer an arrival gets, from the number of pending promises: ordinary work is refused when only the places kept for nested work are left, nested work when none is |
| CapacityCaps.NestedRefusedByNested | src/core/runtime-capacity.ts:47 | so nested work is refused only if nested work fills the places kept for it |
| CapacityCaps.ResolvedExactly | src/core/runtime-capacity.ts:71-88 | a promise is resolved exactly if its lease was granted |
| CapacityCaps.ClosingRejects | src/core/runtime-capacity.ts:66-70 | closing rejects every pending promise and takes no lease back |
| CapacityPool.FairCapacityPool.Create | src/core/runtime-capacity.ts:39-43 | construction succeeds exactly on valid limits |
| CapacityPool.FairCapacityPool.Acquire | src/core/runtime-capacity.ts:44-61 | the class takes the specification's step, and answers with the refusal or the promise that it prescribes |
| CapacityPool.FairCapacityPool.Cancel | src/core/runtime-capacity.ts:50-55 | a queued waiter is taken out, rejected, and the pool drained; any other call changes nothing |
| CapacityPool.FairCapacityPool.Release | src/core/runtime-capacity.ts:82-87 | frees the slot and drains, once; a second release of the lease changes nothing |
| CapacityPool.FairCapacityPool.Drain | src/core/runtime-capacity.ts:71-89 | the `while` loop makes exactly the grants of the specification |
| CapacityPool.FairCapacityPool.GrantAt | src/core/runtime-capacity.ts:77-82 | one grant: waiter out, room to the end of the map, counters up, promise resolved |
| CapacityPool.FairCapacityPool.Close | src/core/runtime-capacity.ts:66-70 | every waiter is rejected, the queues are emptied, leases stay out |
| CapacityPool.FairCapacityPool.HeldWithinLimit | src/core/runtime-capacity.ts:33-36 | the leases that are out number `active`, which is within the limit |
| CapacityPool.AllRejected | src/core/runtime-capacity.ts:66-70 | closing settles every waiter as rejected and nothing else |
| ProviderRegistry.RuntimeCapacity.AcquireProvider | src/core/runtime-capacity.ts:103-112 | which of closed, full, refused or waiting a request gets, and the whole new state of registry and pool |
| ProviderRegistry.RuntimeCapacity.PoolFor | src/core/runtime-capacity.ts:105-110 | the registered pool, or a fresh one registered for the provider |
| ProviderRegistry.RuntimeCapacity.RemoveIdleProvider | src/core/runtime-capacity.ts:118 | the entry goes exactly if this pool is idle and still the registered one |
| ProviderRegistry.RuntimeCapacity.Release | src/core/runtime-capacity.ts:113 | the pool releases, and an idle pool is dropped |
| ProviderRegistry.RuntimeCapacity.Cancel | src/core/runtime-capacity.ts:50-55 | the pool cancels; the rejection is remembered until its continuation runs |
| ProviderRegistry.RuntimeCapacity.Reject | src/core/runtime-capacity.ts:114 | that continuation drops an idle pool |
| ProviderRegistry.RuntimeCapacity.Close | src/core/runtime-capacity.ts:117 | every registered pool is shut, no other is touched, the registry is empty |
| ProviderRegistry.RuntimeCapacity.OneLivePool | src/core/runtime-capacity.ts:103-118 | before close, however often pools were dropped and created: all leases and waiters of a provider are in its registered pool, its leases stay within `providerTurns`, and at most 64 pools are kept |
| ProviderRegistry.RuntimeCapacity.OrdinaryWithinShare | src/core/runtime-capacity.ts:103-112 | over all pools a provider ever had, its ordinary leases are at most its turns less two, and always one |
| ProviderRegistry.RuntimeCapacity.WaitsOnlyWhenFull | src/core/runtime-capacity.ts:103-112 | in terms of the options alone: ordinary work waits beside a free turn only when that share or its room is used up, and nested work that waits finds nested work running, if there are two turns and two per room |
| ProviderRegistry.RuntimeCapacity.ArrivalExactly | src/core/runtime-capacity.ts:105-112 | which answer a provider's pool gives, from the options and its pending promises |
| ProviderRegistry.ProviderNeverStarvesExactly | src/core/runtime-capacity.ts:103-112 | nested work of a provider is safe from its parents on all runs if and only if it has two turns and two per room |
| ProviderRegistry.LeasesInOne | src/core/runtime-capacity.ts:103-118 | the leases of a provider over all pools ever created for it are those of one pool |
| SessionQueueLaws.RunInv | src/agent-runtime/routed-session.ts:324-367 | over every interleaving of the operations: a non-empty queue of a live session without identity operation has a drain under way, `processing` and the identity lock exclude each other, and the queue bounds hold |
| SessionQueueLaws.QueueBounds | src/agent-runtime/routed-session.ts:59-63 | at most 64 ordinary messages and 4 MiB of them, at most one queued reminder, hence at most 65 messages and 5 MiB |
| SessionQueueLaws.HeadGoesNext | src/agent-runtime/routed-session.ts:1011-1037 | no wake-up is lost: the next turn of whatever is scheduled takes the head of the queue |
| SessionQueueLaws.LockReleaseWakes | src/agent-runtime/routed-session.ts:440-448 | releasing the identity lock takes waiting items at once, or a settled drain takes them next |
| SessionQueueLaws.TakenInOrder | src/agent-runtime/routed-session.ts:1022-1037 | items are processed in order of acceptance, and none after disposal |
| SessionQueueLaws.RefusalLosesExactly | src/agent-runtime/routed-session.ts:324-352 | a refused message leaves the queue as it was, except exactly when it is a reminder and one was queued: that one is lost |
| SessionQueueLaws.RefusedReminderDropsTheQueuedOne | src/agent-runtime/routed-session.ts:329-341 | a concrete run that loses a reminder: a later one, refused for its size, has already taken its place |
| SessionQueueLaws.GateDuringIdentity | src/agent-runtime/routed-session.ts:326-328 | in every reachable state of a session whose identity lock is held, a message is accepted exactly when a fork-candidate request is pending and the queue has room; it then goes last and nothing is taken |
| SessionQueueLaws.NothingTakenUnderLock | src/agent-runtime/routed-session.ts:1011-1037 | while the lock is held no operation takes an item, and only its holder can give it back |
| SessionQueueLaws.UnlockWakes | src/agent-runtime/routed-session.ts:440-448 | giving it back takes the head of the queue, at once or as soon as the settled drain is through |
| SessionQueueLaws.AcceptedUnderLock | src/agent-runtime/routed-session.ts:600-632 | a concrete run on which a message is accepted under the lock, waits, and is taken when the request ends |
| SessionAdmission.VerdictExactly | src/agent-runtime/routed-session.ts:324-352 | in every state, exactly which messages are accepted and which refusal the others get: 1 MiB a text, 64 ordinary messages waiting, 4 MiB of them, ten minutes of waiting |
| SessionControl.AcceptedJoins | src/agent-runtime/routed-session.ts:353-367 | what is accepted goes behind everything that waits; taken and waiting items together only grow by it |
| SessionControl.RemovesExactly | src/agent-runtime/routed-session.ts:569-582 | exactly the matching messages go, in number too, and the rest keeps its order |
| SessionControl.CancelsExactly | src/agent-runtime/routed-session.ts:799-807 | the first item with the id goes, or nothing changes |
| SessionControl.ClearsExactly | src/agent-runtime/routed-session.ts:1459-1466 | everything that waits goes, and nothing that is being processed |
| SessionControl.IdentityExactly | src/agent-runtime/routed-session.ts:415-426 | the lock is taken exactly in a live session without a turn, streaming output or waiting items |
| SessionControl.ForkScanExactly | src/agent-runtime/routed-session.ts:600-632 | which fork-candidate requests are taken and with what, and that they give back what they took |
| SessionControl.DisposesExactly | src/agent-runtime/routed-session.ts:1414-1436 | disposal drops what waits and takes nothing |
| SessionControl.DisposedForGood | src/agent-runtime/routed-session.ts:1414-1436 | and after it nothing is taken in or processed |
| RoutedSession.RuntimeRoutedSession.EnqueueMessage | src/agent-runtime/routed-session.ts:324-367 | the checks in their order, the accepted item last, the drain started |
| RoutedSession.RuntimeRoutedSession.EnqueueCompactAction | src/agent-runtime/routed-session.ts:1306-1319 | a compact item is appended without a bound, the drain started |
| RoutedSession.RuntimeRoutedSession.RemoveQueuedMessages | src/agent-runtime/routed-session.ts:569-582 | exactly the matching messages go |
| RoutedSession.RuntimeRoutedSession.CancelQueuedItem | src/agent-runtime/routed-session.ts:799-807 | an item with the id goes; found exactly if there was one in a live session |
| RoutedSession.RuntimeRoutedSession.ClearQueue | src/agent-runtime/routed-session.ts:1459-1466 | the queue is emptied and its length reported |
| RoutedSession.RuntimeRoutedSession.BeginIdentityOperation | src/agent-runtime/routed-session.ts:415-426 | the lock is taken exactly in an idle session with an empty queue |
| RoutedSession.RuntimeRoutedSession.EndIdentityOperation | src/agent-runtime/routed-session.ts:440-448 | the lock is released and the drain started |
| RoutedSession.RuntimeRoutedSession.BeginForkCandidates | src/agent-runtime/routed-session.ts:600-625 | a request, with the lock when the session is idle |
| RoutedSession.RuntimeRoutedSession.EndForkCandidates | src/agent-runtime/routed-session.ts:612-632 | the request ends, and the lock if it held it |
| RoutedSession.RuntimeRoutedSession.Start | src/agent-runtime/routed-session.ts:1011-1021 | one drain at a time, and none during an identity operation |
| RoutedSession.RuntimeRoutedSession.Advance | src/agent-runtime/routed-session.ts:1022-1031 | the loop shifts the head, or ends |
| RoutedSession.RuntimeRoutedSession.ItemSettled | src/agent-runtime/routed-session.ts:1025-1035 | the loop goes on after an item |
| RoutedSession.RuntimeRoutedSession.DrainSettled | src/agent-runtime/routed-session.ts:1014-1020 | the `finally` of the drain restarts it for items that came meanwhile |
| RoutedSession.RuntimeRoutedSession.TransitionToDisposed | src/agent-runtime/routed-session.ts:1414-1436 | queue dropped, no further processing |
| RoutedSession.DropWhere | src/agent-runtime/routed-session.ts:569-577 | the filtering loop keeps exactly the items that do not match, in order |
| TurnLaws.Lifecycle | src/agent-runtime/routed-session.ts:1054-1181 | on every script of failures, cancellations and model switches: started, finished and error at most once each, finished and error never both, finished last, prompts after started, models tried in order and once, at most fallbacks + 1 prompts |
| TurnLaws.SaysHowItEnded | src/agent-runtime/routed-session.ts:1119-1181 | a turn that is not stopped reports finished or exactly one error if and only if it is not the case that preflight throws after a stray runtime failure; then it is silent |
| TurnLaws.OneErrorWhenEveryModelFails | src/agent-runtime/routed-session.ts:1054-1117 | on a turn that is not stopped, if every prompt that goes out ends in a provider failure, however leases and model switches go, there is no finish and exactly one error, or none in the one silent case above |
| TurnLaws.FinishedWithoutStarted | src/agent-runtime/routed-session.ts:1039-1181 | for every script and configuration: finished is reported without started if and only if the turn passes its preflight, every attempt fails to switch or loses or gives back its place before the start, with provider failures at most, the loop is left by a stop or by an attempt turned away without failure, and no stop is left at the end |
| TurnLaws.FinishedTurnsStarted | src/agent-runtime/routed-session.ts:1119-1181 | so a turn whose stop, once seen, is not withdrawn reports started before finished |
| TurnLaws.AbortedWaitFinishesUnstarted | src/agent-runtime/routed-session.ts:808-826 | a concrete turn whose whole report is finished: its wait for capacity is aborted by a cancellation that is then withdrawn |
| TurnEnds.EndsExactly | src/agent-runtime/routed-session.ts:1039-1181 | for every script, stops included: finished is reported exactly when the prompts come to a good end that no stop follows, failed exactly when an error was reported on the way or something was thrown that no stop covers; which it is follows from leases, prompts, switches, failures and restoring alone |
| TurnEnds.PromptsExactly | src/agent-runtime/routed-session.ts:1039-1117 | exactly which prompts are sent and whether the turn starts: an attempt is made when those before it met a provider failure or could not switch, and sends its prompt unless its lease fails or a stop is seen |
| TurnEnds.LastPromptDecides | src/agent-runtime/routed-session.ts:1054-1181 | a turn nobody stops whose last prompt threw or met a failure reports exactly one error and no finish |
| TurnEnds.ThrownPromptIsReported | src/agent-runtime/routed-session.ts:1157-1169 | a concrete turn whose prompt throws |
| TurnRunner.ActiveTurn.EmitRuntimeError | src/agent-runtime/routed-session.ts:999-1009 | one error per turn |
| TurnRunner.ActiveTurn.HandleRuntimeFailure | src/agent-runtime/routed-session.ts:990-998 | a provider failure is held back while models are being tried, any other is reported |
| TurnRunner.ActiveTurn.DoPromptWithinCapacity | src/agent-runtime/routed-session.ts:1039-1053 | waits for capacity, reports the start, prompts |
| TurnRunner.ActiveTurn.TryModels | src/agent-runtime/routed-session.ts:1069-1107 | the fallback loop with its exits |
| TurnRunner.ActiveTurn.DoPromptWithModelFallbacks | src/agent-runtime/routed-session.ts:1054-1117 | with or without fallbacks, and the restored model |
| TurnRunner.ActiveTurn.ProcessQueuedMessage | src/agent-runtime/routed-session.ts:1119-1181 | a whole turn: what it emits is the trace the laws above speak of |
| ContentBlocks.CountersCount | src/agent-runtime/routed-session.ts:1501-1537 | the counters equal the number of blocks opened so far, the active index the block that is open |
| ContentBlocks.IndexIsOpenings | src/agent-runtime/routed-session.ts:1501-1537 | an event's number is the count of openings up to it less one, so blocks are numbered 0, 1, 2, ... without gaps |
| ContentBlocks.SharesBlock | src/agent-runtime/routed-session.ts:1501-1537 | an event that opens nothing has the number of the event before it in its lane |
| ContentBlocks.ClosedNeverReused | src/agent-runtime/routed-session.ts:923-926 | after a closing event or a successful compaction every later number of the lane is larger |
| ContentBlocks.ContentIndices.CloseActiveContentParts | src/agent-runtime/routed-session.ts:1489-1492 | both open blocks are closed, the counters stay |
| ContentBlocks.ContentIndices.ResetContentIndices | src/agent-runtime/routed-session.ts:1494-1499 | a new turn starts at 0 |
| ContentBlocks.ContentIndices.WithActiveMessage | src/agent-runtime/routed-session.ts:1501-1537 | the four fields after an event, and the number it goes out with |
| RetryLaws.RunInv | src/core/output-persistence-retry.ts:139-177 | over every run: one pending job per key, within capacity, each either running or waiting for its timer, attempts within the budget, the dead-letter list the newest `maxDeadLetters` |
| RetryLaws.EachJobEndsOnce | src/core/output-persistence-retry.ts:279-379 | every accepted job is pending or ended exactly once, in success, dead letter or disposal; it never runs twice at a time nor more than `maxAttempts` times; a dead letter means that every run failed |
| RetryLaws.PendingMoves | src/core/output-persistence-retry.ts:257-277 | a scheduled timer excludes a running attempt, and no pending job lacks both |
| RetryLaws.ReplayIsForced | src/core/output-persistence-retry.ts:141-153 | case listing beside the run theorems: a producer's replay only brings the next attempt forward, within the same budget |
| RetryLaws.Progress | src/core/output-persistence-retry.ts:257-390 | no operation adds to the runs a job has left, and each timer and attempt end of its own uses some up |
| RetryLaws.EndsInTime | src/core/output-persistence-retry.ts:257-390 | so fewer than 2 * maxAttempts steps of its own end a job, whatever else happens |
| RetryDrain.RoundRaises | src/core/output-persistence-retry.ts:205-229 | after a flush and any schedule of attempt ends, timers, further flushes and quarantines in which all that was in flight settles, every job still pending has had one more run |
| RetryEnds.DeadOnlyWhen | src/core/output-persistence-retry.ts:336-379 | a job that ended dead had `maxAttempts` runs, or failed for good in its last one: there is the step at which it did |
| RetryEnds.RetryableStays | src/core/output-persistence-retry.ts:354-378 | in every run, a retryable failure before the last attempt keeps the job, with its timer or a replay that was asked for |
| RetryEnds.LeavesExactly | src/core/output-persistence-retry.ts:311-379 | a pending job stays pending except at disposal and at the end of an attempt that succeeds, fails for good or was the last |
| RetryEnds.LettersExactly | src/core/output-persistence-retry.ts:139-189 | every step earns a dead letter exactly if it is a last retryable failure, a permanent failure, an arrival at a full queue or a quarantine, with that reason and number of attempts |
| RetryEnds.LetterEarned | src/core/output-persistence-retry.ts:139-189 | and every dead letter of a run was earned by such a step |
| RetryEnds.ArrivalExactly | src/core/output-persistence-retry.ts:139-177 | a pending key is started again, a new one accepted and run at once, or dead-lettered when the queue is full |
| RetryEnds.NewestKept | src/core/output-persistence-retry.ts:392-410 | the list holds the newest dead letters, as many as it may |
| RetryQueue.OutputPersistenceRetryQueue.Enqueue | src/core/output-persistence-retry.ts:139-177 | a pending key is replayed, a full queue dead-letters, anything else is accepted and started |
| RetryQueue.OutputPersistenceRetryQueue.Start | src/core/output-persistence-retry.ts:257-283 | a running attempt is marked for a replay, otherwise a run starts and the attempt is counted |
| RetryQueue.OutputPersistenceRetryQueue.TimerFires | src/core/output-persistence-retry.ts:381-390 | the next attempt |
| RetryQueue.OutputPersistenceRetryQueue.Settled | src/core/output-persistence-retry.ts:311-379 | success, dead letter or timer, and the replay asked for meanwhile |
| RetryQueue.OutputPersistenceRetryQueue.GiveUp | src/core/output-persistence-retry.ts:343-370 | counted, removed, dead-lettered with its reason |
| RetryQueue.OutputPersistenceRetryQueue.Reschedule | src/core/output-persistence-retry.ts:354-378 | counted and timed, or replayed at once |
| RetryQueue.OutputPersistenceRetryQueue.FlushNow | src/core/output-persistence-retry.ts:197-203 | every pending job in insertion order is started or marked |
| RetryQueue.OutputPersistenceRetryQueue.Dispose | src/core/output-persistence-retry.ts:230-246 | everything pending is dropped |
| RetryQueue.OutputPersistenceRetryQueue.QuarantineKey | src/core/output-persistence-retry.ts:179-189 | counted and dead-lettered |
| RetryQueue.OutputPersistenceRetryQueue.RecordDead | src/core/output-persistence-retry.ts:392-410 | the list keeps the newest `maxDeadLetters` |
| RetryQueue.OutputPersistenceRetryQueue.Drain | src/core/output-persistence-retry.ts:205-229 | with nobody enqueueing it ends after at most `maxAttempts` + 1 rounds, however the runs end and in whatever order, with every accepted job successful or dead |
| DurableRetryLaws.RunInv | src/reliability/store.ts:727-840 | over every interleaving of workers, crashes, clocks, recoveries and quarantine: tokens of a job rise with its claims, a live row has used as many attempts as it was claimed, acknowledgements and success callbacks agree with the fates |
| DurableRetry.RunsBounded | src/reliability/store.ts:727-752 | all workers together run a job at most `maxAttempts` times |
| DurableRetry.StaleHoldsNothing | src/reliability/store.ts:1316-1328 | a claim followed by another one on the same job satisfies no check of the store, at any time |
| DurableRetry.StaleIsInert | src/core/output-persistence-retry.ts:310-370 | so nothing a stale attempt still does changes the store |
| DurableRetry.PayloadByHolder | src/reliability/store.ts:754-763 | a payload changes only by `updatePayload` under the current unexpired claim |
| DurableRetry.ClaimCountsAttempts | src/core/output-persistence-retry.ts:283-292 | the attempts a worker remembers are those of the row, so its own dead letter is the store's |
| DurableRetry.LeavesExactlyOn | src/reliability/store.ts:765-838 | case listing of the single steps: a job leaves the live table if and only if a completed run is acknowledged under the current claim, it fails permanently under it, its last attempt fails or is released under it, it is found unclaimed with no attempts left, or it is quarantined |
| DurableRetry.OneFate | src/reliability/store.ts:785-799 | every job is live or has one fate, at most one acknowledgement of it succeeds, and exhausted means all attempts were used |
| DurableRetry.SuccessMeansGone | src/core/output-persistence-retry.ts:325-335 | `onSuccess` fires only after an unaborted completed run, for a job no longer live |
| DurableRetry.SuccessIsOwnExactly | src/core/output-persistence-retry.ts:325-335 | it speaks of this attempt's own acknowledgement if and only if the claim is still current when the run ends; else it fires exactly if the job is gone |
| DurableRetry.SuccessAfterDeadLetter | src/core/output-persistence-retry.ts:325-335 | a concrete schedule on which it fires for a job among the dead letters |
| DurableRetry.SuccessTwice | src/core/output-persistence-retry.ts:325-335 | and one on which it fires twice for the same job |
| DurableRetry.DisposedWritesNothing | src/core/output-persistence-retry.ts:230-246 | a run that goes on after `dispose` writes no payload any more, whatever happens in between: at no time if its claim was current then, and otherwise at no time from then on |
| DurableRetry.NeverStuck | src/reliability/store.ts:727-752 | a live job whose claim has run out, or that is due or forced, is claimed by whoever tries next, with a new token, or moved to the dead jobs |
| DurableClaims.HeartbeatKeepsJob | src/reliability/store.ts:840-856 | until the expiry a heartbeat sets, whatever others do, the claim stays current and nobody else gets the job |
| DurableClaims.ClaimKeepsJob | src/reliability/store.ts:727-752 | and so it is for the visibility of a granted claim |
| DurableClaims.LostHeartbeatSilences | src/core/output-persistence-retry.ts:500-512 | a run whose heartbeat was refused acknowledges nothing and calls back nothing |
| DurableClaims.UpdateWrites | src/reliability/store.ts:754-763 | an update under the current claim writes the payload and nothing else |
| DurableClaims.RetryWaits | src/reliability/store.ts:801-828 | a retried job is pending, and granted to an unforced claim exactly from its delay on |
| DurableClaims.EnqueuedExactly | src/reliability/store.ts:633-659 | a new row with at least one attempt, due at once, unless a live job has the key |
| DurableWorker.JobStore.EnqueueJob | src/reliability/store.ts:633-659 | a new row, or the live job with the same idempotency key |
| DurableWorker.JobStore.MoveExhausted | src/reliability/store.ts:1398-1414 | an unclaimed job without attempts left goes to the dead jobs |
| DurableWorker.JobStore.ClaimRecoverableJob | src/reliability/store.ts:727-752 | who may claim, and the new token, attempt and expiry |
| DurableWorker.JobStore.UpdateJobPayload | src/reliability/store.ts:754-763 | written exactly under the current claim |
| DurableWorker.JobStore.HeartbeatJob | src/reliability/store.ts:840-856 | expiry extended exactly under the current claim |
| DurableWorker.JobStore.AckJob | src/reliability/store.ts:785-799 | deleted exactly under the current claim |
| DurableWorker.JobStore.RetryJob | src/reliability/store.ts:801-828 | back to pending or dead, exactly under the current claim; `releaseJob` (lines 765-783) is the same |
| DurableWorker.JobStore.FailJob | src/reliability/store.ts:830-838 | dead exactly under the current claim |
| DurableWorker.JobStore.QuarantineJob | src/reliability/store.ts:998-1003 | dead whoever holds it |
| DurableWorker.DurableAttempt.UpdatePayload | src/core/output-persistence-retry.ts:310-324 | the callback of `run`, which may outlive `dispose`, and its answer |
| DurableWorker.DurableAttempt.HeartbeatTick | src/core/output-persistence-retry.ts:500-512 | a refused heartbeat aborts the attempt |
| DurableWorker.DurableAttempt.RunEnded | src/core/output-persistence-retry.ts:325-379 | which of success callback, lost claim, dead letter or timer follows, and the store after it: dead-lettered means the row has gone to the dead jobs, a timer that it is pending with that delay |
| DurableWorker.DurableAttempt.Dispose | src/core/output-persistence-retry.ts:230-246 | the claim is released, later ends are ignored |
| DurableWorker.StepIsLocal | src/core/output-persistence-retry.ts:310-379 | an attempt's step acts in the whole system as it does alone with the store |
| SequencerRuns.FreshIsHighest | src/core/output-render-sequence.ts:370-376 | a newly allocated position is above all given out before in the session, even if the clock goes back, if and only if clock or store are past the last one or adding one to it gives a larger double; always so for positions up to 2^53 - 1 |
| SequencerRuns.FreshExactly | src/core/output-render-sequence.ts:370-376 | the new position is the largest of a thousand to the millisecond of the clock, the next number and the store's answer |
| SegmentKeys.SameKeyExactly | src/core/output-render-sequence.ts:620-663 | two events get the same key if and only if they are of the same group of kinds, the same turn and the same part number, tool call and ordinal, or request; turn and id are told apart up to a colon in them |
| SegmentKeys.PlainTurnsApart | src/core/output-render-sequence.ts:620-663 | where turn ids have no colon that is equality |
| SegmentKeys.ColonsConfuse | src/core/output-render-sequence.ts:646-653 | two requests of different turns, one with a colon, that share a key |
| SegmentKeys.PartCountersApart | src/core/output-render-sequence.ts:547-549 | each turn and kind of part has its own counter |
| SegmentKeys.ToolCountersApart | src/core/output-render-sequence.ts:605-607 | and each turn and tool call, whatever their ids contain |
| SegmentKeys.NewSegmentIsHighest | src/core/output-render-sequence.ts:100-116 | over every run, an event without a position whose segment has not occurred in the session gets one above all earlier ones while the numbers advance |
| SegmentKeys.AlikeShare | src/core/output-render-sequence.ts:107-115 | and an event of a segment still on record gets that segment's |
| SegmentLife.SegmentLives | src/core/output-render-sequence.ts:318-341 | which kinds of events keep a segment in progress, end it or leave it alone |
| SegmentLife.TurnLeavesNone | src/core/output-render-sequence.ts:327-334 | the end of a turn leaves none of its segments in progress and all of those of other turns |
| SegmentLife.TurnExactly | src/core/output-render-sequence.ts:117-123 | which turn is active after an event |
| SequencerRuns.PositionsRepeat | src/core/output-render-sequence.ts:370-376 | a concrete run on which two positions given out are the same, after an event has brought 2^53 - 1 |
| JsNumber.Successor | src/core/output-render-sequence.ts:372 | adding one to a double never gives a smaller one, and a larger one exactly below 2^53 or at an odd multiple of 2 below 2^54 |
| JsNumber.RoundedIsNumber | src/core/output-render-sequence.ts:371-372 | rounding to a double is idempotent |
| SequencerLaws.PositionInKeeps | src/core/output-render-sequence.ts:100-127 | what one event does: fresh not below anything, and above exactly when the numbers advance, a segment on record gives its position unless the event brings one, no position on record changes, active and completed segments stay apart and on record |
| SequencerRuns.PositionStable | src/core/output-render-sequence.ts:100-127 | while a segment is on record its position does not change |
| SequencerRuns.SegmentShares | src/core/output-render-sequence.ts:107-115 | and every later event of the segment gets it, unless it brings its own |
| SequencerRuns.ActiveIsTracked | src/core/output-render-sequence.ts:318-356 | active and completed segments are disjoint and have positions, so active ones are never forgotten; at most 1024 completed ones are kept |
| SequencerLaws.CompleteSegmentKeeps | src/core/output-render-sequence.ts:343-356 | completing a segment forgets only the oldest completed ones beyond the limit |
| SequencerRuns.ReplayUnchanged | src/core/output-render-sequence.ts:100-127 | a positioned event with an id comes back unchanged from any sequencer state and store |
| SequencerRuns.PositionTwice | src/core/output-render-sequence.ts:100-127 | positioning twice, in any two sequencers, is positioning once, as long as the numbers stay within 2^53 |
| SequencerRuns.OneOpenPart | src/core/output-render-sequence.ts:175-233 | unpositioned events without a store: at most one open part per turn and kind, indices distinct |
| OutputPartLaws.ChosenIs | src/core/output-render-sequence.ts:192-199 | a new part gets an index above every one on record, and only if none is open; an index that rounds back to the highest one takes that part again |
| OutputPartLaws.ChosenExactly | src/core/output-render-sequence.ts:175-203 | exactly which index an event gets: its own if that names an open part or a closed one with its identity, else the open part's, else the proposed one if that is above all, else one more than the highest |
| OutputPartLaws.PartExactly | src/core/output-render-sequence.ts:392-457 | which events belong to a part, of which kind and turn |
| OutputPartLaws.RecordedExactly | src/core/output-render-sequence.ts:205-215 | the part of an event is closed by the closing kinds and then known by the closing event; all others stay |
| OutputPartLaws.PartKept | src/core/output-render-sequence.ts:175-233 | recording and trimming never drop an open part, in this counter or any other |
| SequencerRuns.OrdinalsInOrder | src/core/output-render-sequence.ts:235-282 | invocations of a reused tool call id are numbered in the order they began, until counting ends at 2^53 |
| OutputPartLaws.AttachesToLatest | src/core/output-render-sequence.ts:262-273 | an unnumbered tool event goes to the latest invocation, or starts one, which is above all on record exactly if none of those has reached 2^53 |
| ToolInvocations.InvocationsCounted | src/core/output-render-sequence.ts:235-282 | for the events of a tool call without numbers, told by the events alone: a call after a finished or another complete call begins a new invocation, as does a second start after a finish, and the n-th is numbered n - 1 |
| ToolInvocations.NumberedExactly | src/core/output-render-sequence.ts:252-261 | an event with a number goes to the invocation of that number, which is then one that came with it |
| ToolInvocations.ToolExactly | src/core/output-render-sequence.ts:235-282 | which events get an ordinal, and the turn they go out with |
| RecentLists.TrimKeeps | src/core/output-render-sequence.ts:217-233 | trimming keeps every open item and all order, and ends within the limit or with only open items left |
| RecentLists.TrimLists | src/core/output-render-sequence.ts:284-300 | the loop itself |
| SequencerRuns.ActiveSessionsStay | src/core/output-render-sequence.ts:358-364 | no session with an active turn or segment is evicted |
| SequencerRuns.NewestSessionStays | src/core/output-render-sequence.ts:358-364 | nor the session of the event just positioned |
| SequencerRuns.IdleSessionsBounded | src/core/output-render-sequence.ts:358-364 | and at most 1024 sessions without a turn or segment in progress remain, and all of them if there are no more |
| RenderSequencer.Complete | src/core/output-render-sequence.ts:343-356 | the loop of `completeSegment` |
| RenderSequencer.CompleteTurn | src/core/output-render-sequence.ts:327-334 | the loop at the end of a turn, over the positions as they shrink |
| RenderSequencer.Lifecycle | src/core/output-render-sequence.ts:318-341 | which segments become active or complete |
| RenderSequencer.TrimAll | src/core/output-render-sequence.ts:358-364 | the eviction loop |
| RenderSequencer.AssignPart | src/core/output-render-sequence.ts:175-203 | the part index of an event and the list it leaves |
| RenderSequencer.AssignTool | src/core/output-render-sequence.ts:235-282 | the invocation of a tool event |
| RenderSequencer.AssignPosition | src/core/output-render-sequence.ts:107-115 | own position, segment's position or a new one |
| RenderSequencer.PositionEvent | src/core/output-render-sequence.ts:100-125 | all of `position` within its session |
| RenderSequencer.OutputRenderSequencer.Position | src/core/output-render-sequence.ts:100-127 | the whole map of sessions after an event: the invariants hold, the event's session is kept, sessions in progress are untouched |
| RenderSequencer.OutputRenderSequencer.DisposeSession | src/core/output-render-sequence.ts:129-131 | exactly that session goes |
| PortableLaws.KeepsLengthAndOrder | src/agent-runtime/portable-history.ts:472-511 | case listing of one repair step: it adds, drops and moves nothing, and leaves user and system messages alone |
| PortableLaws.CallsAreAnswered | src/agent-runtime/portable-history.ts:472-511 | every assistant tool call in the result has a result of the same turn and call id |
| PortableLaws.ResultsAreCalledExactly | src/agent-runtime/portable-history.ts:472-511 | every tool result has its call if and only if no kept result's call is written only inside orphaned results |
| PortableLaws.IdempotentExactly | src/agent-runtime/portable-history.ts:472-511 | repairing twice is repairing once under exactly that condition |
| PortableLaws.NotIdempotentOnNestedCalls | src/agent-runtime/portable-history.ts:472-511 | two entries on which it is not |
| PortableLaws.PlainResultsPair | src/agent-runtime/portable-history.ts:413-436 | the reader's own entries meet the condition |
| PortableReader.BoundEntries | src/agent-runtime/portable-history.ts:513-532 | the loop keeps the longest suffix within both limits, size-normalized |
| PortableReader.DroppedIsLeast | src/agent-runtime/portable-history.ts:522-529 | nothing longer would have fitted |
| PortableReader.NormalizePairs | src/agent-runtime/portable-history.ts:472-511 | the two loops of the repair |
| PortableReader.ReadHandoff | src/agent-runtime/portable-history.ts:235-275 | the read loop, which terminates |
| PortableReader.ReadFromGives | src/agent-runtime/portable-history.ts:235-275 | it returns what is left after giving up some oldest entries, gives up none without need, and fails only if the empty handoff is too large |
| PortableReader.ReadGives | src/agent-runtime/portable-history.ts:182-275 | a read gives the handoff for some suffix of the history, or fails in that one case |
| PortableLimits.ReadExactly | src/agent-runtime/portable-history.ts:214-275 | exactly what a read gives up: first the fewest oldest entries for which the rest leaves room for the framing and 16 KiB, then, while the handoff is above 1 MiB, the fewest average entries that make up for the excess |
| PortableLimits.RemoveCountIsLeast | src/agent-runtime/portable-history.ts:269-273 | that number is the least, or all there are |
| PortableLimits.SizedEntry | src/agent-runtime/portable-history.ts:534-552 | bringing an entry to size touches content and result alone, and structured content only above 256 KiB |
| PortableLimits.RepairedEntry | src/agent-runtime/portable-history.ts:472-511 | what the repair makes of each entry, told by the calls and results of the history |
| PortableLimits.HandoffBegins | src/agent-runtime/portable-history.ts:236-256 | context, what could not be carried, what was left out, then what is retained |
| PortableReader.HandoffIsBounded | src/agent-runtime/portable-history.ts:182-275 | such a handoff is at most 1 MiB and 1000 entries, its model part is the repaired suffix, retained and omitted add up to the total, and no call or result in it is alone |
| PngFilters.PaethIsNearest | scripts/pad-pwa-icons.py:22-31 | the predictor of section 6.6 of RFC 2083: nearest neighbour, ties in order |
| PngFilters.UnfilterInverts | scripts/pad-pwa-icons.py:112-136 | un-filtering undoes the filter, for each of the five types |
| PngFilters.FilterInverts | scripts/pad-pwa-icons.py:112-136 | and filtering undoes un-filtering, so each filter is a bijection |
| PngFilters.UnfilterImageInverts | scripts/pad-pwa-icons.py:112-136 | over a whole image, for any mix of filter types |
| PngFilters.UnfilterImageNeeds | scripts/pad-pwa-icons.py:112-136 | a read that succeeds had all its bytes and gives all its rows |
| PngFilters.DecodeRow | scripts/pad-pwa-icons.py:119-134 | the inner loop, with the error it stops at |
| PngFilters.DecodeAt | scripts/pad-pwa-icons.py:113-118 | one scanline |
| PngFilters.Decode | scripts/pad-pwa-icons.py:107-136 | the outer loop |
| PngImage.Be32Inverts | scripts/pad-pwa-icons.py:70 | big-endian numbers read back |
| PngImage.HeaderInverts | scripts/pad-pwa-icons.py:75-78 | the header chunk reads back |
| PngImage.FrameReads | scripts/pad-pwa-icons.py:70-73 | a framed chunk reads back wherever it stands (section 3.2 of RFC 2083) |
| PngImage.FramesRead | scripts/pad-pwa-icons.py:69-90 | and so does a list of chunks |
| PngImage.UnpackBits | scripts/pad-pwa-icons.py:44-56 | samples are below the depth's maximum; depth 0 is an error |
| PngImage.AllSamples | scripts/pad-pwa-icons.py:50-55 | how many samples a row holds |
| PngRoundTrip.ReadsAnyEncoding | scripts/pad-pwa-icons.py:59-165 | any framing of any filtering of an RGBA image reads back to it: extra chunks, split data, unused bytes and trailing bytes make no difference |
| PngRoundTrip.WriteThenRead | scripts/pad-pwa-icons.py:174-189 | writing and reading back gives the image if its pixel list is as long as its size says |
| PngRoundTrip.RoundTripExactly | scripts/pad-pwa-icons.py:174-189 | and only then |
| PngRoundTrip.ReadGivesAllPixels | scripts/pad-pwa-icons.py:139-165 | a successful read gives width times height pixels if and only if the rows, of the length the header asks for, hold enough samples for the width |
| PngRoundTrip.LegalDepthsHold | scripts/pad-pwa-icons.py:44-56 | they do at every legal bit depth the reader takes; at 3 bits, and in a palette of 16 bits, not always |
| PngPixels.ReadShows | scripts/pad-pwa-icons.py:59-165 | every pixel of a read shows what the decoded rows hold at its place, for each colour type and depth: samples high bits first, grey scaled to the nearest byte, palette colours with their transparency |
| PngPixels.ScaleIsNearest | scripts/pad-pwa-icons.py:154-157 | the scaled grey value is the nearest byte |
| PngPixels.GatheredIs | scripts/pad-pwa-icons.py:69-104 | the compressed data of all chunks joined in order, and of header, palette and transparency the last chunk |
| PngPixels.FilterStepExactly | scripts/pad-pwa-icons.py:34-42 | the step of the filters and the length of a row |
| PngScript.CollectChunks | scripts/pad-pwa-icons.py:69-90 | the chunk loop |
| PngScript.Unpack | scripts/pad-pwa-icons.py:44-56 | `unpack_bits` with its early return |
| PngScript.ConvertRows | scripts/pad-pwa-icons.py:138-163 | the pixel loop |
| PngScript.ReadPng | scripts/pad-pwa-icons.py:59-165 | the whole reader, errors included |
| PngScript.BuildStream | scripts/pad-pwa-icons.py:175-180 | the scanline loop of the writer |
| PngPadding.SampleHoldsCentre | scripts/pad-pwa-icons.py:204-208 | each target pixel takes the source pixel under its centre |
| PngPadding.SampleMonotone | scripts/pad-pwa-icons.py:204-208 | in order |
| PngPadding.FullSizeUnchanged | scripts/pad-pwa-icons.py:198-209 | at full size the picture is unchanged |
| PngPadding.PaddedPixels | scripts/pad-pwa-icons.py:192-209 | the two loops: the shrunken picture in the middle, the rest clear |
| JsonText.QuoteUnique | src/agent-runtime/history.ts:134 | a quoted string ends where it ends: its text and what follows are determined |
| JsonText.PieceUnique | src/agent-runtime/history.ts:134 | the escapes form a prefix code, lone surrogates included |
| CanonicalLaws.PrintUnique | src/agent-runtime/history.ts:133-141 | unique readability: what follows a value is never part of it |
| CanonicalLaws.PrintInjective | src/agent-runtime/history.ts:133-141 | equal texts come from equal trees |
| CanonicalEquality.SortedUnique | src/agent-runtime/history.ts:138 | without ties there is one sorted arrangement of the members |
| CanonicalEquality.PrintsAlikeMeansSame | src/agent-runtime/history.ts:133-141 | values that print alike are equal up to member order, whatever the comparator |
| CanonicalEquality.PrintsAlikeExactly | src/agent-runtime/history.ts:133-141 | with a comparator that never ties different names: print alike if and only if equal up to member order |
| CanonicalEquality.TiesShow | src/agent-runtime/history.ts:138 | two names that tie make two equal objects print differently |
| CanonicalEquality.CanonicalExactly | src/core/output-render-sequence.ts:535-545 | the text is canonical for all values if and only if the comparator ties no two different names |
| JsonReading.CharsRead | src/agent-runtime/history.ts:134 | an independent reader of JSON strings gives back every string that was printed, escapes and lone surrogates included |
| JsonReading.ValueReads | src/agent-runtime/history.ts:133-141 | an independent reader of JSON texts after RFC 8259 gives back every printed tree and what follows it |
| JsonReading.SignatureReads | src/agent-runtime/history.ts:133-141 | a signature is a JSON text that says the value: every defined member once, in the order of the names |
| HistoryDigest.LeftOutExactly | src/agent-runtime/history.ts:128-131 | the member "sequence" is left out and no other |
| HistoryDigest.FeedHash | src/agent-runtime/history.ts:119-126 | what the digest loop feeds to the hash |
| HistoryDigest.StreamMeansSame | src/agent-runtime/history.ts:119-131 | two histories that feed it the same stream agree entry by entry up to `sequence` and member order, whatever the comparator |
| HistoryDigest.StreamExactly | src/agent-runtime/history.ts:119-131 | without ties two histories feed it the same stream if and only if their entries agree one by one up to `sequence` and member order |

## Left out

- SQL, file system, Docker, HTTP, OAuth, command line and user interface: input and output around the modelled logic.
- Timers, promises, abort signals and clocks: they are steps that may happen at any point, and readings of the time are arguments; lengths of delays (`retryDelay`, `maxWaitMs`) are not modelled.
- Listeners, `emit`, `run`, `onSuccess` and other callbacks do not re-enter the object that calls them.
- RetrySpec.Settle: the end of an attempt and the `finally` of its promise are one step, so a key enqueued again in the microtask between them is not modelled.
- ProviderRegistry.RuntimeCapacity: the pools it owns are values in a sequence and pool references are positions in it, so sharing of pool objects is by position; `starts` and the snapshots are not modelled.
- CapacityPool.FairCapacityPool: waiters and leases are numbered values instead of closures, and waiting times are not measured.
- DurableRetrySpec.ClaimStep: workers may try to claim any job at any time; the local bookkeeping that makes them try less often (`pending`, `blockedDurableJobs`, recovery batches) is not modelled, nor are job expiry dates, priorities and callers that pass no claim token.
- DurableWorker.DurableAttempt: payloads are texts that always parse; a malformed envelope is the quarantine step, and `updatePayload` called after its run has ended is not modelled.
- SequencerSpec.Position: a durable high-water store is the answers it gives, with positions never below the minimum asked for; its own tables are not part of this model, and event payloads and fingerprints are given texts.
- JsNumber.ToNumber: positions, indices and ordinals are whole numbers rounded as doubles are, without infinity; fractions are not modelled.
- SequencerSpec.ToolKey: the JSON text of a pair, here and in `PartKey`, is replaced by another text that is as unambiguous (`ToolCountersApart`, `PartCountersApart`).
- SequencerRuns.PositionTwice: uniqueness of part indices and tool ordinals against state already trimmed is not claimed, as the code forgets it by design.
- PortableHistory.Measures: byte lengths and the cut of `boundedText` are given functions; reading, redacting and sorting the history's rows happen before the model's input.
- PngImage.Read: zlib and CRC are given functions; the reader never looks at the CRC.
- PngPadding.PaddedPixels: target sizes are whole numbers, so the rounding of size times scale is left to the caller.
- CanonicalJson.Canon: members are turned into their printed form before sorting instead of after, which the sort by name cannot tell; numbers are the texts JavaScript prints, SHA-256 is not modelled.
- TurnSpec.Process: run reminders, usage targets and what a runtime does inside a prompt are left out; turns without an event id number no blocks.
- `GatewayWorkAdmissionController`, context guard, settings and capability validators, resource reports: easier relatives of what is modelled.
