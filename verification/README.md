# durare, verified

A Dafny model of durare, a durable-execution engine: workflows issue numbered
durable operations, each outcome is checkpointed once in a store, and after a
crash the workflow body is replayed against those checkpoints. The model covers
the in-memory store, the execution of workflow bodies over it, transactional
steps, the queue dispatcher, and the protocols built on top (messages, streams,
schedules, garbage collection, debouncing).

| file | models |
|---|---|
| `Types.dfy`, `Store.dfy`, `Lineage.dfy` | rows, the store as a value, every provider call as a function on it, the claim order, descendants |
| `MemoryProvider.dfy` | the in-memory provider as a class whose methods are proved against those functions |
| `Claims.dfy` | what one dequeue claims |
| `StoreRuns.dfy`, `StoreTheorems.dfy`, `RateLimit.dfy`, `Dispatch.dfy` | runs of provider calls: cancellation, hand-outs, delays, outcomes, deduplication slots, the rate limit, the concurrency caps |
| `Replay.dfy`, `Rows.dfy`, `Execution.dfy`, `ReplayTheorems.dfy`, `Origins.dfy`, `Agreement.dfy`, `Races.dfy`, `ReplayLimits.dfy` | bodies, the log, executions as a machine with one event per provider call, crashes and everybody else in between |
| `Context.dfy` | the workflow context as a class over the provider, and an execution through it |
| `Fork.dfy`, `Patch.dfy`, `Mailbox.dfy` | forks, patches, receiving in order, keyed sends |
| `Transactions.dfy` | the nested retry loops of a transactional step |
| `Streams.dfy`, `GarbageCollection.dfy`, `Schedules.dfy`, `Debounce.dfy` | the protocols |

`dafny verify dfyconfig.toml` checks everything. Nothing was executed: clocks,
random ids, the outcomes of user closures and the order of events are arguments
of the model, and every theorem is about all of them.

How the executions are modelled. A body is a function from what it has observed
to its next operation. What it may branch on is a *view*: success values, that
something failed (not how), and received values, where a null counts as nothing.
`Path` says that a list of observations is what a log dictates, `Written` that
every row of a log was written by the body, and the machine in `Execution.dfy`
splits each operation into its provider calls: read the log, check the status,
run the closure, record, poll, fix the deadline, look at the clock.

Where the code and its documentation or the obvious expectation differ, the model
follows the code, and the lemma named here says what holds:

- A failed step returns its own error even when another failure is stored, a typed
  error replays as its text, a null message or event replays as none, and a
  timeout does not look at a row stored meanwhile (`ReplayLimits.LiveEqualsLater`
  gives the exact cases, `Races.ReceiveRacesTimeout` a run).
- The transaction method's documentation says that a body error makes the step
  run again on replay; the code records the final error and never retries it
  (`Transactions.RecordedIsFinal`).
- A commit whose acknowledgement is lost is retried, which commits the body's
  writes twice (`Transactions.ExecutionsExactlyOnceIff`, `Transactions.UnheardCommitRepeats`);
  over a row without outcome, such as a patch marker, every execution commits
  again (`Transactions.BlankRowRepeats`).
- Of two executions that wait for a message at once, the second to receive
  consumes a message that no row ever holds (`Races.ReceiveRacesReceive`;
  `Mailbox.FifoReceiveIff` says exactly when delivery is kept).
- Cancelling a workflow takes its start off the rate-limit record, so a window can
  hold more starts than the limit (`RateLimit.CancelledRunExceedsLimit`), and resuming a queued row bypasses the global
  cap (`Dispatch.ResumeKeepsCapIff`).
- Keyed sends can share a row although no key or id contains the separator
  (`KeyedSend.ColonKeysCollide`; `KeyedSend.KeyedUuidsEqual` says exactly when).
- A patch point in the middle of an interrupted wait misaligns the log
  (`PatchAlignment.PatchedFitsIff`).
- A stream reader ends after an inactive status, but values can still come: a
  delayed producer counts as inactive, and so does a cancelled one whose write was
  past its status check (src/context.rs:1254-1282; the store itself does not check
  on append). Both readers end without them (`Streams.InactiveProducerMissed`).
- The debounce cap counts from the collector's start, not from the first call
  (`Debounce.WithinTimeoutOfFirstCallIff`, `Debounce.LateStartExceedsCap`).
- Automatic backfill begins strictly after the last fired tick plus one second
  (`CronTicks.AutomaticBackfill`).
- Export does not end if the root is its own ancestor
  (`MemoryProvider.ExportNeverEndsOnCycle`).
- In the in-memory provider, resume and cancel refuse rows that exceeded their
  recovery attempts, dequeue always orders by priority, and delete leaves events
  behind; the model does the same.

## Model

| member | source | states |
|---|---|---|
| `ClaimOrder.SmallestIsSmallest` | src/memory.rs:278-291 | the first n in claim order are sorted, are n or all, and nothing left over precedes one of them |
| `ClaimOrder.SmallestUnique` | src/memory.rs:278-291 | any list with that property is that list, so the order of claims is determined |
| `ClaimOrder.StringLessIff` | src/memory.rs:288-289 | one id is smaller than another if and only if, where the two part, it ends or has the smaller character |
| `MemoryProvider.FindLeast` | src/memory.rs:278-289 | finds the least key by priority, creation time and id |
| `MemoryProvider.SortKeys` | src/memory.rs:278-289 | sorts the candidates: same elements, strictly increasing |
| `MemoryProvider.TruncatedSortIsSmallest` | src/memory.rs:278-291 | sorting and truncating gives the n smallest |
| `MemoryProvider.ReleaseDue` | src/memory.rs:310-322 | exactly the delayed rows whose time is not after now become enqueued, the others stay, and the number is returned |
| `MemoryProvider.OrderCandidates` | src/memory.rs:266-291 | the rows to claim are the smallest of the eligible ones within the budget; on the rows' fields, each goes before the next and before every claimable row left out |
| `MemoryProvider.ClaimLoop` | src/memory.rs:292-307 | claims exactly the chosen rows and returns them in order |
| `MemoryProvider.RetainNotes` | src/memory.rs:842-847 | removes exactly the messages to a deleted workflow, in order |
| `MemoryProvider.InMemoryProvider.constructor` | src/memory.rs:74-79 | a new provider is empty |
| `MemoryProvider.InMemoryProvider.InsertWorkflowStatus` | src/memory.rs:85-106 | refused if and only if another row has the same queue and deduplication id; otherwise the stored row and whether this call created it, and nothing else changes |
| `MemoryProvider.InMemoryProvider.GetDeduplicatedWorkflow` | src/memory.rs:108-121 | returns a holder of the slot if and only if there is one |
| `MemoryProvider.InMemoryProvider.SetWorkflowStatus` | src/memory.rs:128-160 | sets the status, replaces output and error if given, stamps and frees the slot on a final status; refuses exactly a completion of a cancelled workflow, and then changes nothing |
| `MemoryProvider.InMemoryProvider.CancelWorkflow` | src/memory.rs:735-749 | a workflow in none of the four final statuses becomes cancelled and leaves its queue, slot and start; afterwards it is over in any case |
| `MemoryProvider.InMemoryProvider.ResumeWorkflow` | src/memory.rs:751-767 | makes pending exactly a workflow that is cancelled or not over, without slot, start and deadline, and says whether it did |
| `MemoryProvider.InMemoryProvider.EnqueueExisting` | src/memory.rs:769-779 | the workflow is enqueued, unowned, on the given queue |
| `MemoryProvider.InMemoryProvider.SetWorkflowDelay` | src/memory.rs:851-861 | reschedules exactly a delayed workflow, and says whether it did |
| `MemoryProvider.InMemoryProvider.BumpRecoveryAttempts` | src/memory.rs:911-924 | counts one more attempt and returns the count, zero for no workflow; beyond the maximum the workflow is parked and its slot freed |
| `MemoryProvider.InMemoryProvider.TransitionDelayedWorkflows` | src/memory.rs:310-322 | promotes due rows in the store and counts them |
| `MemoryProvider.InMemoryProvider.LatestVersion` | src/memory.rs:1185-1191 | the version with the greatest time stamp, if any |
| `MemoryProvider.InMemoryProvider.CreateVersion` | src/memory.rs:1164-1176 | registers an unknown version with the time; a known one keeps its own |
| `MemoryProvider.InMemoryProvider.SetLatestVersion` | src/memory.rs:1193-1202 | stamps a known version anew, which makes it a latest one unless another has a later time |
| `MemoryProvider.InMemoryProvider.ClaimBudget` | src/memory.rs:218-264 | the rows within it are exactly those within the request, the rate limit counted over the period and the concurrency limit |
| `MemoryProvider.InMemoryProvider.DequeueWorkflows` | src/memory.rs:217-308 | the rows returned are claimable, within the limits, in order of priority, creation and id, each started with executor, version, time and deadline; a claimable row is left only behind all of them and if there was no room for one more; nothing else changes |
| `MemoryProvider.InMemoryProvider.RecordStepRow` | src/memory.rs:172-200 | write-once: an existing row stays, and the stored row is returned |
| `MemoryProvider.InMemoryProvider.InsertNotification` | src/memory.rs:337-371 | refuses an unknown destination, drops a repeated keyed send, otherwise appends the message |
| `MemoryProvider.InMemoryProvider.ConsumeNotification` | src/memory.rs:373-406 | takes the first of the oldest waiting messages, marks it consumed and checkpoints it, or answers the row that is there; nothing happens if and only if none waits |
| `MemoryProvider.InMemoryProvider.AppendStream` | src/memory.rs:998-1015 | appends unless the stream is closed |
| `MemoryProvider.InMemoryProvider.DeleteWorkflows` | src/memory.rs:823-849 | of exactly the given workflows, or with all their descendants, the rows, checkpoints, streams and messages are gone; events and everything of the others stay |
| `MemoryProvider.InMemoryProvider.ForkWorkflow` | src/memory.rs:863-909 | a new enqueued row with the original's workflow and input and otherwise fresh, the original's checkpoints below the start step, and no other row touched |
| `MemoryProvider.CollectDescendants` | src/memory.rs:823-841 | the growing worklist ends, also on cyclic parent links, and lists exactly the reflexive-transitive descendants |
| `MemoryProvider.ExportIds` | src/memory.rs:1221-1245 | without a cycle through the root the stack lists each descendant exactly once |
| `MemoryProvider.ExportNeverEndsOnCycle` | src/memory.rs:1221-1245 | with one, after any number of turns there is something left on the stack |
| `Lineage.ClosedIsDescendants` | src/memory.rs:823-841 | a set of descendants that holds the roots and all children of its members is the set of all descendants |
| `StoreTheorems.CancellationWins` | src/memory.rs:128-160 | in every run a cancelled row is found completed only if a call that lifts cancellation (resume, enqueue, requeue, park, replacement) came in between |
| `Claims.ClaimCorrectness` | src/memory.rs:217-308 | a dequeue takes min(budget, eligible) distinct eligible rows, in order, and passes none over |
| `Claims.ClaimedInOrder` | src/memory.rs:266-291 | on the rows' own fields: every row handed out is claimable and goes after the ones before it by priority, creation millisecond and id |
| `Claims.PassedOver` | src/memory.rs:266-291 | a claimable row is left only if every row handed out goes before it, and one more would be beyond the limits |
| `Claims.ClaimedWithinLimits` | src/memory.rs:218-264 | no more rows are handed out than the request, its rate limit and its concurrency limit allow, each once |
| `Claims.EligibleOnRows` | src/memory.rs:268-287 | which rows are claimable: status, queue, partition, and the version gate with its two exceptions |
| `Claims.DequeueIsClaim` | src/memory.rs:217-308 | these together, of the rows the provider returns |
| `StoreTheorems.HandedOnce` | src/memory.rs:217-308 | no row is handed to two callers without a requeue in between |
| `StoreTheorems.DelayEndsIff` | src/memory.rs:310-322 | which calls end a delay; the promotion does if and only if the row's time has come |
| `StoreTheorems.DelayedUntilReleased` | src/memory.rs:310-322 | in every run a delayed row that is no longer delayed was released by such a call in between |
| `StoreTheorems.ResultIsLastGiven` | src/memory.rs:128-160 | in every run the output or error a workflow is found with is the one that the last call that gave it one, and was not refused, gave it |
| `StoreTheorems.DeduplicationSlot` | src/memory.rs:85-121 | in every run at most one row holds a (queue, deduplication id), and no terminal row holds one |
| `StoreTheorems.ResumedHoldsNoSlot` | src/memory.rs:751-779 | after a resume the row holds no slot until it is deleted, so re-enqueueing it is safe |
| `StoreTheorems.EnqueueExistingKeepsSlots` | src/memory.rs:769-779 | re-enqueueing keeps slots unique if and only if the row holds none or nobody else holds it on the new queue |
| `StoreTheorems.DeleteBetweenResumeAndEnqueueBreaksSlots` | src/memory.rs:751-779 | what a deletion between resume and re-enqueue allows |
| `RateLimit.RateLimitHolds` | src/memory.rs:218-246 | in every run in which the starts on record stay on record, every window of the period, wherever it starts, holds at most the limit of starts, also with clocks read out of order |
| `RateLimit.KeepsStartsExactly` | src/memory.rs:292-307 | a call other than a claim is admitted there if and only if every start on record stays on record: cancelling, resuming, requeueing, deleting or replacing a row that is not on record is |
| `RateLimit.ClaimWithinLimit` | src/memory.rs:218-246 | a governed request claims no more than its window has room for |
| `RateLimit.CancelFreesTheWindow` | src/memory.rs:735-749 | a cancellation in a full window lets one more be claimed |
| `RateLimit.CancelledRunExceedsLimit` | src/memory.rs:735-749 | from any queue with more to claim than its limit: claim, cancel one, claim is a run with a window of more starts than the limit |
| `Dispatch.ConcurrencyCaps` | src/engine.rs:2525-2650 | in every interleaving of loading counters, claiming, spawning, finishing, lost processes and calls that make no further row of the queue pending: pending rows per scope within the global cap, running counters equal to the running tasks and within the worker cap |
| `Dispatch.InvRun` | src/engine.rs:2525-2650 | the invariant behind it, over every run |
| `Dispatch.OutsideExactly` | src/memory.rs:248-264 | a call other than a claim is admitted there if and only if it makes no further row of the queue pending |
| `Dispatch.TurnBeginsIff` | src/engine.rs:2564-2583 | a turn for a partition begins if and only if the process has room there |
| `Dispatch.TurnTakesAll` | src/engine.rs:2564-2597 | a turn leaves a claimable row only if one more would be beyond the process's room, the rate limit or the concurrency limit |
| `Dispatch.ClaimedForProcess` | src/engine.rs:2584-2597 | what a process claims is of its queue and partition, and pending with its own id and version |
| `Dispatch.ClaimedIsSpawnedOrReleased` | src/engine.rs:2598-2641 | each claimed row becomes a task under its slot, or is put back on the queue with everything else as it was |
| `Dispatch.ResumeKeepsCapIff` | src/memory.rs:751-767 | after a resume a cap that held still holds if and only if the row is out of scope, was pending anyway, or the scope was not full |
| `Replay.PathsAgree` | src/context.rs:706-737 | through one log there is one path: of any two, one continues the other |
| `Replay.NextRowIsMine` | src/context.rs:706-737 | in a log the body wrote, the row under the next number is the next operation's, and a wait's holds no error |
| `Replay.DeadlineRowIsMine` | src/context.rs:864-898 | the row after a wait's own number is its deadline |
| `Execution.InvStep` | src/context.rs:444-523 | every event of any number of executions, a crash, a restart and whatever others do keep: executions on the log's path, the log the body's own, no divergence; a timeout over a recorded value excepted |
| `Execution.LookKeeps` | src/context.rs:706-737 | replaying a row stays on the path |
| `Execution.RecordKeeps` | src/context.rs:743-786 | recording, with or without a faster writer, returns to the view what the log then holds (what that is: `Origins.RecordGives`) |
| `Execution.PollKeeps` | src/context.rs:1054-1107 | consuming a message or finding an event keeps the invariant, also if a faster execution has recorded one |
| `Execution.FoundKeeps` | src/context.rs:1184-1197 | so does recording an event |
| `Execution.MarkKeeps` | src/context.rs:253-271 | and a patch marker: under its number nothing but the marker can have been recorded meanwhile |
| `Execution.ExpireKeepsIff` | src/context.rs:1083-1094 | a timeout does if and only if no value is recorded under its number |
| `Execution.DeadlineRead` | src/context.rs:864-898 | a wait reads back its own recorded deadline, or goes on to fix one if none is recorded; it never meets a foreign row |
| `ReplayTheorems.ExecutionsAgree` | src/context.rs:444-523 | over all runs of any number of executions of any body without late timeouts: no execution meets a foreign row; any two executions, at any two moments, asked for the same operations and saw the same wherever both have been; those that finish return the same |
| `Origins.RowHasOrigin` | src/context.rs:743-786 | in every run of any number of executions, with crashes, late timeouts and cancellations: every row recorded in it holds, field by field, what an event of the run brought about: the value or error text the closure returned, the value drawn, the wake-up time, the next message waiting, the event's value, a timeout's null, a marker; or it is a deadline, the clock when it was fixed plus the timeout |
| `Origins.ObservationHasOrigin` | src/context.rs:706-786 | whatever an execution observes at a number not recorded before, an event of an execution at the same operation and number brought about: a step's value is one its closure returned, a message one that was next, an event's value one it had |
| `Origins.TimesOutInTime` | src/context.rs:864-898 | in every run, however often it is executed again, a wait times out no earlier than its timeout after an execution at the same operation fixed the deadline |
| `Origins.RecordGives` | src/context.rs:743-755 | under a free number the row recorded is the outcome of the work, and the body gets exactly that outcome |
| `Origins.LookGives` | src/context.rs:706-737 | a lookup returns the value, the error text or nothing, as the row holds it; reports a foreign row; or goes on, over the status check for steps and waits only |
| `Origins.RefusalGives` | src/context.rs:726-736 | the step or wait of a cancelled workflow is refused with nothing recorded |
| `Agreement.AgreementIff` | src/context.rs:1083-1094 | in every run that is never cancelled, all executions agree at all moments if and only if no wait times out over a recorded value |
| `ReplayTheorems.StaysWithLogIff` | src/context.rs:1083-1094 | the same for staying with the log; with one execution at a time no such timeout comes |
| `Races.ReceiveRacesTimeout` | src/context.rs:1054-1107 | for every timeout, a run of two executions, one of which receives a message while the other times out, after which they disagree |
| `Races.ReceiveRacesReceive` | src/memory.rs:373-406 | a run of two executions that both receive, after which both messages are consumed and no row holds the second |
| `Agreement.StartsBalance` | src/context.rs:444-466 | in every run of any number of executions, cancelled or not: a closure was started exactly as often as it was lost to a crash, is in flight, or had its outcome recorded |
| `ReplayTheorems.ClosureRuns` | src/context.rs:444-466 | one execution at a time: a closure is started at most once plus once per crash between its start and its checkpoint |
| `ReplayTheorems.RecordedNotRerun` | src/context.rs:706-737 | one execution at a time: once its outcome is recorded a closure is never started again |
| `ReplayTheorems.RecordedWasRun` | src/context.rs:444-466 | a step recorded since the beginning of a run had its closure started in that run |
| `ReplayTheorems.LogGrows` | src/memory.rs:172-200 | recorded rows never change |
| `ReplayTheorems.TimeoutsKeepDeadline` | src/context.rs:1076-1095 | in every run, crashes included, a wait times out only once the clock has reached its recorded deadline, and that row is the one first recorded: a restart does not extend it |
| `ReplayLimits.LiveEqualsLater` | src/context.rs:766-786 | what an operation returned live equals what it replays to, if and only if: the error was an application error or the stored one, the value was not null, nobody was faster on a timeout or a marker |
| `ReplayLimits.CallsKeepLog` | src/memory.rs:172-200 | every provider call but a record, receive, deletion or fork for this workflow leaves its log alone |
| `ReplayLimits.CancelledCompletions` | src/context.rs:726-736 | while cancelled, an execution completes at most one guarded operation, and only if it was past its status check when the cancellation came |
| `Context.RunWithRetries` | src/context.rs:790-824 | stops at the first attempt that succeeds, fails with an error not to be retried, or is the last the budget allows |
| `Context.DurableContext.constructor` | src/context.rs:198-200 | the counter starts at zero |
| `Context.DurableContext.ReplayOrGuard` | src/context.rs:706-737 | serves a recorded row, reports a foreign one, refuses a cancelled workflow, and otherwise lets the caller proceed |
| `Context.DurableContext.Step` | src/context.rs:499-523 | one number; a recorded row changes nothing; on a free number it returns exactly what the final attempt returned, and that is what its row holds |
| `Context.DurableContext.DurableValue` | src/context.rs:950-985 | the same for clock readings, random values and wake-up times: the given value is recorded and returned; no status check |
| `Context.DurableContext.CallPatch` | src/context.rs:249-271 | patched if and only if there is no row or it is the marker's; then, and only then, it takes a number, and a free one holds the marker |
| `Context.DurableContext.DurableWakeAt` | src/context.rs:864-898 | the deadline is fixed once, as now plus the timeout, and read back thereafter |
| `Context.DurableContext.CheckDeadline` | src/context.rs:1076-1095 | from the recorded deadline on the wait ends with a null row recorded; before it, it goes on |
| `Context.DurableContext.PollOnce` | src/context.rs:1067-1074 | finds the next message or the event's value, after what arrived, and records it; or there is none, and no row changes |
| `Context.DurableContext.Wait` | src/context.rs:1169-1228 | two numbers; on a free one, it returns what the first look that finds something finds, or times out at the first look past the deadline if none did; the deadline is the first look's time plus the timeout |
| `Context.DurableContext.Perform` | src/context.rs:198-200 | every operation advances the counter by its width and adds rows only under its own numbers |
| `Context.DurableContext.NextOperation` | src/context.rs:444-466 | the result of an operation extends the path through the log, and on a free number is what the inputs say |
| `Context.DurableContext.Execute` | src/context.rs:444-523 | executing a body replays any path already recorded with the same observations and without touching the store; every observation at a free number follows from the inputs; a finished workflow is executed again without any effect |
| `Context.SameResult` | src/context.rs:444-523 | a workflow that finished once finishes the same way on any later log |
| `ForkReplay.ForkLog` | src/memory.rs:898-907 | which rows a copy has: the original's below the start step, and those the id had before |
| `ForkReplay.RerunsFromStart` | src/memory.rs:863-909 | in every run of the copy a step recorded at or above the start step had its closure started by the copy |
| `ForkReplay.ForkIsReplayable` | src/memory.rs:863-909 | a fork under a fresh id leaves the original's log alone, and its own log is one the body wrote |
| `ForkReplay.ForkReplaysOriginal` | src/memory.rs:863-909 | in every run of the copy every execution sees the original's outcome at each recorded number below the start step, and none meets a foreign row |
| `PatchAlignment.PatchedFitsIff` | src/context.rs:249-271 | a log of the old code fits the patched code if and only if no wait was interrupted at a patch point |
| `PatchAlignment.RetracesOldPath` | src/context.rs:249-271 | on an old log the patched code takes the old branch and the old numbers |
| `PatchAlignment.PatchAligned` | src/context.rs:249-271 | in every run that begins with an old log: no foreign row, all executions decide alike at all moments, and for the old path wherever the old code had recorded something |
| `PatchAlignment.MarkTakesNumber` | src/memory.rs:985-996 | at a free number the marker is recorded and takes it |
| `PatchAlignment.InterruptedWaitDiverges` | src/context.rs:249-271 | after looking up and marking a patch point over a half-done wait, the next operation meets a foreign row if and only if its name is not that of the deadline |
| `Mailbox.OldestIsFirst` | src/memory.rs:383-390 | if no message that waits is older than the first, the search picks the first |
| `Mailbox.ReceivesFirstIff` | src/memory.rs:383-390 | a receive takes the first message that waits if and only if no message that waits carries an earlier time |
| `Mailbox.ReceiveDeliversIff` | src/memory.rs:373-406 | a receive keeps delivery exactly-once and in order if and only if it finds its number free, or its row, by chance, already holds this very message under a number not yet used by a receive |
| `Mailbox.FifoReceiveIff` | src/context.rs:1054-1107 | in every run of any number of executions, with any crashes: at all moments the messages held by the rows of the receives, in step order, are the next ones sent without gap or repeat, and exactly they are consumed, if and only if every receive does so |
| `Mailbox.FifoReceive` | src/context.rs:1054-1107 | so it is with one execution at a time, and with any number of them whose receives find their numbers free |
| `Mailbox.CallsOnlySend` | src/memory.rs:337-371 | every other provider call leaves a mailbox alone or appends to it |
| `KeyedSend.KeyedSendOnce` | src/memory.rs:337-371 | in every run a key and destination have at most one row |
| `KeyedSend.KeyedUuidsEqual` | src/memory.rs:351-354 | two keyed sends share a row if and only if they are the same or the separator overlaps |
| `KeyedSend.CleanKeysDistinct` | src/memory.rs:351-354 | keys without separator that do not end in a colon never collide |
| `KeyedSend.ColonKeysCollide` | src/memory.rs:351-354 | a key that ends in a colon collides |
| `KeyedSend.SameDestinationDistinct` | src/memory.rs:351-354 | to one destination different keys never collide |
| `Transactions.Database.RunTransactionStep` | src/postgres.rs:684-852 | the nested conflict and retry loops compute the step's function; a recorded outcome is answered as recorded, one of another step is reported, and nothing changes |
| `Transactions.FirstExecution` | src/postgres.rs:737-852 | one execution on a free slot: what it answers is what it recorded, and without a record there is no effect |
| `Transactions.RecordedIsFinal` | src/postgres.rs:701-732 | a recorded outcome is final: nothing runs, and the answer is the recorded value, the recorded error, or that it is another step's |
| `Transactions.AnsweredOnce` | src/postgres.rs:684-852 | over every sequence of executions without unheard commits, once one has returned or raised, every later one gives the same answer and changes nothing |
| `Transactions.TransactionsExactlyOnce` | src/postgres.rs:684-852 | over every sequence of executions with conflicts, errors, retries and crashes the writes are committed once if a success is recorded and not at all otherwise |
| `Transactions.AnswersByLastAttempt` | src/postgres.rs:737-852 | an execution answers by the first attempt after which it does not go on, and crashes if there is none |
| `Transactions.RowOfFirstRecord` | src/postgres.rs:781-815 | the row is that of the first attempt reached that leaves one |
| `Transactions.AnswerStaysIff` | src/postgres.rs:684-852 | a later execution gives the same answer if and only if those two attempts say the same |
| `Transactions.ExactlyOnceIff` | src/postgres.rs:781-815 | one execution is exactly-once if and only if no unheard commit is followed by a commit the step goes on to, stated on the attempts |
| `Transactions.ExecutionsExactlyOnceIff` | src/postgres.rs:684-852 | any sequence of executions is if and only if the first that leaves a row does not commit again after an unheard commit |
| `Transactions.UnheardCommitRepeats` | src/postgres.rs:804-815 | the doubled effect, and the error reported over a recorded success |
| `Transactions.BlankRowRepeats` | src/postgres.rs:709-732 | over a row without outcome every execution commits again |
| `Transactions.ConflictsAreFree` | src/postgres.rs:804-815 | conflicts that are waited out change neither answer nor table nor the retry budget |
| `Transactions.BudgetIsSpent` | src/tx.rs:440-444 | a body that keeps failing runs once plus once per retry allowed, and its last error is recorded |
| `Transactions.RejectedErrorEnds` | src/tx.rs:440-444 | an error the predicate rejects ends the step at once |
| `Streams.ReadStream` | src/memory.rs:1017-1038 | the values from an offset up to the close sentinel, and whether it was reached |
| `Streams.ValuesAre` | src/memory.rs:1017-1038 | the values are the entries, one by one, up to the first sentinel |
| `Streams.WritesAppend` | src/memory.rs:998-1015 | the store's writes only append, and nothing after a close |
| `Streams.DrainStream` | src/provider.rs:259-301 | returns the values at its last read, and stops only if that was closed or came after an inactive status; they are the whole stream if and only if no value came after that read, and always if nothing is appended after an inactive status |
| `Streams.DrainsAfterOpen` | src/provider.rs:277-297 | what draining comes to, case by case, after any number of reads that found the stream open and the producer pending or enqueued |
| `Streams.OpenIsUnfinished` | src/provider.rs:285-293 | neither reader ends while the stream is open and the producer pending or enqueued |
| `Streams.EndsWhenNotAtWork` | src/provider.rs:285-293 | both end, with the whole stream, once the producer stays succeeded, failed, cancelled, parked or delayed and writes no more |
| `Streams.StreamReader.constructor` | src/provider.rs:355-363 | the reader starts at the beginning |
| `Streams.StreamReader.ReadBatch` | src/provider.rs:380-396 | what was handed out and buffered is what the stream held at the read |
| `Streams.StreamReader.CheckProducer` | src/provider.rs:402-416 | a missing workflow ends the stream; exactly an inactive producer starts the final pass |
| `Streams.StreamReader.HandOut` | src/provider.rs:370-379 | the first buffered value is handed out |
| `Streams.StreamReader.Pull` | src/provider.rs:365-419 | hands out the next value on the way to the expected outcome, or is at that outcome: everything handed out, workflow missing, or not finished |
| `Streams.Collect` | src/provider.rs:332-420 | the values handed out, taken together, are the outcome of reading the history; complete ones are those at the last read, under the same stopping rule, and are the whole stream under the same conditions |
| `Streams.ClosedIsRead` | src/provider.rs:380-400 | a reader finishes once the stream is closed and three moments are left |
| `Streams.InactiveIsRead` | src/provider.rs:380-416 | and once the producer stays inactive and five are left |
| `Streams.ReadersAgree` | src/provider.rs:259-420 | over one history in which nothing is appended after an inactive status, both readers, if they finish, return the same: the whole stream |
| `Streams.InactiveProducerMissed` | src/provider.rs:285-293 | otherwise, for every inactive status and any unclosed stream, a history over which both readers end without the producer's later value |
| `GarbageCollection.ResolveCutoff` | src/provider.rs:167-200 | the newer bound; an error if and only if the threshold is not positive |
| `GarbageCollection.CutoffUnique` | src/memory.rs:497-506 | the bound does not depend on how equal creation times are ordered |
| `GarbageCollection.ListNewestFirst` | src/memory.rs:497-500 | lists every row once, newest first |
| `GarbageCollection.SameVictims` | src/postgres.rs:1420-1432 | the rows the default lists are the rows of the SQL statement |
| `GarbageCollection.ThresholdKeepsNewest` | src/provider.rs:167-200 | every deleted row has at least N strictly newer rows, which stay |
| `GarbageCollection.ThresholdSurvivors` | src/provider.rs:167-200 | at least N rows survive, or all |
| `GarbageCollection.GarbageCollect` | src/provider.rs:1425-1453 | deletes exactly the rows of the SQL statement and returns their number |
| `CronTicks.CronTicksBetween` | src/engine.rs:2816-2833 | ends, with exactly the ticks strictly between the bounds, in order |
| `CronTicks.AutomaticBackfill` | src/engine.rs:2919-2932 | computes the ticks to catch up with; a missed tick is among them if and only if it is later than one second after the last |
| `CronTicks.TickIdDistinct` | src/engine.rs:2426 | with time stamps of one length an id belongs to one tick |
| `ScheduledTicks.LaunchedOnce` | src/engine.rs:2421-2467 | over every interleaving of executors, crashes and other calls a tick is directly launched at most once, plus once for every deletion of its own row |
| `ScheduledTicks.LaunchesBalance` | src/engine.rs:2421-2467 | over every such interleaving the direct runs created are exactly those launched, those dropped by a task that died and those still to be launched |
| `ScheduledTicks.RowVanishesIff` | src/memory.rs:823-849 | a row vanishes by a call if and only if that call deletes its id |
| `ScheduledTicks.DeletedTickRelaunches` | src/engine.rs:2446-2467 | a deletion of its row is enough for a second launch |
| `ScheduleReconciler.Reconciler.constructor` | src/engine.rs:2865 | nothing is installed at first |
| `ScheduleReconciler.Reconciler.RetireUnwanted` | src/engine.rs:2901-2910 | exactly the loops of wanted schedules stay |
| `ScheduleReconciler.Reconciler.InstallMissing` | src/engine.rs:2912-2947 | every wanted name without a loop gets one, the others keep theirs |
| `ScheduleReconciler.Reconciler.Reconcile` | src/engine.rs:2875-2947 | after a pass exactly the wanted names, persisted or not shadowed, have a running loop, of a wanted schedule |
| `ScheduleReconciler.Reconciler.Shutdown` | src/engine.rs:2868-2873 | every loop is told to stop |
| `ScheduleReconciler.Reconciler.OneLoopPerName` | src/engine.rs:2860-2951 | no name has two running loops |
| `Debounce.CollectInputs` | src/debounce.rs:112-153 | the input and delay are those of the last message taken, or the initial ones, the time counts from when it was taken and is capped, and the loop ends only when time is up or no message comes |
| `Debounce.InvRun` | src/debounce.rs:228-288 | the invariant of producers and collectors over every run |
| `Debounce.Coalesces` | src/debounce.rs:112-160 | a returned target is started at most once, with the last accepted input; the producer's input was the initial one or was accepted; the time is capped |
| `Debounce.CollectorRunsLoop` | src/debounce.rs:112-153 | in every run every collector has taken its messages in turns of that loop, at times it read before the time then scheduled |
| `Debounce.LastPushWins` | src/debounce.rs:112-160 | so its input, its target time and the input its target runs with are those of the last push, capped |
| `Debounce.TakenInOrder` | src/debounce.rs:126-153 | in every run what a collector has taken and what waits for it are, in this order, the messages sent to it |
| `Debounce.TakenOnce` | src/debounce.rs:126-153 | each message is taken at most once |
| `Debounce.CollectorWasCalled` | src/debounce.rs:228-288 | a collector has the input, delay and time of the call of the producer that enqueued it |
| `Debounce.MessageWasCalled` | src/debounce.rs:228-288 | every message carries the input and delay of a call |
| `Debounce.LaunchesWhenDue` | src/debounce.rs:126-160 | a collector starts its target only after it read a time at or past its target time, or nothing came |
| `Debounce.AcceptedBeforeStart` | src/debounce.rs:126-160 | in every run, when a target starts, every producer ever handed its id has been counted already: its input is the initial one or its message has been taken |
| `Debounce.TargetsAreOwned` | src/debounce.rs:155-160 | every target that was started belongs to a collector |
| `Debounce.WithinTimeoutOfFirstCallIff` | src/debounce.rs:112-126 | in every run the target time is within the timeout of the first call if and only if the collector started no later than that call or the time asked for was within it |
| `Debounce.LateStartExceedsCap` | src/debounce.rs:112-126 | a run in which it is not |

## Left out

- `send`, `set_event`, `write_stream` and `start_workflow` inside a body: they check the log, do their effect and record it; the effect of an unrecorded one is repeated after a crash. `start_workflow` compares only with child rows.
- `deprecate_patch`: the counterpart of `patch`; it would only add an easy member.
- ReplayTheorems.ExecutionsAgree: with several executions at once, leaves out timeouts over a value recorded by another execution, because there the executions disagree (`Agreement.AgreementIff`, `Races.ReceiveRacesTimeout`).
- Execution.InvStep: does not cover a run in which the workflow is cancelled, because a refused operation returns an error that is not recorded; `ReplayLimits.CancelledCompletions` covers those.
- Mailbox.FifoReceive: takes the messages that wait in nondecreasing creation time, because the provider sorts by it (`Mailbox.ReceivesFirstIff`), and leaves out receives that find their number taken, because they consume a message they do not return (`Mailbox.FifoReceiveIff`, `Races.ReceiveRacesReceive`).
- RateLimit.RateLimitHolds: leaves out the calls that take a start off the record, because they free its window (`RateLimit.KeepsStartsExactly`, `RateLimit.CancelledRunExceedsLimit`).
- Dispatch.ConcurrencyCaps: leaves out the calls that make a further row of the queue pending, because they bypass the claim (`Dispatch.OutsideExactly`, `Dispatch.ResumeKeepsCapIff`).
- Batch cancel and batch resume: sequences of the single calls.
- Import, list filters, aggregates, the registries of queues and schedules, step time stamps, `updated_at`, authentication fields: bookkeeping without branching that the properties depend on.
- The shape of exported records; only which workflows are exported, and how often, is modelled.
- 32-bit and 64-bit overflow of counters and times: integers are unbounded.
- Decoding errors of stored values: values are opaque with a distinguished null.
- The envelope the portable format puts around an error: an error is recorded as its text, as the default format does.
- SQL text, connection pools and notifications of the Postgres backend: only the transactional step, with errors as conflict, transient or application, and the deletion of garbage collection.
- Sleeping, backoff durations and jitter: only that a wake-up time is recorded once, and the order of attempts.
- The cron library: an abstract least tick after an instant.
- HTTP, websocket and client wrappers, macros, examples.
