# nomad-firehose: verification model

nomad-firehose polls Nomad's list endpoints, hands every changed object to a sink, and keeps
its position in a Consul key so that the next leader can resume. This project models that
pipeline in Dafny and proves what it guarantees, and where its guarantees end.

| file | what it holds |
|---|---|
| `Cluster.dfy` | Nomad as an append-only log of commits; `Live(log, i)` is the list a client sees at index i |
| `Checkpoint.dfy` | the checkpoint text: decimal printing, `strconv.ParseInt`, restore with its fallback to 0 |
| `Watcher.dfy` | the index watcher: the loop (`FirehoseBase`), its function `Polled`, and what one integer cursor achieves |
| `Pipeline.dfy` | the SQS / EventBridge sink as interleaved steps on bounded channels |
| `PipelineBounds.dfy` | runs that reach the occupancy bounds |
| `SinkLoops.dfy` | the batch and write goroutines as loops over class state |
| `Replication.dfy` | any number of processes, one log, one Consul key: the checkpoint and takeover protocol |
| `EndToEnd.dfy` | safety, accounting, loss bounds and the exact condition for a loss, over all runs of the composed system |
| `Saving.dfy` | the checkpoint path: a cursor can always be saved, and what becomes of every tick and every write |
| `LossExtent.dfy` | runs that reach the loss bound for every number of crashes |
| `Progress.dfy` | deadlock freedom, termination of scans and draining, catching up |
| `Leadership.dfy` | the manager's leadership loop and the traces it can leave |
| `CheckpointTexts.dfy` | the checkpoint texts of the composed system are those of the manager's loop |
| `Allocations.dfy` | the allocation watcher with its time cursor |
| `AsyncFetch.dfy` | the index watcher with a callback that re-reads each object asynchronously (nodes, deployments, jobs) |
| `Workers.dfy` | sinks with n workers on one queue |
| `Evaluations.dfy` | the evaluation watcher, which is a different machine |

A *run* is a sequence of actions from the initial state; `Run` returns the state it reaches, or
`None` when some action was not possible. Statements about every run are statements about every
reachable state, since prefixes of runs are runs.

Loops that never end in the source are modelled as loops over an arbitrary finite sequence of
what they receive. The class methods and the interleaved machines meet in shared functions and
predicates: `FirehoseBase.Watch` computes `Polled`, and every process of `Replication` is at all
times what `Polled` makes of the answers it has dealt with (`Watching`); `Batcher.Batch`
computes `BatchLoop`, and `BatcherRunsItsLoop` shows that the batcher of every interleaving does
too; `SqsSink.Write` and `EventBridgeSink.Write` leave a `WriterLog`, and `RunIsLogged` shows the
same of every interleaving; `Manager` leaves the events `Term` gives for `Leading`, and
`TermsAreManaged` shows that the Lead and Checkpoint actions by which an incarnation of
`Replication` restores and writes are such a term. EventBridge's batch loop is line for line that of SQS, so both use `Batcher`; its writer is
the machine with `retries` false. The loops of nodes and deployments are that of
`FirehoseBase.Watch` with a callback that starts a goroutine: the notifications of `AsyncFetch`
are at all times those `Polled` gives (`Following`).

## Assumptions

- One LastIndex always denotes one list content, every ModifyIndex in a list is at most its
  LastIndex, and ids within a list are distinct: all three follow from answering with
  `Live(log, lastIndex)` in some order. How the LastIndex values of successive answers compare is
  left open, because the queries allow stale answers.
- Indices start at 1; the Consul key starts out absent and only the modelled processes write it.
- Each leadership incarnation is a fresh process: losing the lock ends the process
  (helper/manager.go:188, main.go:120). No lock is assumed between incarnations; any number may
  run at once.
- A KV read may fail, or return the current content of the key, nothing, or any text some
  incarnation ever wrote, so stale reads are covered. KV writes may be lost, or land at any later
  time, in any order.
- A failed request to the queue service accepts nothing (used by `Pipeline.AcceptedEntries` only).
- Info reads the current state of an object, and fails for an object that is gone.
- Allocations: one LastIndex always shows the same events, and because WaitIndex starts at 1 whatever
  was restored, a first list answered at index 1 would be skipped; it is taken to hold no events
  (`Consistent`). `LaterScansAreNewer` and `NeverTwice` need neither.

## Where code and documentation differ

- README.md:42 of the repository says the last event time is saved on quit or every 10 seconds.
  The code ticks every 5 seconds, and nothing sent while stopping is written:
  `Leadership.NothingIsWrittenAfterStop`.
- A checkpoint does not mean that what it covers was sent: `EndToEnd.LossHappens` gives a run. A
  live version was never sent exactly when every incarnation that put it still holds it in its
  sink or crashed holding it (`EndToEnd.UnsentExactly`), so the checkpoint covers only sent
  versions exactly when no version is in that position (`EndToEnd.CheckpointMeansSentExactly`).
  How many there can be is bounded by `EndToEnd.CheckpointLossBound`, and
  `LossExtent.LossExtentIsExact` reaches the bound for every number of crashes.
- A version visible only in an answer older than one already processed can be missed:
  `Watcher.StaleAnswerCanMiss`; `Watcher.HandedAtPoll` says exactly which versions are handed over.
- A list cursor of 2^63 or more does not survive a restart: `Checkpoint.UnsignedRoundTrip`.
- An allocation event that is not newer than a time listed before, older or tied, is never
  published: `Allocations.OnlyFirstChance` says exactly which events are, and
  `Allocations.LateEventIsLost` gives a run that loses one.
- The evaluation watcher publishes only evaluations whose ModifyIndex equals the LastIndex of the
  list before, each once per list that shows it then: `Evaluations.PublishedExactlyOnHits` and
  `Evaluations.PublishedOncePerHit`. When answers go back it can publish one twice:
  `Evaluations.GoingBackPublishesTwice`.

## Model

| member | source | states |
|---|---|---|
| `Checkpoint.PrintedDigits` | helper/manager.go:160-164 | the decimal digits written for a number read back as that number |
| `Checkpoint.UnsignedRoundTrip` | helper/manager.go:85-105 | printing an index cursor and restoring it is the identity exactly below 2^63 (0 above), and the restored cursor never exceeds the stored one |
| `Checkpoint.SignedRoundTrip` | command/allocations/app.go:70-80 | every int64 time cursor survives printing and restoring |
| `Checkpoint.NegativeTextWraps` | command/jobs/base.go:47-57 | a negative text in the key restores to 2^64 plus it |
| `Checkpoint.RestoredFromInteger` | helper/manager.go:85-105 | the cursor restored from the text of any integer; it is above the integer exactly when the integer is negative |
| `Checkpoint.WrittenUpdateRestores` | helper/manager.go:158-177 | whatever update of a known type the manager writes, the next leader restores it: a signed one in full, an unsigned one below 2^63; other types give no text |
| `Checkpoint.CanonicalText` | helper/manager.go:160-164 | the text of a number is the only one without a leading zero that has its value |
| `Checkpoint.ParsesExactly` | helper/manager.go:92-97 | a text restores to an int64, rather than to the fallback, exactly when it denotes it: digits with an optional sign, leading zeros allowed |
| `Watcher.FirehoseBase.SetRestoreValue` | command/jobs/base.go:47-57 | accepts exactly int and int64 and sets the cursor to their uint64 value, otherwise reports an error and changes nothing |
| `Watcher.FirehoseBase.Watch` | command/jobs/base.go:100-145 | the watch loop leaves wait index, cursor and handed rows that `Polled` gives for the answers received, list errors and skipped answers included |
| `Watcher.SkipIsHarmless` | command/jobs/base.go:120-124 | on the first poll after a restore and on every later one, scanning a skipped answer would hand over nothing and move nothing |
| `Watcher.SkippingPreservesMeaning` | command/jobs/base.go:120-124 | over any run the shortcut changes neither what is handed over nor the cursor |
| `Watcher.WaitIsLastListed` | command/jobs/base.go:141-143 | after any answers the wait index is the LastIndex of the last list received, empty or not, and before the first the restored index |
| `Watcher.NeverTwice` | command/jobs/base.go:129-143 | however stale, repeated or shuffled the answers, no version of an object is handed over twice |
| `Watcher.HandedInOrder` | command/jobs/base.go:129-143 | however stale or shuffled the answers, the versions of each object are handed over in increasing order |
| `Watcher.CursorIsMaximum` | command/jobs/base.go:107-143 | the cursor is below m exactly when the restore value and every index listed so far are |
| `Watcher.HandedAtPoll` | command/jobs/base.go:128-143 | a poll hands over exactly the listed versions above the restore value and above everything listed before |
| `Watcher.CursorRefinesHistory` | command/deployments/app.go:152-176 | with answers that do not go back, the integer cursor hands over the same versions in the same order as a watcher that remembers every version ever listed |
| `Watcher.CoveredUpToCursor` | command/nodes/app.go:144-167 | up to the cursor, every version shown at an index no answer exceeded has been handed over |
| `Watcher.Convergence` | command/jobs/base.go:107-144 | after processing the newest answer so far, every object in it above the restore value has been handed over at exactly the version shown |
| `Watcher.StaleAnswerCanMiss` | command/jobs/base.go:100-105 | a version only a stale answer shows is not handed over: convergence needs the newest answer |
| `Cluster.LiveIsCurrent` | command/jobs/base.go:110-117 | a list at index i shows version m of an object exactly when commit m wrote it and nothing touched it up to i |
| `Cluster.LivePersists` | command/jobs/base.go:128-132 | a version live later and written by commit i or before was the live version at i |
| `Pipeline.ConservedStep` | sink/sqs.go:96-168 | every step keeps: attempted, writer's batch, queued batches, batcher's batch or buffer and put queue together are all Puts in order |
| `Pipeline.RunKeepsInv` | sink/sqs.go:96-168 | channel bounds, batch sizes, FIFO conservation and numbering hold in every interleaving |
| `Pipeline.Occupancy` | sink/sqs.go:78-87 | at most 2020 messages are in the sink, and at most 1020 at the moment Stop sees the put queue empty |
| `PipelineBounds.StopBoundReached` | sink/event_bridge.go:82-91 | some run has 1020 messages left when the put queue is empty |
| `PipelineBounds.PipeBoundReached` | sink/sqs.go:52-53 | some run has 2020 messages in the sink |
| `Pipeline.IdDiscipline` | sink/sqs.go:127-166 | over any pattern of errors: the k-th message put is sent under id k, accepted ids strictly increase, every attempted message was requested |
| `Pipeline.IdsUsedExactly` | sink/sqs.go:127-159 | the ids that were in some answered request are exactly those below the attempted count, or during a retry below the end of the batch |
| `Pipeline.RunIsLogged` | sink/sqs.go:129-167 | in every interleaving the requests are one per batch in order, followed after BatchRequestTooLong by one per entry with the same ids |
| `Pipeline.BatcherRunsItsLoop` | sink/sqs.go:96-122 | in every interleaving buffer and emitted batches are what the batch loop computes from its inputs alone |
| `Pipeline.BatchShape` | sink/sqs.go:105-120 | every batch has one to ten messages, and a shorter one was emitted by a tick that saw an empty put queue |
| `Pipeline.NoDeadlock` | sink/sqs.go:96-168 | whenever a message is in the sink some step moves one, despite the bounded channels |
| `Pipeline.MeasureFalls` | sink/sqs.go:96-168 | every step that moves a message lowers a measure over the stages |
| `Pipeline.Drain` | sink/sqs.go:78-87 | once Puts stop, the number of moving steps is bounded by the measure, however they interleave with idle ticks |
| `Pipeline.StuckMeansDone` | sink/sqs.go:96-168 | when nothing can move, every message put has been attempted, in order |
| `Pipeline.CanDrain` | sink/sqs.go:78-87 | from every state some schedule without Puts attempts everything |
| `SinkLoops.Batcher.Batch` | sink/event_bridge.go:100-126 | the batch loop sends the batches and keeps the buffer that `BatchLoop` gives |
| `SinkLoops.SqsSink.Write` | sink/sqs.go:124-168 | the write loop makes one round of requests per batch with ids counting on from 0, whatever the service answers |
| `SinkLoops.SqsSink.WriteBatch` | sink/sqs.go:131-159 | a batch is sent once and, exactly after BatchRequestTooLong, again entry by entry in order under the same ids |
| `SinkLoops.EventBridgeSink.Write` | sink/event_bridge.go:128-156 | one request per batch in order, never a retry |
| `Replication.ScanMakesSafe` | command/jobs/base.go:128-143 | when a scan is complete its new cursor is safe, although the answer may be stale and the log has moved on |
| `Replication.SafeLater` | command/jobs/base.go:128-143 | growth of the log keeps every safe value safe |
| `Replication.CheckpointKeepsSafe` | helper/manager.go:155-177 | putting a channel value on its way to the key keeps all safe values safe |
| `Replication.WrittenIsSafe` | helper/manager.go:85-105 | in a sound and safe state every text any incarnation ever wrote is safe to restore from |
| `Replication.LeadKeepsSafe` | helper/manager.go:134-139 | a new leader starts at a safe cursor, whether its read was current, stale, absent or failed |
| `Replication.StepKeepsWatching` | command/jobs/jobsliststub.go:34-45 | row by row, each process's cursor, wait index and Puts stay what the watch loop computes |
| `Replication.RunKeepsInvariants` | helper/manager.go:109-199 | all of this in every run with crashes, overlapping leaders and lost or late writes |
| `EndToEnd.CheckpointSafety` | command/jobs/base.go:85-145 | in every reachable state every cursor, channel slot, pending send and checkpoint in the key, on its way to it or ever written covers only live versions already handed over |
| `EndToEnd.TakeoverSkipsNothing` | helper/manager.go:85-105 | every live version a new leader's restored cursor ignores was put by an earlier incarnation |
| `EndToEnd.ScannedIndexIsSafe` | command/jobs/base.go:141-143 | once an answer has been dealt with, every version live now and not newer than it has been handed over |
| `EndToEnd.IncarnationsAdvance` | helper/manager.go:158-177 | an incarnation's checkpoint writes never decrease, its cursor never goes back, its Puts and attempts only grow |
| `EndToEnd.ChainOrder` | command/jobs/base.go:85-97 | the order of restored value, last write, slot, pending send, cursor and newMax holds in every reachable state |
| `Saving.CanSave` | helper/manager.go:155-177 | from every reachable state a running process can get its present cursor into the key by its own checkpoint path, whatever is pending, in the channel or being written |
| `Saving.TwoWritesLater` | command/jobs/base.go:85-97 | once two checkpoint writes have followed a tick, the last value written is at least the cursor at that tick |
| `Saving.TicksAreSaved` | command/jobs/base.go:85-97 | in every run the cursors read by an incarnation's ticks are those written, then the one in the channel, then the one waiting to be sent: none lost, doubled or overtaken |
| `Saving.OneWriteAtATime` | helper/manager.go:174-177 | in every run a manager's write returns before its next begins |
| `Saving.WritesAccount` | helper/manager.go:174-177 | in every run each checkpoint write is on its way, landed or lost, exactly one of these |
| `Saving.KeyIsLastLanding` | helper/manager.go:170-177 | in every run the key holds the text that landed last, or is absent |
| `Saving.AllCanBeLost` | helper/manager.go:174-177 | from every reachable state all writes on their way can be lost, leaving the key as it is |
| `Saving.CrashIsFinal` | helper/manager.go:188-190 | after a crash nothing about an incarnation changes any more |
| `EndToEnd.PutsAreDistinct` | command/jobs/jobsliststub.go:34-45 | no incarnation puts one version twice |
| `EndToEnd.AcceptedOnce` | sink/sqs.go:127-166 | the queue service accepts no version twice from one incarnation, with stale answers, failures and retries combined |
| `EndToEnd.AcceptedInOrder` | sink/sqs.go:127-166 | from one incarnation the queue service accepts the versions of each object in increasing ModifyIndex order |
| `EndToEnd.IdsRepeatExactly` | sink/sqs.go:127-147 | two incarnations have both used deduplication id k exactly when k is below what each has used |
| `EndToEnd.OneIdTwoVersions` | sink/sqs.go:127-147 | a run in which two incarnations have different versions accepted under the same deduplication id |
| `EndToEnd.HandedMessagesAccount` | sink/sqs.go:90-168 | in every reachable state the messages handed over are exactly those attempted, those inside running sinks and those lost in crashed ones, at most 2020 per sink |
| `EndToEnd.LossPerCrash` | sink/sqs.go:52-53 | over a run with k crashes at most 2020 k messages are lost |
| `EndToEnd.CheckpointLossBound` | helper/manager.go:170-177 | upper bound: live versions covered by the checkpoint and never sent number at most those in running sinks plus 2020 per crash |
| `EndToEnd.UnsentExactly` | command/jobs/jobsliststub.go:34-45 | in every reachable state, the versions at or below v that are live and were never sent are exactly the live ones that every incarnation that put them still holds in its sink or crashed holding |
| `EndToEnd.CheckpointMeansSentExactly` | helper/manager.go:170-177 | everything the checkpoint covers was sent if and only if no live version it covers is still held by every incarnation that put it |
| `LossExtent.LossBoundReached` | sink/sqs.go:52-53 | for any log of k commits of 2020 new objects each, some run with k crashes and no running process leaves exactly 2020 k versions covered by the checkpoint and never sent |
| `LossExtent.LossExtentIsExact` | helper/manager.go:170-177 | the loss bound is reached with equality for every number of crashes |
| `EndToEnd.CaughtUp` | command/jobs/base.go:129-143 | after an answer that shows every live version, whatever its LastIndex, with empty sinks all live versions but 2020 per crash were sent, and all of them without crashes |
| `EndToEnd.LossHappens` | helper/manager.go:170-177 | one crash can leave a checkpointed version that nobody tried to send |
| `Progress.WorkIsPossible` | sink/sqs.go:90-94 | a running process is never deadlocked, even with its scan blocked on a full put queue |
| `Progress.WorkFalls` | command/jobs/base.go:129-143 | every working step of scan, batcher or writer leaves less work |
| `Progress.BoundedWork` | command/jobs/base.go:129-143 | in every run, until its next scan starts a process takes at most Work working steps, whatever other steps it and the other processes take in between |
| `Progress.CanCatchUp` | command/jobs/base.go:109-145 | from every reachable state a running process can deal with an answer at any index and empty its sink, by its own steps alone |
| `Progress.SoleLeaderDelivers` | command/jobs/base.go:109-145 | a sole leader given any answer that shows every live version can reach a state in which all live versions but 2020 per crash were sent |
| `Leadership.Manager.RestoreLastChangeTime` | helper/manager.go:85-105 | gives an int64 or the int 0, never a type SetRestoreValue rejects |
| `Leadership.Manager.AcquireConsulLeadership` | helper/manager.go:109-199 | one attempt leaves exactly the events of its term and its error; the exit before the deferred release is unreachable, the unknown-update exit needs an unknown update |
| `Leadership.Manager.Lead` | helper/manager.go:156-198 | the select loop writes every update up to its exit, in order, then stops and unlocks |
| `Leadership.Manager.ContinuouslyAcquireConsulLeadership` | helper/manager.go:62-82 | over any script of turns the attempts made are those of the first n turns, all but the last without error; the loop returns an error exactly when the last attempt failed, with that error, and otherwise stops only at a stop or while leading; the trace is their terms, disciplined, with the lock released unless leading |
| `Leadership.EndedOnce` | helper/manager.go:62-82 | that contract leaves one outcome only for every script |
| `Leadership.TermGoesOn` | helper/manager.go:156-198 | while no select ends the term every update is written, in order |
| `Leadership.TermEnds` | helper/manager.go:156-198 | the first select that ends a term: exactly the updates before it were written, and the error is a lost lock exactly for a closed error channel |
| `Leadership.WritesAreWithinTerm` | helper/manager.go:134-177 | between a checkpoint write and the restore and start of its term there are only writes |
| `Leadership.NothingIsWrittenAfterStop` | helper/manager.go:143-152 | no write follows a Stop before the lock is taken again, so nothing is saved on quit |
| `Leadership.StopsAndUnlocksBalance` | helper/manager.go:143-152 | every acquisition gets exactly one Stop and then exactly one Unlock |
| `CheckpointTexts.TextsAreWritten` | helper/manager.go:155-177 | in every reachable state the key and every write on its way hold the text of a cursor some incarnation saved, and every incarnation started from an error, an absent key or such a text |
| `CheckpointTexts.EventsAreSaved` | helper/manager.go:134-177 | in every run the manager events of an incarnation are lock, restore and start at the Lead action that created it, with the cursor restored there, then one write for each value its channel delivered |
| `CheckpointTexts.TermsAreManaged` | helper/manager.go:134-177 | while indices fit uint64, those events are exactly the term the manager's loop leaves for the read of that Lead action and the channel values of that incarnation's Checkpoint actions |
| `Allocations.Firehose.ScanTask` | command/allocations/app.go:169-198 | the events of one task above the cursor are published once per occurrence, in order, and the maximum is taken over all |
| `Allocations.Firehose.ScanAllocation` | command/allocations/app.go:168-199 | the same over the task map in whatever order it is visited, each task once |
| `Allocations.Firehose.Scan` | command/allocations/app.go:166-204 | a scan publishes exactly the listed events above the cursor as a multiset and leaves the maximum of cursor and all times |
| `Allocations.Firehose.Watch` | command/allocations/app.go:138-206 | over any answers, each list with a new LastIndex is scanned from the cursor the answers before it left, all other answers change nothing, and the published updates are those of the scans in order |
| `Allocations.SkipIsHarmless` | command/allocations/app.go:156-164 | scanning a skipped answer would publish nothing and leave the cursor, when one LastIndex has one content and none at index 1 |
| `Allocations.CursorIsNewest` | command/allocations/app.go:166-204 | the cursor is the maximum of the restored value and every time in every list received, skipped ones included |
| `Allocations.PublishedInOrder` | command/allocations/app.go:166-200 | one scan publishes allocation by allocation in list order and the events of a task in their order; only the order of tasks is open |
| `Allocations.OrderIsIrrelevant` | command/allocations/app.go:166-200 | neither the order of the list nor the order of the events of a task changes the updates published or the cursor |
| `Allocations.PublishedAtAnswer` | command/allocations/app.go:169-198 | an answer makes the loop publish a task's event exactly when it shows it and its time is above the restore value and above all times in all lists received before |
| `Allocations.OnlyFirstChance` | command/allocations/app.go:169-204 | an event, whatever becomes of its allocation, is ever published exactly when its time is above the restore value and all times received before the first answer that shows it, and then at that answer |
| `Allocations.LaterScansAreNewer` | command/allocations/app.go:169-204 | what a later scan publishes is strictly newer than everything published before |
| `Allocations.NeverTwice` | command/allocations/app.go:166-204 | no event is published twice in a whole run when no list repeats an allocation or an event of a task |
| `Allocations.LateEventIsLost` | command/allocations/app.go:170-176 | an event first listed later with a time not above one listed before is lost |
| `AsyncFetch.AsyncAccounting` | command/nodes/app.go:144-167 | in every run the notifications are those the watch loop makes of the answers dealt with, each is exactly one of read pending, read failed, waiting to be put, published or vanished with its process, and each read shows a real version at least as new |
| `AsyncFetch.ReadsAreCurrent` | command/nodes/app.go:154-162 | everything waiting or published was read by some action of the run and shows the version live at that moment |
| `AsyncFetch.RunsFromLastRestart` | command/nodes/app.go:112-119 | in every run the watcher starts from the cursor of the last restart |
| `AsyncFetch.RestartEndsFetches` | command/jobs/job.go:43-53 | in every reachable state what is outstanding was started by the running process |
| `AsyncFetch.AnswersAreDealtWith` | command/nodes/app.go:125-168 | in every run the answers dealt with, and the one being scanned, are those received since the last restart, in order |
| `AsyncFetch.AnyAnswerCanBeDealtWith` | command/nodes/app.go:125-168 | from every reachable state the watcher can deal with whatever list or error comes next |
| `AsyncFetch.FetchesCanFinish` | command/nodes/app.go:154-162 | from every reachable state all fetches under way can finish without a failure, except those of objects that are gone |
| `AsyncFetch.FailuresAreReads` | command/nodes/app.go:156-159 | a notification counts as failed exactly as often as its read failed |
| `AsyncFetch.PublishedGrows` | command/nodes/app.go:154-162 | publications are final and come in order |
| `AsyncFetch.FinishedFetchesCover` | command/deployments/app.go:162-170 | with nothing outstanding, every notification whose read neither failed nor vanished is covered by a publication, in any completion order |
| `AsyncFetch.NewestCoversNotifications` | command/jobs/job.go:43-53 | when all reads succeeded, the newest published version of each object is at least the newest notified |
| `AsyncFetch.ScanNotifiesLiveVersions` | command/nodes/app.go:144-163 | what the scan notifies is a version live at the index of some answer |
| `AsyncFetch.NewestIsPublished` | command/deployments/app.go:152-176 | when the newest answer has been dealt with and no fetch is outstanding, every object it shows above the restore value was published at that version or newer, unless that read failed or vanished |
| `AsyncFetch.LiveIsPublished` | command/jobs/job.go:43-53 | then an object unchanged since that answer has been published at exactly its live version and nothing newer |
| `Workers.RunKeepsInv` | sink/kinesis.go:92-114 | queued, held and completed messages partition all Puts in every interleaving of n workers |
| `Workers.BoundedOvertaking` | sink/http.go:89-104 | with n workers the i-th completion is among the first i + n Puts |
| `Workers.Occupancy` | sink/kinesis.go:46-47 | at most 1000 messages are queued and one held per worker, and all others have completed |
| `Workers.OccupancyReached` | sink/kinesis.go:46-47 | for every number n of workers some run holds 1000 + n messages |
| `Workers.SomethingMoves` | sink/http.go:54-56 | some worker can move exactly when there is a worker and something to do |
| `Workers.StuckMeansDone` | sink/kinesis.go:92-114 | with a worker, no worker step is left exactly when the measure is 0, and exactly then every message put has completed, once |
| `Workers.WorkersFinish` | sink/http.go:89-104 | once Puts stop, every schedule that goes on as long as it can takes exactly Measure steps and completes every message put |
| `Evaluations.Firehose.Watch` | command/evaluations/app.go:118-159 | the loop publishes what `Evaluated` gives for the answers received |
| `Evaluations.PublishedExactlyOnHits` | command/evaluations/app.go:118-157 | whatever the answers, errors and repeats included, a version is published exactly when an answer with a new LastIndex lists it while the LastIndex received before is its ModifyIndex |
| `Evaluations.PublishedOncePerHit` | command/evaluations/app.go:144-157 | a version is published once per such answer |
| `Evaluations.MatchingInOrder` | command/evaluations/app.go:144-151 | the rows one answer publishes come in the order of its list |
| `Evaluations.PublishedOnce` | command/evaluations/app.go:123-157 | while LastIndex values do not go back, no version is published twice, through any errors and repeats |
| `Evaluations.GoingBackPublishesTwice` | command/evaluations/app.go:129-157 | three answers that go back publish one version twice |

## Left out

- All input and output: HTTP, AWS, Nomad and Consul clients, signals, wall-clock intervals and
  logging. Each call is a step that may succeed or fail at any time; tickers fire at any time.
- The Consul lock and its sessions: overlapping leaders are allowed instead.
- Re-acquiring leadership inside one process after a voluntary release, with goroutines left over
  from the first term, and data races on `stopCh`, `lastChangeIndex` and other fields.
- AsyncFetch: does not claim that the asynchronous watchers survive a crash, because a pending
  read vanishes while the cursor may already be checkpointed; vanished reads are accounted for.
- Pipeline.IdDiscipline: ids are unique within one incarnation only, because the writer's counter
  starts at 0 in every process: `EndToEnd.IdsRepeatExactly` says when two incarnations have used the
  same one and `EndToEnd.OneIdTwoVersions` gives a run. Ids double as deduplication ids, so on a
  queue that drops repeated ones an `Accepted` answer is not delivery; that window of the queue
  service, and int64 wrap-around of the counter, are not modelled.
- Allocations: the fields of an allocation and of a task that an update only copies are one string
  each (`status`, `state`).
- Evaluations: no completeness is claimed, because the code compares ModifyIndex with the previous
  LastIndex for equality; `PublishedExactlyOnHits` says what is published.
- The string case of the deployment watcher's SetRestoreValue, which no restore produces
  (`Checkpoint.RestoredValue` gives an int or an int64).
- Messages refused inside a successful batch response, which the code ignores, and JSON
  marshalling: in `Replication` a message is the list row itself, in the sinks any value.
- The worker loops of the n-worker sinks as methods: each turn is one receive and one request, so
  they are modelled as the steps of `Workers`; the persist goroutine is modelled as the steps
  SaveTick and Send of `Replication`.
- sink/helper.go, constructors, command line flags and the stdout, redis, nsq, kafka, syslog,
  mongodb and rabbitmq sinks, which would add only easier members.
