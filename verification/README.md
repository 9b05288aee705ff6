# Steveo: verified models of its stateful protocols

Steveo runs tasks that arrive on Kafka, SQS or Redis, drives multi-step workflows through messages, and schedules
jobs from a database table. This project models the parts of it that keep state across messages and processes, and
proves what they guarantee over every run:

- **Kafka offsets** (`KafkaMessages`, `KafkaRunner`, `KafkaGroup`, `KafkaLoss`, `KafkaHandover`,
  `KafkaRepeats`). `KafkaRunner.Runner`
  is the consumer's class, with its string-keyed `processedOffsets`. `KafkaGroup` is any number of such runners over
  shared partitions and the broker's committed offsets, with rebalances, late, lost and reordered commits, failed
  flushes, batches abandoned by a throw and crashes (whose commits may still arrive) in any interleaving. The
  predicates `BatchCommitted`, `Abandoned` and `FlushSends` are the contracts of the class's methods and the guards
  of the group's steps, so the two cannot drift apart.
- **Workflows** (`WorkflowModel`, `WorkflowEngine`, `WorkflowSteps`, `WorkflowRuns`, `WorkflowInputs`,
  `WorkflowShared`, `WorkflowFold`, `WorkflowRollback`).
  `WorkflowEngine` has the engine and its row store as classes that update rows in place; each of their methods is
  proved equal to a function of `WorkflowModel`. `WorkflowSteps` says what each kind of delivery does without naming
  those functions, and the other five modules prove what runs of deliveries do.
- **The job scheduler** (`SchedulerModel`, `SchedulerStore`, `SchedulerPasses`, `SchedulerLoop`, `SchedulerLease`).
  `SchedulerStore.JobTable` is the table with its statements, `SchedulerLoop.Scheduler` the loop that runs claimed
  jobs, and `SchedulerLease` any number of schedulers over one table and one clock, where a claim is a lease;
  `SchedulerPasses` says what a maintenance pass does from the columns of a row.
- **Middleware** (`Middleware`) and **SQS acknowledgement** (`SqsRunner`, and `SqsDeliveries` for what each delivery
  comes to).

`Wrappers`, `Decimals` and `JsMaps` are what these share: results, decimal numerals and JavaScript's `Map`.

## Assumptions

- Kafka: the client hands over each partition in order and without gaps from its position; one consume loop per
  runner. How many messages a callback carries and whether it is entered while paused is not assumed: `LossExactly`
  says which of those callbacks matter.
- Clean handover only: revokes fall between batches, their flush succeeds once the commits sent before it have been
  applied, commits apply in order, only partitions nobody holds are assigned, no batch is abandoned (`Abandon`: a
  throw between settling a batch and committing all of it) and nobody crashes. `RevokeRepeatsExactly` says what a
  revoke that is not clean leads to.
- Workflows: step names are unique and not empty; generated ids never repeat; deliveries to the store are serialised
  and a throw restores the row. Payloads, step functions, rollback handlers and the producer are arbitrary, and
  messages may be duplicated, stale or in any order.
- Scheduler: one clock that does not go back; each claim and each maintenance pass, complete or broken off by a
  failing statement, is one atomic step; tasks run in process through the timestamp helper. An instance's update
  writes the fields it is given that differ from what the instance was loaded with, and no others (`Save`, `Given`):
  Sequelize 6 leaves undefined values out. That leases are ended in time is a hypothesis (`Punctual`) of the lemmas that
  need it, and `DoubleClaimExactly` shows it cannot be weakened.
- SQS at most once: nothing is delivered again while under way, a delete that reports success has taken effect, and
  messages carry a receipt handle.
- Event listeners do not throw, except those of a settled Kafka batch; releasing a pool resource does not fail.

## Where the code differs from what it says

- `executeRollback` is described as calling the rollback of each step already called. It calls the rollback of the
  step it was entered with once for every step from there to the first (`packages/steveo/src/runtime/workflow.ts:387`),
  and takes the previous step of that same step (line 389). `RolledBackOnceExactly` says when each handler is called
  once, `RollbackCount` how often otherwise.
- The order guard is described as protecting against out of order execution and re-execution. It looks at
  `stepIndex - 1` steps (line 321), so never at the result of the step just before, and does not look at `completed`.
  `GuardExactly` and `CompletedRunsAgainExactly` say what it does stop.
- A run of steps that return is not always finished: a falsy result among the first n - 2 stops it (`RunIsFold`).
- A callback entered while paused discards its messages although the client has moved past them
  (`packages/steveo/src/consumers/kafka.ts:328-333`); so does `processBatch` beyond the batch size.
- `processMessage` of the SQS runner is meant to release its pool resource whatever happens. A message whose body is
  the JSON text `null` parses, gets a resource, and throws at `packages/steveo/src/consumers/sqs.ts:99`, before the
  `try` whose `finally` releases: the resource stays held. `PoolBalancesExactly` shows this to be the only way, and
  `NullPayloadLeaks` is the instance.
- A repeating job is meant to wait for its next run once it has finished or been reset. A rule without an occurrence
  within six months has none: `computeNextRun` returns undefined
  (`packages/scheduler-sequelize/src/helpers.ts:76-81`, `packages/scheduler-sequelize/src/helpers.ts:105-110`), the
  update leaves `next_run_at` at its past value, and the job is due again at once, each time
  (`ClaimedAgainExactly`).
- A row does not say which workflow it belongs to, and `processPayload` does not ask
  (`packages/steveo/src/runtime/workflow.ts:269-278`): a message of another workflow that carries its id runs that workflow's step, if one has the name the row has come to
  (`ForeignCompletes`). `SharedStepsRunInOrder` says when the order survives.
- `jobsCustomRestart` is described as restarting a job that long after it has become laggy
  (`packages/scheduler-sequelize/src/index.ts:107-109`). A pass resets it only while `accepted_at` plus that time is
  still to come (`packages/scheduler-sequelize/src/maintenance.ts:136-141`), and never reports it.
  `LeftSilentExactly` says which laggy jobs a pass neither changes nor reports, and `SilentForGood` that a rule that
  has run out leaves them so.
- A workflow message is meant for one step, but any message runs the step its row has come to, on the payload it
  carries: a repeat of an earlier message makes a later step run on it (`RepeatRunsNextStep`). `ComposedExactly`
  says, in terms of the stored row and the message before each delivery, when every step runs on its own.
- The comments in `packages/scheduler-sequelize/src/models/job.ts:103-106` order `last_finished_at` and `next_run_at`
  too; the scopes do not compare them. A job accepted at the instant of its claim counts as blocked, not laggy.

## Model

| member | source | states |
|---|---|---|
| KafkaMessages.KeyIsInjective | packages/steveo/src/consumers/kafka.ts:251 | Two partitions with the same `topic/partition` string are the same partition, for any topics, slashes included. |
| KafkaMessages.SetRepresents | packages/steveo/src/consumers/kafka.ts:259-266 | Setting a string key in `processedOffsets` sets that one partition's offset and no other's. |
| KafkaMessages.RepresentsAt | packages/steveo/src/consumers/kafka.ts:261-265 | What is noted past a message stands under its `topic/partition` string, with the offset after it. |
| KafkaMessages.QueuedHighest | packages/steveo/src/consumers/kafka.ts:247-260 | A committed batch queues a message that is the highest of its partition in the batch, for each partition, and never two of one. |
| KafkaMessages.NotedHighest | packages/steveo/src/consumers/kafka.ts:247-266 | It notes, for each partition of the batch, the offset after its highest message, and keeps every other note. |
| KafkaMessages.CommitsIgnoreOrder | packages/steveo/src/consumers/kafka.ts:247-267 | Any permutation of a batch commits the same offset per partition. |
| KafkaRunner.Runner.constructor | packages/steveo/src/consumers/kafka.ts:35 | A new runner has processed nothing. |
| KafkaRunner.Runner.GetBatchSize | packages/steveo/src/consumers/kafka.ts:168-172 | One message at a time without batch processing, the batchSize asked for with it, and five where that is missing or zero. |
| KafkaRunner.HighestPerPartition | packages/steveo/src/consumers/kafka.ts:248-257 | The loop selects one message per partition of the batch, at that partition's highest offset, each under its own key. |
| KafkaRunner.HighestIsOnePerPartition | packages/steveo/src/consumers/kafka.ts:248-257 | A string-keyed map of highest messages, iterated, yields every partition of the batch exactly once. |
| KafkaRunner.Runner.RecordCommits | packages/steveo/src/consumers/kafka.ts:259-266 | The selected messages before the first whose commit throws, and no others, are queued once, in order, and noted under their keys. |
| KafkaRunner.RecordedRepresents | packages/steveo/src/consumers/kafka.ts:259-266 | The string-keyed notes stay a faithful copy of offsets keyed by partition. |
| KafkaRunner.OffsetsAfterHighest | packages/steveo/src/consumers/kafka.ts:259-266 | Noting one message for each of some partitions sets exactly those partitions to just past their highest offset and leaves the rest alone. |
| KafkaRunner.FirstOnes | packages/steveo/src/consumers/kafka.ts:259-266 | The first of the selected messages are one for each of their own partitions, and for all of them if none is left. |
| KafkaRunner.FirstCommitted | packages/steveo/src/consumers/kafka.ts:259-266 | Queueing and noting the first of them commits exactly their partitions, and the whole batch if none is left. |
| KafkaRunner.Runner.CommitBatch | packages/steveo/src/consumers/kafka.ts:247-267 | Exactly one commit per partition of the batch joins the queue, at its highest offset, and those offsets are noted, all others kept; if a commit throws, the same holds for some of the partitions. It passes exactly when the commit of every partition's highest message does. |
| KafkaRunner.ListsEntries | packages/steveo/src/consumers/kafka.ts:281 | The list sent on a flush names every noted partition once, at its noted offset. |
| KafkaRunner.Runner.FlushOffsets | packages/steveo/src/consumers/kafka.ts:275-287 | A flush sends every entry noted, once each, if there is one, logs a failure, and forgets the notes either way; queued commits stay. |
| KafkaRunner.Runner.ReceiveAll | packages/steveo/src/consumers/kafka.ts:192-203 | Every message settles once, fulfilled or rejected, in the order given. |
| KafkaRunner.Runner.ProcessBatch | packages/steveo/src/consumers/kafka.ts:174-240 | The first min(number of messages, batch size) messages, no fewer and no others, settle once each, in any order, and are committed whether or not receiving failed; a listener that throws leaves them uncommitted, a commit that throws committed in part. |
| KafkaRunner.Runner.ConsumeCallback | packages/steveo/src/consumers/kafka.ts:319-350 | A paused, failing or terminating callback receives and commits nothing, any other the first batchful of its messages; all but the last ask for the next batch, even when processing this one throws. |
| KafkaGroup.AdvanceMoves | packages/steveo/src/consumers/kafka.ts:343-349 | A gapless delivery consists of exactly the messages between the old and the new positions. |
| KafkaGroup.DeliveredBatch | packages/steveo/src/consumers/kafka.ts:174-179 | A delivery's whole list is the batch in hand if and only if it is not paused and no longer than a batchful; otherwise the batch is its first batchful, or nothing while paused, and the rest is dropped. |
| KafkaGroup.SoundDelivery | packages/steveo/src/consumers/kafka.ts:174-179 | After a delivery everything below the position is received or in the batch, if nothing unreceived was dropped. |
| KafkaGroup.SoundSettle | packages/steveo/src/consumers/kafka.ts:192-203 | Receiving a message leaves nothing below the position unaccounted for. |
| KafkaGroup.SoundCommit | packages/steveo/src/consumers/kafka.ts:239-267 | A settled batch, committed in whole or in part, queues and notes only offsets below which everything has been received. |
| KafkaGroup.SoundLate | packages/steveo/src/consumers/kafka.ts:280-284 | Nothing a flush has sent is ahead of an unreceived message, however late it reaches the broker. |
| KafkaGroup.NoLossStep | packages/steveo/src/consumers/kafka.ts:275-287 | Neither a late commit nor a complete or partial flush commits past an unreceived message. |
| KafkaGroup.InvStep | packages/steveo/src/consumers/kafka.ts:174-287 | Every step of any runner, abandoned batches included, keeps committed offsets, notes, queued commits and batches in flight ahead of nothing unreceived. |
| KafkaGroup.CommittedWasReceived | packages/steveo/src/consumers/kafka.ts:174-287 | Group-wide no loss: in every run whose deliveries are not paused and no longer than a batchful, each message between a partition's start and its committed offset has had its receive settle in some runner. |
| KafkaLoss.SettleAll | packages/steveo/src/consumers/kafka.ts:192-203 | From any state the batch in hand can be received to the end. |
| KafkaLoss.Overtake | packages/steveo/src/consumers/kafka.ts:254-266 | A runner already past an unreceived message can commit past it with its next batch. |
| KafkaLoss.DropLoses | packages/steveo/src/consumers/kafka.ts:178-179 | Dropping an unreceived message, beyond the batch size or while paused, opens the way to losing it. |
| KafkaLoss.LossExactly | packages/steveo/src/consumers/kafka.ts:328-333 | From a sound state a step opens the way to a loss if and only if it drops a message nobody has received. |
| KafkaLoss.PausedCallbackLoses | packages/steveo/src/consumers/kafka.ts:328-333 | A concrete run: join, assign, and one message in a paused callback. |
| KafkaHandover.DeliveredMax | packages/steveo/src/consumers/kafka.ts:247-257 | The highest offset of a delivered batch is where the position stands. |
| KafkaHandover.SettledTidy | packages/steveo/src/consumers/kafka.ts:192-203 | In a clean run a message about to be received has not been received before. |
| KafkaHandover.CommittedTidy | packages/steveo/src/consumers/kafka.ts:239-267 | Once its batch is committed, a runner's notes stand at its positions. |
| KafkaHandover.PendingTidy | packages/steveo/src/consumers/kafka.ts:260 | A queued commit, applied or lost, moves no point from which a partition would be resumed. |
| KafkaHandover.FlushedTidy | packages/steveo/src/consumers/kafka.ts:78-82 | A successful flush between batches commits exactly the positions of all partitions the runner holds. |
| KafkaHandover.TidyStep | packages/steveo/src/consumers/kafka.ts:78-82 | Every clean step keeps each partition with one owner at most, who resumes where it stands. |
| KafkaHandover.CleanHandover | packages/steveo/src/consumers/kafka.ts:269-287 | In every clean run, whose deliveries are not paused and no longer than a batchful, no message is received twice anywhere in the group, and between batches each note equals the runner's position. |
| KafkaRepeats.BehindRun | packages/steveo/src/consumers/kafka.ts:247-287 | In every clean run what is committed lags behind the notes and they behind the position, strictly so for a batch in hand. |
| KafkaRepeats.InHandShort | packages/steveo/src/consumers/kafka.ts:78-82 | Giving up a partition in mid-batch leaves it committed short of where the runner stood, whatever is flushed. |
| KafkaRepeats.ShortRepeats | packages/steveo/src/consumers/kafka.ts:275-287 | A partition committed short of a message that has been received, or is still in some batch, can be read again from there. |
| KafkaRepeats.LateCommitRepeats | packages/steveo/src/consumers/kafka.ts:260 | A queued commit that outlives the handover of its partition can take it back, once the next owner has gone on. |
| KafkaRepeats.RevokeRepeatsExactly | packages/steveo/src/consumers/kafka.ts:269-287 | A runner giving up all its partitions opens the way to a second receipt, with everyone clean from then on, if and only if a batch is in hand, the flush misses a note not committed yet, or a commit can still reach the broker. |
| KafkaRepeats.RevokeRepeatsInRuns | packages/steveo/src/consumers/kafka.ts:78-82 | So it is for every such revoke after every clean run. |
| WorkflowModel.IndexOf | packages/steveo/src/runtime/workflow.ts:467-471 | The first step of that name, and none exactly when no step has it. |
| WorkflowModel.Truthy | packages/steveo/src/runtime/workflow.ts:321-323 | Of the values a result can be stored as, only undefined, null, false, zero and the empty string fail the guard. |
| WorkflowModel.CarriesExactly | packages/steveo/src/runtime/workflow.ts:157-162 | The next step's message holds the properties of an object result, or the items of an array or string under their indices, and the workflow's id unless the result has a property of that name, and nothing else. |
| WorkflowModel.CallsMade | packages/steveo/src/runtime/workflow.ts:385-412 | Rollback handlers are called up to and including the first that throws. |
| WorkflowModel.Deliver | packages/storage-postgres/src/impl/postgres-storage.ts:24-43 | A delivery that throws leaves every row as it was. |
| WorkflowModel.RowChoosesStep | packages/steveo/src/runtime/workflow.ts:269-297 | Whatever step a message with the id of a stored workflow is for, only the step its row points at executes, on the payload delivered and only without errors, or is rolled back, and only that step's successor is sent. |
| WorkflowSteps.Proceeds | packages/steveo/src/runtime/workflow.ts:311-354 | A step that returns, but the last, has its result stored under its name, the pointer moved to the next step and, under the workflow's and the next step's names, a message sent that carries the result; a first step starts from a new row. |
| WorkflowSteps.Completes | packages/steveo/src/runtime/workflow.ts:128-151 | The last step that returns completes the row, with its result stored, or removes it. |
| WorkflowSteps.FailsExactly | packages/steveo/src/runtime/workflow.ts:311-355 | A delivery to a row without errors fails exactly when the row is another service's, a result before the preceding step's is falsy or missing, the step throws, or the next message cannot be published. |
| WorkflowSteps.FailsOnce | packages/steveo/src/runtime/workflow.ts:355-416 | However step k fails, the row then holds one error naming it, keeps its results (with the step's own if only the publish failed), and points at step k - 1, or is completed at the first; step k's handler has been called k + 1 times. |
| WorkflowSteps.FailsForNothing | packages/steveo/src/runtime/workflow.ts:399-412 | If a call of the handler throws, the delivery throws that error right after the call, and every row is as it was. |
| WorkflowSteps.Undoes | packages/steveo/src/runtime/workflow.ts:293-297 | A delivery to a row with errors at step k calls k's handler k + 1 times and moves the pointer to step k - 1, or completes the row at the first. |
| WorkflowSteps.UndoesNothing | packages/steveo/src/runtime/workflow.ts:399-412 | If one of those calls throws, every row is as it was. |
| WorkflowSteps.Refuses | packages/steveo/src/runtime/workflow.ts:211-288 | A delivery for no stored workflow and not starting one, or for a row at no step of the definition, fails without a trace. |
| WorkflowSteps.SentCarries | packages/steveo/src/runtime/workflow.ts:128-163 | Whatever a delivery sends comes right after the step that returned it, names the step after that one, and carries what it returned. |
| WorkflowEngine.WorkflowStateRepository.WorkflowInit | packages/storage-postgres/src/repo/workflow-postgres-repo.ts:31-43 | Creates the row, and fails without a change when the id is taken. |
| WorkflowEngine.WorkflowStateRepository.UpdateWorkflowCompleted | packages/storage-postgres/src/repo/workflow-postgres-repo.ts:65-74 | Marks one existing row completed. |
| WorkflowEngine.WorkflowStateRepository.DeleteWorkflow | packages/storage-postgres/src/repo/workflow-postgres-repo.ts:79-85 | Removes one existing row. |
| WorkflowEngine.WorkflowStateRepository.UpdateCurrentStep | packages/storage-postgres/src/repo/workflow-postgres-repo.ts:90-101 | Moves one existing row's pointer. |
| WorkflowEngine.WorkflowStateRepository.StoreExecuteError | packages/storage-postgres/src/repo/workflow-postgres-repo.ts:106-134 | Appends one error to those already stored. |
| WorkflowEngine.WorkflowStateRepository.StoreStepResult | packages/storage-postgres/src/repo/workflow-postgres-repo.ts:139-168 | Adds or replaces one result, keeping the others; an undefined result is not kept by the JSON column. |
| WorkflowEngine.WorkflowStateRepository.RollbackStepExecute | packages/storage-postgres/src/repo/workflow-postgres-repo.ts:173-185 | Moves one existing row's pointer. |
| WorkflowEngine.Workflow.Next | packages/steveo/src/runtime/workflow.ts:84-98 | Appends a step to the definition. |
| WorkflowEngine.Workflow.TurnBack | packages/steveo/src/runtime/workflow.ts:386-412 | One turn of the rollback loop calls the captured step's handler and moves the pointer before that step. |
| WorkflowEngine.Workflow.ExecuteRollback | packages/steveo/src/runtime/workflow.ts:375-416 | The loop ends, having called the handler of step j once per step from j to 0 or up to its first throw; the pointer moves back by one step, or the row is completed at the first. |
| WorkflowEngine.Workflow.PublishNextStep | packages/steveo/src/runtime/workflow.ts:128-163 | After the last step the row is deleted or completed; otherwise the pointer moves on and one message is sent, named after the next step, which carries the id and the result's own properties (`Carries`). |
| WorkflowEngine.Workflow.TryNextStep | packages/steveo/src/runtime/workflow.ts:311-354 | Whatever part of the try block throws, what it did before is what the rollback after it finds; `WorkflowSteps` says what that comes to. |
| WorkflowEngine.Workflow.CatchNextStep | packages/steveo/src/runtime/workflow.ts:355-367 | Whatever the try block left behind, the error is stored and the step rolled back from there. |
| WorkflowEngine.Workflow.ExecuteNextStep | packages/steveo/src/runtime/workflow.ts:305-368 | Row, effects and outcome are those of the model, for foreign service ids, guard failures, throwing steps and failing publishes alike. |
| WorkflowEngine.Workflow.LoadState | packages/steveo/src/runtime/workflow.ts:485-499 | A row is loaded exactly when the id is not empty and stored, and storing it back would change nothing; otherwise the error says which. |
| WorkflowEngine.Workflow.ProcessRow | packages/steveo/src/runtime/workflow.ts:269-299 | A delivery to a row that has no current step, or one the definition lacks, throws; a row with errors only rolls back. |
| WorkflowEngine.Workflow.ProcessPayload | packages/steveo/src/runtime/workflow.ts:249-300 | A message without an id starts a row; one for a missing or finished-and-deleted row throws. |
| WorkflowEngine.Workflow.Subscribe | packages/steveo/src/runtime/workflow.ts:211-244 | One delivery, run imperatively inside its transaction, equals the model's delivery: rows, result and effects. |
| WorkflowEngine.RollBackThrows | packages/steveo/src/runtime/workflow.ts:399-412 | A handler that throws at its k-th call ends the rollback after k + 1 calls. |
| WorkflowEngine.RollBackPasses | packages/steveo/src/runtime/workflow.ts:385-415 | Without throws, step j's handler is called j + 1 times. |
| WorkflowRuns.DeliveredOnRow | packages/steveo/src/runtime/workflow.ts:211-300 | A delivery that does not throw touches one row, and creates it only for a message without an id. |
| WorkflowRuns.RollBackKeeps | packages/steveo/src/runtime/workflow.ts:375-416 | Rolling back executes no step and keeps errors and results. |
| WorkflowRuns.OnRowKeeps | packages/steveo/src/runtime/workflow.ts:290-297 | Any delivery to a row keeps it consistent with what has executed for it. |
| WorkflowRuns.RunInv | packages/steveo/src/runtime/workflow.ts:211-300 | Over any deliveries, every row, kept or deleted, agrees with the executions committed for its id. |
| WorkflowRuns.StepsRunInOrder | packages/steveo/src/runtime/workflow.ts:249-300 | Committed executions of one workflow are its steps in order, then only repeats of the last, and not even those with deleteOnComplete. |
| WorkflowRuns.GuardExactly | packages/steveo/src/runtime/workflow.ts:319-326 | In a reachable row without errors the guard at step i fails if and only if one of the first i - 1 results was falsy. |
| WorkflowRuns.CompletedRunsAgainExactly | packages/steveo/src/runtime/workflow.ts:319-330 | A delivery to a completed workflow that kept its row executes the last step again if and only if the first n - 2 results were truthy. |
| WorkflowRuns.ResultsArePrefix | packages/steveo/src/runtime/workflow.ts:319-346 | The results of a reachable row without errors are those of the steps before its pointer, or of all steps once completed, the last with what it returned last. |
| WorkflowRuns.FailedRowOnlyRollsBack | packages/steveo/src/runtime/workflow.ts:293-297 | Deliveries to a row with an error have no effect but rollback calls. |
| WorkflowRuns.FailureIsPermanent | packages/steveo/src/runtime/workflow.ts:293-297 | Once a committed row holds an error, no later deliveries execute a step for it, delete it or change its errors. |
| WorkflowInputs.NextExecutesOnce | packages/steveo/src/runtime/workflow.ts:311-330 | A delivery commits one execution of a workflow at most, of the payload delivered. |
| WorkflowInputs.StepsRunOnPublished | packages/steveo/src/runtime/workflow.ts:311-330 | However often and in whatever order a workflow's own messages are delivered, each step but the first runs on a message that carries the result of an earlier one. |
| WorkflowInputs.AdvancesExactly | packages/steveo/src/runtime/workflow.ts:269-354 | A stored workflow executes a step, and commits it, if and only if the message names it and its row has no errors, is of this service, passes the order guard, the step returns, and the next message is published or the rollback does not throw. |
| WorkflowInputs.NewestMessage | packages/steveo/src/runtime/workflow.ts:157-162 | The result carried by the message for a reachable row's step is the one the step before stored. |
| WorkflowInputs.ComposedExactly | packages/steveo/src/runtime/workflow.ts:157-162 | Over any deliveries, each step runs on a message carrying the result of the step before it if and only if every delivery that can advance the row as it stands, past the first step and before completion, carries what that step stored. |
| WorkflowShared.SharedStepsRunInOrder | packages/steveo/src/runtime/workflow.ts:269-278 | Over any deliveries to any definitions sharing the store, a workflow's steps execute in order, as long as no other definition is sent its id while it has a step of the name the row has come to. |
| WorkflowShared.ForeignDisturbsExactly | packages/steveo/src/runtime/workflow.ts:269-278 | Such a message changes the row or what has executed if and only if its definition has a step of that name and the delivery does not throw. |
| WorkflowShared.ForeignCompletes | packages/steveo/src/runtime/workflow.ts:275-278 | The instance: a definition whose only step shares the name completes the workflow out of order. |
| WorkflowFold.RepeatRunsNextStep | packages/steveo/src/runtime/workflow.ts:269-354 | A repeat of an earlier message executes the current step on it, and what is stored and published is what that step makes of it. |
| WorkflowFold.GuardAt | packages/steveo/src/runtime/workflow.ts:319-326 | On the fold of the first k steps the guard at step k passes exactly when the first k - 1 results are truthy. |
| WorkflowFold.DeliverStep | packages/steveo/src/runtime/workflow.ts:305-354 | One delivery extends the fold by one step and publishes exactly the input of the next. |
| WorkflowFold.DriveStage | packages/steveo/src/runtime/workflow.ts:128-163 | After k messages the store holds the fold of the first k steps, and the inbox step k's input. |
| WorkflowFold.InputCarries | packages/steveo/src/runtime/workflow.ts:157-162 | Each step's input in the direct composition carries the result of the step before it. |
| WorkflowFold.RunsOnInput | packages/steveo/src/runtime/workflow.ts:311-330 | In the run driven by its own messages, delivery k executes step k on that input, and returns its output. |
| WorkflowFold.FalsyStops | packages/steveo/src/runtime/workflow.ts:319-326 | A falsy result of step j stops the workflow at step j + 2, unfinished. |
| WorkflowFold.RunIsFold | packages/steveo/src/runtime/workflow.ts:305-354 | With steps that return, n messages finish an n-step workflow with the results of direct composition if and only if the first n - 2 results are truthy. |
| WorkflowRollback.UndoOne | packages/steveo/src/runtime/workflow.ts:293-297 | A delivery to a failed row at step j calls j's handler j + 1 times and moves to step j - 1. |
| WorkflowRollback.FailOne | packages/steveo/src/runtime/workflow.ts:355-367 | The delivery in which step k fails, by a foreign service id, the order guard, a throw or a failing publish, stores the error and rolls step k back at once. |
| WorkflowRollback.RollsBackToFirst | packages/steveo/src/runtime/workflow.ts:385-415 | j + 1 deliveries take a failed workflow from step j to completion, steps in reverse. |
| WorkflowRollback.FailureRollsBack | packages/steveo/src/runtime/workflow.ts:355-416 | However step k fails, that delivery and k more complete the workflow with that one error, with all rollback calls and nothing else in between. |
| WorkflowRollback.RollbacksDescend | packages/steveo/src/runtime/workflow.ts:385-415 | No call of a step's handler follows one of an earlier step's, and none is of a step after the failed one. |
| WorkflowRollback.RollbackTotal | packages/steveo/src/runtime/workflow.ts:385-415 | Handlers on all steps run (k + 1)(k + 2) / 2 times in all. |
| WorkflowRollback.RollbackCount | packages/steveo/src/runtime/workflow.ts:385-415 | Step j's handler runs j + 1 times if j is no later than the failed step, and else never. |
| WorkflowRollback.RolledBackOnceExactly | packages/steveo/src/runtime/workflow.ts:370-389 | Each handler runs once, as the comment has it, if and only if no step after the first up to the failed one has a handler. |
| SchedulerModel.NeverBoth | packages/scheduler-sequelize/src/models/job.ts:107-149 | No row is ever blocked and laggy at once, nulls included. |
| SchedulerModel.RetryDelayBound | packages/scheduler-sequelize/src/helpers.ts:139-144 | A delay is the jittered share of backoff times 2 to the attempt, to the nearest millisecond, and lies between 0 and the whole of it. |
| SchedulerModel.Pow2Doubles | packages/scheduler-sequelize/src/helpers.ts:139-144 | The factor is 1 for the first failure and 2 for the second, and multiplies over attempts. |
| SchedulerModel.SaveAgreeing | packages/scheduler-sequelize/src/helpers.ts:122-201 | Through an instance that still agrees with its row, starting, finishing and failing write all they set. |
| SchedulerModel.DueAgainExactly | packages/scheduler-sequelize/src/helpers.ts:146-201 | A finished job can be claimed again exactly after its next run, or after its last if it has no next, a failed one exactly when it is restarted and after its delay. |
| SchedulerModel.ClaimedAgainExactly | packages/scheduler-sequelize/src/helpers.ts:181-201 | A repeating job that has been claimed, accepted and finished is due again exactly after its next run, or at once if its rule has no occurrence within six months. |
| SchedulerModel.MaintainSpares | packages/scheduler-sequelize/src/maintenance.ts:78-150 | A pass, broken off or not, leaves alone every row in neither scope. |
| SchedulerModel.MaintainFrees | packages/scheduler-sequelize/src/maintenance.ts:78-119 | A complete pass frees every safe row in either scope, due at once. |
| SchedulerModel.SweepBound | packages/scheduler-sequelize/src/maintenance.ts:78-119 | A safe row still queued after a pass was claimed, accepted or finished too recently to be freed. |
| SchedulerModel.NotifiedAfter | packages/scheduler-sequelize/src/maintenance.ts:122-156 | The earlier statements of a pass change which laggy jobs are reported only by freeing the safe ones. |
| SchedulerModel.LeftSilentExactly | packages/scheduler-sequelize/src/maintenance.ts:108-157 | A laggy job is neither changed nor reported by a complete pass if and only if it is not safe to restart and is the maintenance job, or has a restart rule that has run out or cannot be applied. |
| SchedulerModel.SilentForGood | packages/scheduler-sequelize/src/maintenance.ts:135-144 | Once the restart rule of such a job has run out, no later pass changes or reports it. |
| SchedulerPasses.PassExactly | packages/scheduler-sequelize/src/maintenance.ts:76-150 | What each statement of a pass, complete or broken off, makes of a row, from the row's columns: safe jobs never accepted or never finished are due at once, risky ones never accepted and others with a running restart rule wait for their next run, and no other row changes. |
| SchedulerPasses.RiskyUnqueuedExactly | packages/scheduler-sequelize/src/maintenance.ts:91-102 | A complete pass unqueues a job that is risky, not safe and was never accepted if and only if it repeats and its next run can be computed; it then waits for that run, or keeps its date where there is none. |
| SchedulerPasses.NotifiedExactly | packages/scheduler-sequelize/src/maintenance.ts:122-156 | A pass reports exactly the jobs never finished that are not safe, have no restart rule and are not the maintenance job. |
| SchedulerPasses.RiskySweepInRuns | packages/scheduler-sequelize/src/maintenance.ts:91-102 | In every run, punctual or not, a risky job that is still queued after a complete pass was claimed within the blocked time, or accepted since its claim, or is a one-shot, or its next run cannot be computed; one not accepted since is still queued exactly then. |
| SchedulerStore.JobTable.FetchAndEnqueueJobs | packages/scheduler-sequelize/src/enqueue_jobs_query.ts:9-36 | Claims due, unqueued, undeleted rows of its names and namespace it can lock, up to the limit and no fewer than it could, queued and stamped; others are untouched. |
| SchedulerStore.JobTable.UpdateStartTask | packages/scheduler-sequelize/src/helpers.ts:122-129 | Stamps acceptance on the instance and its row, if there still is one. |
| SchedulerStore.JobTable.UpdateFinishTask | packages/scheduler-sequelize/src/helpers.ts:181-201 | Destroys a one-shot job, reschedules a repeating one with its failures cleared, as far as that differs from the instance and there is a next run, and changes nothing when computing one throws. |
| SchedulerStore.JobTable.UpdateFailure | packages/scheduler-sequelize/src/helpers.ts:146-179 | Counts a failure from what was loaded, column by column, and re-queues only safe jobs below the limit, after their delay; a row that is gone stays gone. |
| SchedulerStore.JobTable.RunTimestamped | packages/scheduler-sequelize/src/helpers.ts:215-263 | Start, then finish or failure, whatever others have done to the table in between; a finish that throws counts as a failure. |
| SchedulerStore.JobTable.FreeSafe | packages/scheduler-sequelize/src/maintenance.ts:78-89 | The bulk updates of blocked and of laggy safe jobs. |
| SchedulerStore.JobTable.ResetJob | packages/scheduler-sequelize/src/maintenance.ts:15-30 | A one-shot job, or one whose next run cannot be computed, is left alone; any other is unqueued until its next run, or at once if it has none. |
| SchedulerStore.JobTable.ResetAll | packages/scheduler-sequelize/src/maintenance.ts:98-102 | Each listed row is reset, one failing reset not stopping the others. |
| SchedulerStore.JobTable.ResetBlockedJobs | packages/scheduler-sequelize/src/maintenance.ts:91-102 | Blocked risky jobs move to their next run. |
| SchedulerStore.JobTable.SortLaggy | packages/scheduler-sequelize/src/maintenance.ts:122-144 | Splits the laggy jobs left over into those whose own restart rule has not run out and those with no rule. |
| SchedulerStore.JobTable.ResetLaggyJobs | packages/scheduler-sequelize/src/maintenance.ts:122-157 | Resets the first kind and reports the second. |
| SchedulerStore.JobTable.MaintainBlockedJobs | packages/scheduler-sequelize/src/maintenance.ts:76-102 | The first half of a pass, up to whichever statement fails. |
| SchedulerStore.JobTable.MaintainLaggyJobs | packages/scheduler-sequelize/src/maintenance.ts:104-157 | The second half, and the laggy jobs it reports. |
| SchedulerStore.JobTable.Maintenance | packages/scheduler-sequelize/src/maintenance.ts:44-161 | A pass, up to whichever statement fails, is one function of each row; a complete one reports exactly the laggy jobs with no restart rule that it did not free. |
| SchedulerLoop.Scheduler.RunBatch | packages/scheduler-sequelize/src/index.ts:361-378 | Every job of a known task runs once, in order, whatever throws; unknown tasks run nothing. |
| SchedulerLoop.Scheduler.PublishMessages | packages/scheduler-sequelize/src/index.ts:351-385 | All batches run, and the scheduler is left idle; no rows, no change. |
| SchedulerLoop.Scheduler.QueueScheduledJobs | packages/scheduler-sequelize/src/index.ts:387-406 | A terminating scheduler claims and runs nothing; a failing query is passed on. |
| SchedulerLoop.ClaimedRunOnce | packages/scheduler-sequelize/src/index.ts:351-385 | A claim runs each claimed job's task exactly once and nothing else. |
| SchedulerLoop.CallsInOrder | packages/scheduler-sequelize/src/index.ts:361-378 | The batches run one after the other in the order of the rows, each batch's jobs in theirs. |
| SchedulerLease.TermsSuffice | packages/scheduler-sequelize/src/models/job.ts:107-149 | Accepting within the blocked time and ending within the lag keeps the deadline, given a strictly later acceptance or a lag no longer than blocked. |
| SchedulerLease.SweptExactly | packages/scheduler-sequelize/src/models/job.ts:107-149 | A held row falls into a scope exactly when its lease has run out. |
| SchedulerLease.ClaimInv | packages/scheduler-sequelize/src/enqueue_jobs_query.ts:10-36 | A claim never takes a job somebody holds. |
| SchedulerLease.FailTally | packages/scheduler-sequelize/src/helpers.ts:146-179 | A failure keeps the count of re-queues and their total delay in step with the row's failures. |
| SchedulerLease.SweepInv | packages/scheduler-sequelize/src/maintenance.ts:76-150 | A pass takes back no job whose lease is running. |
| SchedulerLease.NextInv | packages/scheduler-sequelize/src/maintenance.ts:76-150 | Every step of any scheduler, and every pass, keeps leases exclusive while none has run out. |
| SchedulerLease.AtMostOneHolder | packages/scheduler-sequelize/src/models/job.ts:107-149 | In every punctual run each job has at most one holder, and a held job is queued. |
| SchedulerLease.RetriesAreCounted | packages/scheduler-sequelize/src/helpers.ts:139-201 | In every punctual run a safe job has been re-queued min(failures, maxRestartsOnFailure) times since its failures were zeroed and any other job never; the delays sum to at most backOffMs times 2 to the maximum, less one. |
| SchedulerLease.RowsRun | packages/scheduler-sequelize/src/helpers.ts:122-201 | In every run, punctual or not, and through instances however stale, a queued row has been claimed and no timestamp is in the future. |
| SchedulerLease.SweepBoundInRuns | packages/scheduler-sequelize/src/maintenance.ts:78-119 | In every run, punctual or not, a safe job still queued after a complete pass was claimed within the blocked time, or accepted or finished within the lag. |
| SchedulerLease.SweepBoundPunctual | packages/scheduler-sequelize/src/maintenance.ts:78-119 | In every punctual run it was claimed within the blocked time or accepted within the lag. |
| SchedulerLease.FinishUnqueuesExactly | packages/scheduler-sequelize/src/helpers.ts:190-200 | Finishing unqueues a row if and only if the instance was loaded while queued or the row is not queued; a stale holder otherwise leaves it queued and finished after its claim. |
| SchedulerLease.DoubleClaimExactly | packages/scheduler-sequelize/src/maintenance.ts:76-119 | A held safe job can be claimed a second time after the next pass if and only if its lease has run out. |
| Middleware.Dispatcher.constructor | packages/steveo/src/middleware.ts:5 | Dispatching starts from index -1. |
| Middleware.Dispatcher.Guard | packages/steveo/src/middleware.ts:7-16 | A call at or below the index is rejected and changes nothing; any other raises the index to it and starts its function, if there is one. |
| Middleware.Dispatcher.Dispatch | packages/steveo/src/middleware.ts:3-29 | With middlewares that call next once, the index-guarded dispatcher gives the outcome and the enter and exit trace of plain nested composition. |
| Middleware.NextAtMostOnce | packages/steveo/src/middleware.ts:31-54 | Whatever the middlewares do with next, the calls that pass are 0, 1, ..., m, so each middleware and the handler start once at most, and nothing starts beyond a middleware without the method. |
| Middleware.PassesExactly | packages/steveo/src/middleware.ts:31-54 | Whatever the calls, one passes if and only if it goes further than every call before it, and it then starts its function if there is one. |
| Middleware.NestedExactly | packages/steveo/src/middleware.ts:31-54 | In the composition each middleware settles the outcome of the one inside it, the innermost that of the handler, or of nothing where a middleware lacks the method; the functions entered are exited in reverse, each with its outcome. |
| Middleware.NestedReaches | packages/steveo/src/middleware.ts:31-54 | In the composition the handler runs exactly when every middleware defines the method, and each middleware wraps all later ones. |
| SqsRunner.Runner.DeleteMessage | packages/steveo/src/consumers/sqs.ts:158-182 | Nothing is deleted without a receipt handle; a failing delete throws. |
| SqsRunner.Runner.Handle | packages/steveo/src/consumers/sqs.ts:101-150 | Deletes first, or only after a handler that ended well; a throw goes no further. `ActionsExactly` gives the whole list. |
| SqsRunner.Runner.ProcessMessage | packages/steveo/src/consumers/sqs.ts:88-156 | The message's actions are those of `ActionsExactly`; the resource is released whatever the handler or the delete does, and kept by a null payload, which throws. |
| SqsRunner.Runner.ReceiveOne | packages/steveo/src/consumers/sqs.ts:60-80 | A message rejects its batch when its body does not parse or the middlewares end in a throw, their own or one passed on. |
| SqsRunner.Runner.Receive | packages/steveo/src/consumers/sqs.ts:55-83 | Taken in any order, messages are worked off one after the other as `Started` lists them, and one resource stays held for each null payload among them. |
| SqsRunner.StartedAt | packages/steveo/src/consumers/sqs.ts:58-82 | Messages are started in the order they are taken, one after another only if that one does not reject. |
| SqsRunner.StartedStops | packages/steveo/src/consumers/sqs.ts:58-82 | A batch ends early only right after a message that rejects. |
| SqsRunner.PoolBalancesExactly | packages/steveo/src/consumers/sqs.ts:98-155 | In any interleaving of a batch, whatever fails, as many resources stay held as null payloads get one; releases balance acquires if and only if there is none. |
| SqsRunner.NullPayloadLeaks | packages/steveo/src/consumers/sqs.ts:98-101 | The instance: one message with the body `null` rejects, and its only action is the acquire. |
| SqsRunner.WaitRun | packages/steveo/src/consumers/sqs.ts:129-135 | With waitToCommit, every delete still to come is behind a handler that has ended well. |
| SqsRunner.DeletedWasHandled | packages/steveo/src/consumers/sqs.ts:108-135 | With waitToCommit, over any redeliveries and crashes, a deleted message has been handled well at least once. |
| SqsRunner.FirstRunInv | packages/steveo/src/consumers/sqs.ts:111-129 | Without waitToCommit, a handler still to start is behind a delete that takes effect. |
| SqsRunner.HandledAtMostOnce | packages/steveo/src/consumers/sqs.ts:111-129 | Without waitToCommit, each message's handler starts at most once, and only after it has been deleted. |
| SqsDeliveries.ActionsExactly | packages/steveo/src/consumers/sqs.ts:88-156 | All that is done with a message, in order, from its body, its task, the waitToCommit options, its receipt handle and how the pool, the delete and the handler end. |
| SqsDeliveries.ServedActions | packages/steveo/src/consumers/sqs.ts:111-131 | A message with a resource, a body, a task and no delete that throws before has its handler started exactly once and run to its end, with the one delete right before it, or with waitToCommit right after a good end. |
| SqsDeliveries.ServedExactly | packages/steveo/src/consumers/sqs.ts:111-129 | No other message's handler is started. |
| SqsDeliveries.DeletedExactly | packages/steveo/src/consumers/sqs.ts:108-131 | A delete that takes effect is made exactly of messages with a resource, a body and a receipt handle and, with waitToCommit, a handler that ends well. |
| SqsDeliveries.RejectsExactly | packages/steveo/src/consumers/sqs.ts:60-80 | A message rejects if and only if its body does not parse or the middlewares make a throw of how processMessage ends, which is by a throw only without a resource or for a null payload. |
| SqsDeliveries.LeakedExactly | packages/steveo/src/consumers/sqs.ts:58-99 | What a batch leaves held are the resources of the null payloads among the messages it starts. |
| SqsDeliveries.EndedTook | packages/steveo/src/consumers/sqs.ts:98-155 | A delivery that has come to its end without dying has had every one of its effects, whatever the others did in between. |
| SqsDeliveries.ServedIsHandled | packages/steveo/src/consumers/sqs.ts:111-131 | A message to be handled has been handled once its delivery has come to its end, and deleted if its delete takes effect and, with waitToCommit, its handler ended well. |
| SqsDeliveries.UnservedIsDeleted | packages/steveo/src/consumers/sqs.ts:111-118 | Without waitToCommit a message is deleted by then whether or not its task is known. |

## Left out

- KafkaRunner.Runner.ProcessBatch: nothing else happens to the runner while a batch settles; in `KafkaGroup` revokes, flushes and commits fall between its messages.
- KafkaRepeats.RevokeRepeatsExactly: revokes of all the partitions a runner holds; after one that leaves it some, a later batch can still catch up with what the flush missed.
- WorkflowRuns.StepsRunInOrder: deliveries to one definition; `WorkflowShared` has any number of them over one store.
- SqsRunner.Runner.Receive: one message at a time, as with a `workerConfig.max` of 1; a larger one is covered by `PoolBalancesExactly` and by the interleaved deliveries of the queue, not by the method.
- Queries on single rows that fail inside the timestamp helper.
- Client libraries (librdkafka, AWS SDK, rsmq, Prisma, Sequelize, Bluebird, generic-pool): only the assumptions above.
- Messages' keys and values, JSON parsing, registry events, logging, timers, sleeps, connections and health checks.
- A terminating Kafka runner's disconnect: in the group it is a revoke, with its flush, followed by a crash.
- Workflow transactions that interleave on one row: deliveries are taken one after the other.
- The state passed to rollback handlers and the copy of the results kept in memory during one delivery; neither reaches the store.
- `Workflow.publish` with arrays of payloads and routing options, and `formatTopicName`: publishing to the first step is a delivery without an id.
- Results that cannot be stored as JSON; timestamps of a workflow row (`started`, and when it was `completed`).
- Recurrence rules: the next run is an arbitrary time, or none where computing it throws.
- Tasks published to a queue by the scheduler, and tasks not wrapped with the timestamp helper: their leases are never ended by the wrapper.
- `packages/scheduler-prisma`: a near twin whose scopes and one-shot finish differ.
- The Redis consumer, producers, registry, manager and telemetry packages.
