# Ora: a verified model of execution dispatch

Ora is a job scheduler: jobs wait in backend tables, servers offer the due executions of these jobs to
connected executors, record what the executors accept and report, retry failures, and create the next
jobs of schedules. This project models that protocol in Dafny and proves what it keeps true.

The parts, from the inside out:

- `Tables`, `TableInvariants`, `TableRuns`: the job, execution and schedule rows, every transaction on
  them as a function, and what single transactions and whole runs of transactions keep. `Backend` is the
  imperative form: a class whose methods change the rows one by one, each proved to have exactly the
  effect of its transaction, and `TableColumns` says what each transaction writes, column by column.
- `JobFilters`, `Keyset`, `JobPages`: the optimised status filter, selecting and counting jobs, and
  keyset paging in six orders. `ReadyStream`: the paged streams of ready executions and of executions in
  progress, whose pages are read from tables that change in the meantime.
- `PoolModel`: the executor pool as the rest of the server sees it. `PoolState` and `ExecutorPools` are
  the pool itself: a class over nested vectors, with every message handler. `Offering` says which
  executions a pass offers.
- `Dispatch`: a transition system over the tables, the pool, the two channels, the fetch time and the
  clock. `Acceptance`, `Progress` and `Attempts` prove the three protocol properties over all of its runs,
  `PoolSteps` and `ServerLoops` connect the imperative code to its steps, and `DoubleRetry` has the runs
  that show which properties do not hold without a condition.
- `ScheduleTimes`, `ScheduleRuns`: the arithmetic of execution times, and the scheduling loop.
  `RetryBackoff`: retry delays. `WaitGroups`, `JobTypeIds`: two smaller parts of the same repository.

Identifiers are drawn from one increasing counter, as version 7 UUIDs are. Times are integer
nanoseconds. Each SQL transaction is one atomic step, and so is what a loop does while it holds the lock
of the pool. Clocks, random orders, time-outs and the outcome of calls are parameters or are chosen
freely by the steps.

## Findings

- **A batch of retries that names a job twice breaks the tables.** `executions_retried` checks against
  the database that a job is still active by job id only (`crates/ora-backend-postgres/src/lib.rs:1119-1127`).
  If one entry of a batch is stale, and another entry names the active execution of the same job, both add
  an execution: the job has two active executions, and can exceed its retries. The loops can make such a
  batch: the timeouts loop retries an execution of a disconnected executor while the disconnect event is
  still queued, and the events loop later handles that event together with the failure of the retry.
  `DoubleRetry.AttemptBoundCanFail` is that run. `TableInvariants.RetriedValidIff` and
  `TableRuns.RunValidIff` give the exact condition, which is one that the caller can check: each job with an
  execution failed by the batch is named by exactly one of its entries. `Attempts.RunAgreesIff` is
  the same for whole runs of the protocol, with the attempt bound, and `Attempts.RetriedAttempts` gives the exact
  number of executions that any batch adds.
- **An inactive job is not final then.** When one of two active executions of a job finishes, the job is marked
  inactive while the other goes on. `DoubleRetry.InactiveJobCanChange` continues such a run: if the other one fails,
  it is retried although the job is inactive, or the stored status is overwritten. From any tables,
  `TableRuns.ApplySparesIff` gives the exact condition for one transaction, and
  `TableRuns.InactiveJobsAreFinalIff` for runs: none marks an inactive job again with something else, and no retried
  entry with a failed execution names an inactive job. At most one job of a schedule is active in all runs
  nevertheless (`TableRuns.OneActiveJob`).
- The exponential backoff multiplies by at most the largest `u32`. It equals the unbounded one if and only if
  the condition of `RetryBackoff.BackoffIsIdealIff` holds.
- Deleting history keeps the tables valid as well: the migrations delete executions with their job, and
  only finished jobs are deleted.

## Model

| member | source | states |
|---|---|---|
| Acceptance.AcceptedAtMostOnce | crates/ora-server/src/executor_pool.rs:240-252 | over every run of all loops, executors and transactions, no two acceptances sent to be started are of the same execution: it is accepted by one executor at most, once |
| Acceptance.PurgeKeepsOnce | crates/ora-server/src/executor_pool.rs:240-244 | forgetting the accepted executions that were started before the batch was fetched keeps it impossible to offer an accepted execution again |
| Acceptance.FetchKeepsOnce | crates/ora-server/src/server/executions.rs:42-51 | a batch fetched after its fetch time was taken contains no accepted execution that the pool has forgotten or will forget |
| Acceptance.OfferKeepsOnce | crates/ora-server/src/executor_pool.rs:258-342 | offering an execution, with or without the handshake, keeps the protocol from accepting any execution twice |
| Acceptance.AcceptKeepsOnce | crates/ora-server/src/executor_pool.rs:1043-1105 | accepting an offer keeps the protocol from accepting any execution twice |
| Acceptance.FinishStartsKeepsOnce | crates/ora-server/src/executor_pool.rs:373-386 | the time recorded for started executions is not before the fetch time of a batch that still has them |
| Acceptance.StartedNotPending | crates/ora-server/src/server/executions.rs:440-446 | after the call that starts them, executions are not pending, whether or not that call started them |
| Progress.InProgressIsNotLost | crates/ora-server/src/server/executions.rs:502-518 | in every reachable state an execution in progress is held as accepted by the executor it was started for, or its result is queued or being handled, or that executor left the pool or is about to be dropped |
| Progress.AtMostOneResult | crates/ora-server/src/executor_pool.rs:1146-1172 | over every run each execution has at most one result, reported or of a disconnect, only after it was accepted, and none while an executor still holds it |
| Progress.CancelledHasNoResult | crates/ora-server/src/executor_pool.rs:563-597 | an acceptance that ends by cancelling it in the pool, or by an invalid timestamp, never has a result, neither before nor in any later state |
| Progress.ReleasedForGood | crates/ora-server/src/executor_pool.rs:1138-1236 | once no executor holds an accepted execution anymore, none holds it again and no further result is sent for it, in any later state |
| Progress.OrphanIsFinished | crates/ora-server/src/server/executions.rs:502-581 | once the call of a scan for an execution has committed, the execution is not active in any later state |
| Progress.GoneStaysGone | crates/ora-server/src/executor_pool.rs:1253-1265 | an executor that left the pool is never in it again |
| Progress.NotStartedIsInactive | crates/ora-server/src/server/executions.rs:448-467 | an accepted execution that a start call does not return is finished or gone, so cancelling it in the pool loses nothing |
| Progress.StartedWasAccepted | crates/ora-backend-postgres/src/lib.rs:960-979 | what a start call leaves in progress was accepted by the executor it is started for |
| Progress.CallFinishes | crates/ora-server/src/server/executions.rs:631-700 | the succeeded, failed and retried calls leave none of the executions they are made for active |
| Progress.DropKeepsTraced | crates/ora-server/src/executor_pool.rs:1253-1265 | a dropped executor leaves every execution it had accepted with a result or finished |
| Progress.CancelKeepsTraced | crates/ora-server/src/executor_pool.rs:563-597 | cancelling in the pool takes away only executions that are not active |
| Attempts.AttemptsAreBounded | crates/ora-server/src/server/executions.rs:640-668 | over every run whose retried batches name each job with a failed execution once, a job never has more than retries + 1 executions |
| Attempts.RunAgreesIff | crates/ora-backend-postgres/src/lib.rs:1119-1127 | over every run the tables are valid, the carried attempt numbers right and all jobs within their retries in every state, if and only if every retried batch is clean |
| Attempts.RetriedBoundedIff | crates/ora-backend-postgres/src/lib.rs:1119-1127 | any retried batch keeps a job within its retries if and only if none of its executions failed or the entries naming it still fit |
| Attempts.HeldAttemptIsCount | crates/ora-backend-postgres/src/lib.rs:681 | in such runs the attempt number held with an active execution is the number of executions of its job |
| Attempts.RetriedAttempts | crates/ora-backend-postgres/src/lib.rs:1119-1127 | the exact number of executions any batch adds to any job: one for each entry that names it, if the batch failed one of its executions |
| Attempts.RetriedWithinBound | crates/ora-server/src/server/executions.rs:640-656 | a job that has an execution failed by a retried batch still has retries left |
| DoubleRetry.AttemptBoundCanFail | crates/ora-backend-postgres/src/lib.rs:1119-1127 | a run of the protocol from the empty state after which a job with two retries has four executions, two of them active |
| DoubleRetry.InactiveJobCanChange | crates/ora-backend-postgres/src/lib.rs:1119-1127 | a run of the protocol from the empty state to a job that is marked as succeeded while another execution of it is active; the next call adds an execution to the inactive job, or marks it as failed |
| ExecutorPools.ExecutorPool.constructor | crates/ora-server/src/executor_pool.rs:123-140 | a new pool is empty |
| ExecutorPools.ExecutorPool.AddExecutor | crates/ora-server/src/executor_pool.rs:174-213 | adds an executor without queues |
| ExecutorPools.ExecutorPool.HasCapacity | crates/ora-server/src/executor_pool.rs:151-158 | whether any queue of any executor has capacity |
| ExecutorPools.ExecutorPool.TryOffer | crates/ora-server/src/executor_pool.rs:225-345 | for every shuffle: offers exactly the chosen executions of the batch, in order, to executors in the pool, returns the others, the two numbers adding up to the batch, changes the view by nothing but the purge and these offers, and sends each executor exactly the offers made to it |
| ExecutorPools.ExecutorPool.OfferToSome | crates/ora-server/src/executor_pool.rs:264-340 | offers an execution if and only if an executor that can be reached has a queue for its type with room and no backoff, sends it to that executor and nothing to others, and takes one place for that type only |
| ExecutorPools.ExecutorPool.OfferAt | crates/ora-server/src/executor_pool.rs:275-333 | the executor is sent one message with the execution, which is the last of its queue then: offered with 30 seconds to answer, or without the handshake accepted and sent to be started at once; no other executor changes |
| ExecutorPools.ExecutorPool.OfferPass | crates/ora-server/src/server/executions.rs:42-89 | a whole pass changes the pool exactly as offering the batches it took as one would, by the purge and the offers, sends each executor its offers in order, and returns the executions of these batches that it did not offer; it stops early exactly at a saturated pool, and offers what offering all batches as one would |
| ExecutorPools.OfferedOrIgnored | crates/ora-server/src/server/executions.rs:74-75 | each execution of the batches is either offered or returned as ignored, never both, and which of the two is decided by its type, its place and the capacity |
| ExecutorPools.ExecutorPool.InFlightExecutionIds | crates/ora-server/src/executor_pool.rs:352-370 | exactly the executions held as offered, and those remembered as accepted without a start time |
| ExecutorPools.ExecutorPool.AcceptedExecutionsStarted | crates/ora-server/src/executor_pool.rs:373-386 | sets the start time of those of the executions that are remembered as accepted to the current one, and of no others |
| ExecutorPools.ExecutorPool.AcceptedExecutionsNotStarted | crates/ora-server/src/executor_pool.rs:390-400 | forgets exactly the given accepted executions |
| ExecutorPools.ExecutorPool.StartPending | crates/ora-server/src/executor_pool.rs:416-425 | whether any of the executions is accepted but not started |
| ExecutorPools.ExecutorPool.CancelExecutionIds | crates/ora-server/src/executor_pool.rs:563-597 | takes exactly the given executions from whichever executors hold them, and sends each executor a message for each one that it held, in order and once, and nothing else |
| ExecutorPools.ExecutorPool.CancelOne | crates/ora-server/src/executor_pool.rs:567-591 | the execution is swap-removed from the one queue that holds it, and its executor is told so |
| ExecutorPools.ExecutorPool.WithdrawOffers | crates/ora-server/src/executor_pool.rs:676-709 | takes from an executor exactly its unanswered offers, only the expired ones if a time is given, counts them, sends a message for each in order, and backs off the queues with expired ones; what it accepted and the other executors stay |
| ExecutorPools.ExecutorPool.WithdrawQueue | crates/ora-server/src/executor_pool.rs:679-705 | what is left of a queue, in order, that only expired offers count as a rejection, and which messages are sent |
| ExecutorPools.ExecutorPool.Capabilities | crates/ora-server/src/executor_pool.rs:974-1038 | the first message announces the job types if there are any, sets an empty queue for each entry with its type and maximum, and loses no execution; a second or invalid one drops the executor |
| ExecutorPools.ExecutorPool.ExecutionAccepted | crates/ora-server/src/executor_pool.rs:1043-1106 | an offered execution becomes accepted, remembered and sent to be started at the time it was offered, and its queue is not backed off; a withdrawn one is cancelled, and one accepted before is left alone |
| ExecutorPools.ExecutorPool.ExecutionRejected | crates/ora-server/src/executor_pool.rs:1107-1137 | an offered execution leaves the pool and its queue is backed off, an accepted or unknown one is left alone |
| ExecutorPools.ExecutorPool.ExecutionCompleted | crates/ora-server/src/executor_pool.rs:1138-1236 | an accepted execution leaves with one result, at the earlier of the reported and the current time; with an invalid timestamp it leaves without one and the executor is to be dropped; an unaccepted one leaves without a result |
| ExecutorPools.ExecutorPool.DropExecutor | crates/ora-server/src/executor_pool.rs:1253-1265 | removes the executor and all it holds, and sends exactly the executions it accepted, each once |
| ExecutorPools.ExecutorPool.Receive | crates/ora-server/src/executor_pool.rs:960-971 | the executor of a message, which is dropped if it cannot be reached |
| ExecutorPools.RejectionBackoffDoubles | crates/ora-server/src/executor_pool.rs:758-766 | the backoff is one second after the first rejection in a row, doubles with each further one, and is at most 30 seconds; saturation never shows |
| ExecutorPools.RejectedColumns | crates/ora-server/src/executor_pool.rs:740-766 | a rejected queue is full to offers for its backoff, and offers depend on its room alone 30 seconds later; its executions stay |
| ExecutorPools.AllRemovedAre | crates/ora-server/src/executor_pool.rs:682-700 | the executions whose executor is told that an offer is withdrawn are exactly its unanswered offers, or those whose deadline has passed if a time is given |
| ExecutorPools.WithdrawnColumns | crates/ora-server/src/executor_pool.rs:682-704 | a queue keeps what is not withdrawn, and is backed off once if offers of it expired |
| PoolState.AddedToQueueValid | crates/ora-server/src/executor_pool.rs:746-748 | adding an execution that nobody holds to a queue that is not full keeps every execution in one place, every queue within its maximum and executor ids distinct |
| PoolState.RemovedValid | crates/ora-server/src/executor_pool.rs:665-668 | swap-removing an execution keeps the same, and takes away that execution only |
| PoolState.RetainedValid | crates/ora-server/src/executor_pool.rs:682-700 | retaining the other executions keeps the same, and takes away the removed ones only |
| PoolState.DroppedValid | crates/ora-server/src/executor_pool.rs:1258-1262 | swap-removing an executor keeps the same, and takes away what it held only |
| PoolState.AssignedOnce | crates/ora-server/src/executor_pool.rs:632-639 | no record is listed twice among the assigned executions of an executor |
| Offering.FirstAreChosen | crates/ora-server/src/executor_pool.rs:258-342 | for each job type, the offered executions are exactly the first of those nobody holds, as many as there is free capacity for |
| Offering.HigherPriorityFirst | crates/ora-server/src/executor_pool.rs:258-342 | over a whole stream, no execution is offered while one of its type with a higher priority, or an equal one and a lower id, is left |
| Offering.NoInversion | crates/ora-server/src/executor_pool.rs:258-342 | no execution is offered while an earlier one of its type, which nobody holds, is left |
| Offering.ChosenByCount | crates/ora-server/src/executor_pool.rs:264-340 | an execution is offered if and only if nobody holds it and fewer executions of its type that nobody holds came before it than there is capacity for |
| Offering.ChosenConcat | crates/ora-server/src/server/executions.rs:57-89 | offering two batches one after the other is offering their concatenation |
| Offering.NothingChosen | crates/ora-server/src/server/executions.rs:79-83 | without free capacity nothing is offered |
| Offering.SaturatedIsFull | crates/ora-server/src/executor_pool.rs:151-158 | a pool without capacity has no free capacity for any type |
| PoolSteps.TryOfferIsRun | crates/ora-server/src/executor_pool.rs:225-345 | offering a batch, or all batches of a pass, is a run of the protocol |
| PoolSteps.WithdrawalIsRun | crates/ora-server/src/executor_pool.rs:676-709 | withdrawing several offers is a run of the protocol |
| ServerLoops.SplitRetries | crates/ora-server/src/server/executions.rs:634-668 | retries exactly the executions that have retries left, each at the current time plus the backoff of its attempt, and fails exactly the others at the time they failed |
| ServerLoops.RetriesAreCall | crates/ora-server/src/server/executions.rs:648-656 | the retried batch is a call that the protocol allows for the records it is made from |
| ServerLoops.FailuresAreCall | crates/ora-server/src/server/executions.rs:657-667 | the failed batch is a call that the protocol allows for the records it is made from |
| ServerLoops.CollectResults | crates/ora-server/src/server/executions.rs:295-360 | the successes are exactly the results reported as successful with a valid output, at the reported time; what may be retried is exactly the failures and invalid outputs at their time, and what a disconnected executor had accepted at the current time |
| ServerLoops.NoResultIsLost | crates/ora-server/src/server/executions.rs:300-380 | each result of the events is counted once, as a success or as a possible retry |
| ServerLoops.ResultIsHandled | crates/ora-server/src/server/executions.rs:300-380 | each result of the events is among the successes, or among the possible retries with its own record |
| ServerLoops.NotStarted | crates/ora-server/src/server/executions.rs:448-463 | exactly the executions that were not started; comparing the numbers first is exact |
| ServerLoops.ScanPage | crates/ora-server/src/server/executions.rs:505-545 | collects exactly the executions of executors that are gone, and of the others exactly those that run longer than their timeout, from the target time of the job or from the start of the execution, as their policy says |
| ServerLoops.ReadyRowIsFetched | crates/ora-backend-postgres/src/lib.rs:737-751 | the rows of the ready stream describe pending executions of the tables they were read from |
| ServerLoops.InProgressRowIsScanned | crates/ora-backend-postgres/src/lib.rs:915-931 | the rows of the in-progress stream describe executions in progress of the tables they were read from |
| ReadyStream.ReadyExecutions | crates/ora-backend-postgres/src/lib.rs:659-760 | every row yielded is of an execution that is pending, due and not ignored when its page is read, with the columns of the execution and its job and the number of executions as attempt; the pages follow the cursor until one is empty |
| ReadyStream.ReadyStreamIsSound | crates/ora-backend-postgres/src/lib.rs:700-735 | over changing tables, priorities never rise within a stream, ids rise within a priority, and no execution is yielded twice |
| ReadyStream.ReadyStreamIsComplete | crates/ora-backend-postgres/src/lib.rs:659-760 | an execution that is pending, due and not ignored whenever a page is read has been yielded when the stream ends |
| ReadyStream.InProgressExecutions | crates/ora-backend-postgres/src/lib.rs:838-930 | every row yielded is of an execution in progress, with its executor and start time, and the target time, timeout and retries of its job; the pages go by id until one is empty |
| ReadyStream.InProgressStreamIsComplete | crates/ora-backend-postgres/src/lib.rs:843-943 | a scan that ends has yielded every execution that was in progress whenever a page was read |
| Backend.PostgresBackend.constructor | crates/ora-backend-postgres/migrations/V1__initial_migration.sql:58-80 | the empty tables are valid |
| Backend.PostgresBackend.ExecutionsStarted | crates/ora-backend-postgres/src/lib.rs:945-1006 | starts exactly the pending executions, and those already started by the same executor, and returns each of them once |
| Backend.PostgresBackend.FinishExecutions | crates/ora-backend-postgres/src/lib.rs:1393-1450 | finishes exactly the active executions of the batch, and returns a time for each of their jobs |
| Backend.PostgresBackend.MarkJobsInactive | crates/ora-backend-postgres/src/lib.rs:1535-1598 | marks the jobs, frees the schedules they are active for, and says whether there were any |
| Backend.PostgresBackend.ExecutionsFinished | crates/ora-backend-postgres/src/lib.rs:1008-1092 | finishes the active executions and marks exactly their jobs, keeping the tables valid |
| Backend.PostgresBackend.AddExecutions | crates/ora-backend-postgres/src/lib.rs:1479-1530 | adds for each new execution whose job is kept a pending row of that job, with its own target time, the priority of the job, and no executor or times |
| Backend.PostgresBackend.ExecutionsRetried | crates/ora-backend-postgres/src/lib.rs:1094-1134 | fails the active executions of the batch and adds one for each entry whose job had one failed; valid tables stay valid if and only if the batch is clean |
| Backend.PostgresBackend.ClaimSchedules | crates/ora-backend-postgres/src/lib.rs:270-311 | each pending schedule of the batch gets one of its new jobs, other schedules stay as they are |
| Backend.PostgresBackend.AddJobs | crates/ora-backend-postgres/src/lib.rs:240-432 | returns the existing jobs if the filters select any and changes nothing then, else adds the jobs without schedule and those that claimed theirs, each with a pending execution, and returns exactly these in order |
| Backend.PostgresBackend.CancelJobs | crates/ora-backend-postgres/src/query/jobs.rs:28-95 | cancels the active executions of the selected jobs, reports every active execution of a job that the caller's own filters match, and nothing else |
| Backend.EachJobOnce | crates/ora-backend-postgres/src/query/jobs.rs:76-92 | each job of the returned rows is reported once, with one of its executions |
| TableColumns.AddedColumns | crates/ora-backend-postgres/src/lib.rs:313-432 | exactly the jobs without a schedule and those that claimed theirs are added, with their own definition and schedule, unmarked, and one pending execution each, due at the target time and with the priority of the job; of the other rows only claimed schedules change |
| TableColumns.RetriedColumns | crates/ora-backend-postgres/src/lib.rs:1094-1134 | an entry of a retried batch adds an execution if and only if the batch failed one of its job: pending, due at the retry time, with the priority of the job |
| TableColumns.RetriedOthers | crates/ora-backend-postgres/src/lib.rs:1094-1134 | a retried batch fails exactly its active executions, each at the time of its first entry, and changes nothing else |
| TableColumns.StartedColumns | crates/ora-backend-postgres/src/lib.rs:960-979 | starting writes the executor and time of the first entry for a pending execution, and the time of the first entry of its executor for one in progress |
| TableColumns.FinishedColumns | crates/ora-backend-postgres/src/lib.rs:1015-1035 | finishing writes the time of the first entry of an active execution to the one column of the way it ends |
| TableColumns.MarkedColumns | crates/ora-backend-postgres/src/lib.rs:1536-1597 | the job of a finished execution is marked with the way and a time it ended, and the schedule it was active for is freed |
| TableColumns.CancelledColumns | crates/ora-backend-postgres/src/lib.rs:467-486 | cancelling writes its time to exactly the active executions of the selected jobs, marks exactly these jobs as cancelled now, and frees exactly their schedules |
| TableColumns.DeletedIsOver | crates/ora-backend-postgres/src/lib.rs:1245-1310 | from valid tables, deleting history deletes only jobs that have been inactive and schedules that have been stopped since before the given time, no active execution, and no active job of a schedule |
| TableInvariants.StartedValid | crates/ora-backend-postgres/src/lib.rs:960-979 | starting executions keeps the tables valid: every job has executions, only the latest may be active, `inactive_status` is null exactly then and otherwise its status, and `active_job_id` is the schedule's one job without that status |
| TableInvariants.FinishedValid | crates/ora-backend-postgres/src/lib.rs:1008-1092 | finishing executions and marking exactly the jobs of the active ones keeps the tables valid |
| TableInvariants.CancelledValid | crates/ora-backend-postgres/src/lib.rs:467-486 | cancelling the jobs of any selection keeps the tables valid |
| TableInvariants.RetriedValidIff | crates/ora-backend-postgres/src/lib.rs:1094-1134 | retrying keeps the tables valid if and only if every job with an execution failed by the batch is named by exactly one entry |
| TableInvariants.AddedValid | crates/ora-backend-postgres/src/lib.rs:240-432 | adding jobs keeps the tables valid, also with several jobs of one schedule, or of stopped or unknown schedules |
| TableInvariants.DeletedValid | crates/ora-backend-postgres/src/lib.rs:1245-1345 | deleting history keeps the tables valid |
| TableInvariants.OneActive | crates/ora-backend-postgres/src/lib.rs:1029-1032 | two active executions of one job are the same |
| TableRuns.RunValidIff | crates/ora-backend-postgres/src/lib.rs:240-1345 | over runs of all transactions the tables are valid in every state if and only if every retried batch is clean |
| TableRuns.ApplyExecutionsEvolve | crates/ora-backend-postgres/src/lib.rs:1029-1032 | no transaction moves a status back, changes a finished execution or the executor of one in progress, or reuses an id |
| TableRuns.FinishedExecutionsAreFinal | crates/ora-backend-postgres/src/lib.rs:1409-1412 | a finished execution never changes, in any run |
| TableRuns.OneActiveJob | crates/ora-backend-postgres/src/lib.rs:1582-1597 | after every run, from the empty tables or others of which that is true, with any retries and with deleted history, a schedule has at most one job without a stored status, its active job |
| TableRuns.ActiveJobIsUnmarked | crates/ora-backend-postgres/src/lib.rs:270-311 | after every such run the active job of a schedule is a job of that schedule without a stored status |
| TableRuns.ApplySparesIff | crates/ora-backend-postgres/src/lib.rs:1119-1127 | from any tables, a transaction changes no inactive job and adds no execution to one if and only if it marks no inactive job again with something else, and no entry of a retried batch whose job has an execution failed names an inactive job |
| TableRuns.InactiveJobsAreFinalIff | crates/ora-backend-postgres/src/lib.rs:1119-1127 | over any run, no step changes an inactive job or adds an execution to one if and only if every step meets that condition; then the same holds between the ends of the run |
| TableRuns.InactiveJobsAreFinal | crates/ora-backend-postgres/src/lib.rs:1119-1127 | in clean runs from valid tables every step meets it, so no inactive job ever changes or gets an execution |
| Backend.StartOnce | crates/ora-backend-postgres/src/lib.rs:969-979 | repeating a start call for the same batch, with any run in between, changes no row but the start times of executions in progress |
| Backend.StartedReturnedAgain | crates/ora-backend-postgres/src/lib.rs:972-977 | a repeated start call for the same batch returns the executions it started that are still active |
| TableRuns.FinishOnce | crates/ora-backend-postgres/src/lib.rs:1029-1032 | repeating a succeeded or failed call, with any run in between, changes nothing |
| TableRuns.RetryOnce | crates/ora-backend-postgres/src/lib.rs:1119-1127 | repeating a retried call, with any run in between, adds and changes no row |
| JobFilters.StatusFilterRefines | crates/ora-backend-postgres/src/query/jobs.rs:642-731 | on every valid state, for every list of statuses and reasons, the optimised filter holds of a job if and only if its latest execution's status is listed and, if pending, its reason is |
| JobFilters.SelectionIsExact | crates/ora-backend-postgres/src/query/jobs.rs:405-458 | the selection has exactly the matching jobs, each once, and the count is their number, with and without joined executions |
| JobFilters.SelectedMeans | crates/ora-backend-postgres/src/query/jobs.rs:460-640 | a job of valid tables is selected if and only if it has all that is asked for: ids, types, priorities within the bounds, times in the half-open ranges, labels, schedules, the status and reason of its last execution, and an execution with the ids |
| JobFilters.CancelSelectsActive | crates/ora-backend-postgres/src/query/jobs.rs:32-51 | cancelling selects exactly the active jobs among those that the caller's filters match |
| Keyset.PagesAreComplete | crates/ora-backend-postgres/src/query/jobs.rs:142-246 | following keyset pages yields every key, in order, once |
| JobPages.OrdersAreKeyOrders | crates/ora-backend-postgres/src/query/jobs.rs:142-246 | all six orders are keyset orders, also those with a descending column and ascending ids |
| JobPages.TokenSelectsAfter | crates/ora-backend-postgres/src/query/jobs.rs:142-246 | the condition of a later page selects exactly what comes after the token |
| JobPages.PageJobsAreOrdered | crates/ora-backend-postgres/src/query/jobs.rs:142-246 | the jobs of a page come in the requested order |
| JobPages.PageColumnsAreOrdered | crates/ora-backend-postgres/src/query/jobs.rs:142-246 | along a page the ordering column rises or falls as asked for, with ids rising among equals, or ids alone rise or fall |
| JobPages.PageJobsAreFirst | crates/ora-backend-postgres/src/query/jobs.rs:142-246 | a job left out of a page comes after all jobs of a full page |
| JobPages.NextTokenKey | crates/ora-backend-postgres/src/query/jobs.rs:279-290 | there is a next token exactly after a full page that is not empty, and it points to the last job of the page |
| JobPages.PagingIsExact | crates/ora-backend-postgres/src/query/jobs.rs:142-290 | for all orders and page sizes, following the tokens over fixed tables ends and yields exactly the matching jobs, sorted, each once |
| ScheduleRuns.JobsAreInRange | crates/ora-server/src/server/schedules.rs:21-110 | over every run with one scheduling loop and no deletion of history, whatever the clock says, every job of a schedule is due at a supported time in the time range of the schedule, and a schedule with a zero interval has no job |
| ScheduleRuns.ScheduleIsSafe | crates/ora-server/src/server/schedules.rs:21-110 | over every such run later jobs of a schedule are due later, by at least a fixed interval, and all in the time range of the schedule |
| ScheduleRuns.BoundedJobs | crates/ora-server/src/server/schedules.rs:69-78 | a schedule with a fixed interval has only as many jobs as there are intervals, which are not zero, between its start and its end, or the earliest and latest supported time if it has no start or no end |
| ScheduleRuns.HandlePage | crates/ora-server/src/server/schedules.rs:39-84 | exactly the schedules whose next time is before their end, if they have one, get a job: their template due at that time; exactly those without a next time or with one at or after their end are stopped; the others are reported |
| ScheduleTimes.DurationFromNanosExact | crates/ora-server/src/server/schedules.rs:210-217 | the split into seconds and nanoseconds is exact, and fails exactly for what is not a duration |
| ScheduleTimes.SkipMissedExact | crates/ora-server/src/server/schedules.rs:266-288 | the 128-bit multiplication never overflows: skipping fails only if the time it looks for is above the supported range |
| ScheduleTimes.SkipIsLeast | crates/ora-server/src/server/schedules.rs:266-288 | the result is the least last + k * interval that is not before the current time or the start, or an error exactly if that is above the supported range |
| ScheduleTimes.NextTimeAdvances | crates/ora-server/src/server/schedules.rs:249-330 | every time is supported, and after the last one |
| RetryBackoff.BackoffSaturates | crates/ora-server/src/server/executions.rs:706-727 | the backoff is the smallest of the saturated product and the two maximums |
| RetryBackoff.BackoffStarts | crates/ora-server/src/server/executions.rs:706-727 | the backoff is the duration of the policy up to the cap, for fixed policies at every attempt |
| RetryBackoff.BackoffDoubles | crates/ora-server/src/server/executions.rs:706-727 | an exponential backoff doubles from each attempt to the next, up to the cap of the policy and 365 days |
| RetryBackoff.BackoffNeverDecreases | crates/ora-server/src/server/executions.rs:706-727 | the backoff never decreases with the attempt number |
| RetryBackoff.BackoffIsIdealIff | crates/ora-server/src/server/executions.rs:706-727 | the saturated backoff is the unbounded one if and only if it has not saturated, is zero, or its saturated product reaches the cap |
| RetryBackoff.RetryBackend | crates/ora-server/src/server/executions.rs:738-773 | ends with the first success, or gives up exactly at the maximum number of attempts, or at the third or a later one during shutdown, after the delays between the attempts |
| RetryBackoff.RetryDelayDoubles | crates/ora-server/src/server/executions.rs:769-771 | the first delay is a tenth of a second, and each one is twice the one before, up to five seconds |
| WaitGroups.NoLostWakeup | crates/wgroup/src/lib.rs:246-282 | the waiting task never sleeps after it was woken during a poll, and whenever it sleeps and no guards are left, a dropped guard has yet to wake it |
| WaitGroups.AllDoneResolves | crates/wgroup/src/lib.rs:267-282 | a run without new guards that cannot continue has finished the waiting task |
| WaitGroups.RunDecreases | crates/wgroup/src/lib.rs:246-282 | runs without new guards are bounded |
| WaitGroups.FinishesOnlyWithoutGuards | crates/wgroup/src/lib.rs:270-282 | in every run the waiting task has finished if and only if it was polled at some point while no guards were registered, and if none were added since then there are none |
| WaitGroups.WgInner.Add | crates/wgroup/src/lib.rs:324-353 | registers a guard under a fresh id |
| WaitGroups.WgInner.RemoveGuard | crates/wgroup/src/lib.rs:246-251 | removes the guard under the lock, its wake is still to come |
| WaitGroups.WgInner.WakeTask | crates/wgroup/src/lib.rs:253-260 | wakes the waiter if its waker is registered |
| WaitGroups.WgInner.PollCheck | crates/wgroup/src/lib.rs:270-277 | the check of a poll, under the lock |
| WaitGroups.WgInner.PollRegister | crates/wgroup/src/lib.rs:278-281 | registers the waker, under the same lock |
| JobTypeIds.ValidateClient | crates/ora/src/job_type.rs:79-114 | the index-and-flag loop accepts exactly the dotted-segment grammar |
| JobTypeIds.ValidateServer | crates/ora-backend/src/jobs.rs:81-108 | the split-based loops accept exactly the same grammar |
| JobTypeIds.GrammarBySplit | crates/ora-backend/src/jobs.rs:81-108 | a string is in the grammar if and only if it splits into segments at its dots |
| JobTypeIds.GrammarByBytes | crates/ora/src/job_type.rs:79-114 | a string is in the grammar if and only if it begins, and goes on after each dot, with an ASCII letter, has letters, digits, underscores and dots elsewhere, and does not end with a dot |
| JobTypeIds.AcceptsBySplit | crates/ora/src/job_type.rs:79-114 | the automaton accepts a string if and only if it splits into segments at its dots |

## Left out

- ExecutorPools.ExecutorPool.OfferPass: the clock stands still during a pass, and with it the fetch time; with a moving clock backoffs end and purges forget more in between, which `TryOffer` covers batch by batch.
- ExecutorPools.ExecutorPool.TryOffer: batches have distinct ids, as those of the stream do (`ReadyStream.ReadyStreamIsSound`).
- Shutdown: grace periods, the deadlines after which the loops stop, and giving up on starting executions. A start call that gives up is the documented exception to at-most-once acceptance, and no step of the protocol.
- Time-outs of calls and of waiting for starts: the protocol lets the loops go on at any time, with or without having waited.
- More than one server: one ready loop and one scheduling loop, as each server runs one.
- READ COMMITTED: the update of a cancellation is one atomic transaction, so its repetition finds nothing. Advisory locks are not part of the model.
- Which of several input rows for one execution Postgres uses: the first one that matches.
- The ranges of `SystemTime` and `Timestamp` are parameters, `f64` timestamps are exact, and cron expressions are an oracle that returns strictly later times.
- Schedule safety with deleted history: deleting the jobs of a schedule makes it forget its last target time, so schedule safety excludes it; the tables stay valid.
- Wake-ups of the server loops (`Notify`), as the loops may run at any time; the wait group is the exception.
- The stream variant of the wait group, and the wrap-around of its `usize` counter of ids.
- Paging of schedules and their filters: a copy of the paging of jobs. `stop_schedules` and `add_schedules` are single statements, and only transactions here.
- Page tokens as JSON and base64, labels and executions of job details, the job type table, payloads and failure reasons (with the replacement of NUL characters).
- Deleting history in batches: one batch is a transaction, the loop over them is not modelled.
- Listing executors and statistics, metrics, gRPC, the command line and user interfaces.
- Termination of the loops and fairness: what is proved is that nothing is lost on the way, that a scan misses no orphan, and that what it finds is finished for good.
- Heartbeats: an executor may be dropped at any time.
