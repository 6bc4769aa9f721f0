/**
  The backend tables and the effect of every transaction on them. Identifiers are drawn from one
  increasing counter, as version 7 UUIDs are, and each transaction is one atomic step.
 */
module Tables {
  import opened Common
  import opened RetryBackoff
  import opened ScheduleTimes

  type JobId = nat
  type ExecutionId = nat
  type ExecutorId = nat
  type ScheduleId = nat

  datatype ExecutionStatus = Pending | InProgress | Succeeded | Failed | Cancelled

  datatype Execution = Execution(
    job: JobId, target: Time, priority: int, executor: Option<ExecutorId>, startedAt: Option<Time>,
    succeededAt: Option<Time>, failedAt: Option<Time>, cancelledAt: Option<Time>)
  {
    /** The status is a generated column. */
    function Status(): ExecutionStatus {
      if succeededAt.Some? then Succeeded
      else if failedAt.Some? then Failed
      else if cancelledAt.Some? then Cancelled
      else if startedAt.None? then Pending
      else InProgress
    }

    /** `status < 2`. */
    predicate IsActive() { Status().Pending? || Status().InProgress? }
  }

  /** Timeouts are measured from the job's target time or from the start of the execution. */
  datatype TimeoutBase = TargetExecutionTime | StartTime

  datatype TimeoutPolicy = TimeoutPolicy(timeout: Duration, baseTime: TimeoutBase)

  datatype JobDefinition = JobDefinition(
    jobType: string, target: Time, labels: map<string, string>, timeout: TimeoutPolicy, retry: RetryPolicy, priority: int)

  datatype Job = Job(
    definition: JobDefinition, createdAt: Time, schedule: Option<ScheduleId>,
    inactiveSince: Option<Time>, inactiveStatus: Option<ExecutionStatus>)

  datatype ScheduleDefinition = ScheduleDefinition(
    scheduling: SchedulingPolicy, template: JobDefinition, start: Option<Time>, end: Option<Time>)

  datatype Schedule = Schedule(
    definition: ScheduleDefinition, stoppedAt: Option<Time>, activeJob: Option<JobId>)
  {
    /** Active schedules without an active job wait for their next one. */
    predicate IsPending() { stoppedAt.None? && activeJob.None? }
  }

  datatype Db = Db(
    jobs: map<JobId, Job>, executions: map<ExecutionId, Execution>, schedules: map<ScheduleId, Schedule>,
    nextId: nat)

  const EMPTY := Db(map[], map[], map[], 0)

  predicate Of(d: Db, e: ExecutionId, j: JobId) { e in d.executions && d.executions[e].job == j }

  predicate Active(d: Db, e: ExecutionId) { e in d.executions && d.executions[e].IsActive() }

  predicate ReadyOrScheduled(d: Db, e: ExecutionId) { e in d.executions && d.executions[e].Status().Pending? }

  function ExecutionsOf(d: Db, j: JobId): set<ExecutionId> { set e | e in d.executions && d.executions[e].job == j }

  /** `COUNT(*)` of a job's executions, the attempt number of its latest one. */
  function Attempts(d: Db, j: JobId): nat { |ExecutionsOf(d, j)| }

  // ---- Starting executions.

  datatype StartedRow = StartedRow(executor: ExecutorId, at: Time)

  predicate CanStart(d: Db, rows: map<ExecutionId, StartedRow>, e: ExecutionId) {
    && e in rows && e in d.executions
    && (|| d.executions[e].Status().Pending?
        // Repeated calls return the same executions.
        || (d.executions[e].Status().InProgress? && d.executions[e].executor == Some(rows[e].executor)))
  }

  function StartedIds(d: Db, rows: map<ExecutionId, StartedRow>): set<ExecutionId> {
    set e | e in rows && CanStart(d, rows, e)
  }

  /** `UPDATE ora.execution ... FROM UNNEST`, `rows` holding the one input row used for each execution. */
  function ExecutionsStarted(d: Db, rows: map<ExecutionId, StartedRow>): Db {
    d.(executions := map e | e in d.executions ::
         if CanStart(d, rows, e)
         then d.executions[e].(executor := Some(rows[e].executor), startedAt := Some(rows[e].at))
         else d.executions[e])
  }

  // ---- Finishing executions.

  datatype Finish = Success | Failure | Cancellation {
    function Status(): ExecutionStatus {
      match this
      case Success => Succeeded
      case Failure => Failed
      case Cancellation => Cancelled
    }
  }

  datatype FinishedExecution = FinishedExecution(execution: ExecutionId, at: Time)

  /** The time each execution finished at, the first one if it is named several times. */
  function FirstTimes(batch: seq<FinishedExecution>): map<ExecutionId, Time> {
    if batch == [] then map[]
    else
      var n := |batch| - 1;
      var rows := FirstTimes(batch[..n]);
      if batch[n].execution in rows then rows else rows[batch[n].execution := batch[n].at]
  }

  function FinishRow(row: Execution, finish: Finish, at: Time): Execution {
    match finish
    case Success => row.(succeededAt := Some(at))
    case Failure => row.(failedAt := Some(at))
    case Cancellation => row.(cancelledAt := Some(at))
  }

  /** Finishes the executions that are still active, others are left alone. */
  function FinishExecutions(d: Db, rows: map<ExecutionId, Time>, finish: Finish): Db {
    d.(executions := map e | e in d.executions ::
         if e in rows && d.executions[e].IsActive() then FinishRow(d.executions[e], finish, rows[e]) else d.executions[e])
  }

  /** The jobs whose active execution is named by the rows, `RETURNING job_id`. */
  function FinishedJobs(d: Db, rows: map<ExecutionId, Time>): set<JobId> {
    set e | e in rows && Active(d, e) :: d.executions[e].job
  }

  /** `times` holds the time of one finished execution for each of the finished jobs. */
  ghost predicate TimesOf(d: Db, rows: map<ExecutionId, Time>, times: map<JobId, Time>) {
    && times.Keys == FinishedJobs(d, rows)
    && forall j :: j in times ==> exists e :: e in rows && Active(d, e) && Of(d, e, j) && rows[e] == times[j]
  }

  /** Marks the jobs as inactive, and frees the schedules whose active job is one of them. */
  function MarkJobsInactive(d: Db, times: map<JobId, Time>, status: ExecutionStatus): Db {
    d.(jobs := map j | j in d.jobs ::
         if j in times then d.jobs[j].(inactiveSince := Some(times[j]), inactiveStatus := Some(status)) else d.jobs[j],
       schedules := map s | s in d.schedules ::
         if d.schedules[s].activeJob.Some? && d.schedules[s].activeJob.value in times
         then d.schedules[s].(activeJob := None)
         else d.schedules[s])
  }

  /** `executions_succeeded`, `executions_failed`, and the update of `cancel_jobs`. */
  function FinishAndMark(d: Db, rows: map<ExecutionId, Time>, finish: Finish, times: map<JobId, Time>): Db {
    MarkJobsInactive(FinishExecutions(d, rows, finish), times, finish.Status())
  }

  // ---- Adding executions.

  datatype NewExecution = NewExecution(job: JobId, target: Time)

  function PendingRow(job: JobId, target: Time, priority: int): Execution {
    Execution(job, target, priority, None, None, None, None, None)
  }

  /**
    Inserts an execution for each new one whose job is in `jobs`, joined with the job table
    for the priority. Their ids increase in order.
   */
  function AddExecutions(d: Db, added: seq<NewExecution>, jobs: set<JobId>): Db {
    d.(executions := d.executions + NewRows(d, added, jobs), nextId := d.nextId + |added|)
  }

  function NewRows(d: Db, added: seq<NewExecution>, jobs: set<JobId>): map<ExecutionId, Execution> {
    map e: nat | d.nextId <= e < d.nextId + |added|
                 && At(added, d.nextId, e).job in jobs && At(added, d.nextId, e).job in d.jobs
      :: PendingRow(At(added, d.nextId, e).job, At(added, d.nextId, e).target,
                    d.jobs[At(added, d.nextId, e).job].definition.priority)
  }

  // ---- Retrying executions.

  datatype RetriedExecution = RetriedExecution(execution: ExecutionId, job: JobId, failedAt: Time, retryAt: Time)

  /** The failures of the executions that are retried. */
  function Failures(batch: seq<RetriedExecution>): seq<FinishedExecution> {
    seq(|batch|, (i: nat) requires i < |batch| => FinishedExecution(batch[i].execution, batch[i].failedAt))
  }

  function FailureRows(batch: seq<RetriedExecution>): map<ExecutionId, Time> { FirstTimes(Failures(batch)) }

  function RetryExecutions(batch: seq<RetriedExecution>): seq<NewExecution> {
    seq(|batch|, (i: nat) requires i < |batch| => NewExecution(batch[i].job, batch[i].retryAt))
  }

  /** Fails the executions, and adds a new one for each entry whose job had an execution failed. */
  function ExecutionsRetried(d: Db, batch: seq<RetriedExecution>): Db { RetryWith(d, FailureRows(batch), batch) }

  function RetryWith(d: Db, rows: map<ExecutionId, Time>, batch: seq<RetriedExecution>): Db {
    AddExecutions(FinishExecutions(d, rows, Failure), RetryExecutions(batch), FinishedJobs(d, rows))
  }

  // ---- Adding jobs.

  datatype NewJob = NewJob(definition: JobDefinition, schedule: Option<ScheduleId>)

  /**
    `claims` assigns one of the new jobs to each pending schedule that has any,
    as the update claiming the schedules does.
   */
  ghost predicate ClaimsOf(d: Db, batch: seq<NewJob>, claims: map<ScheduleId, nat>) {
    && (forall s :: s in claims ==>
          && claims[s] < |batch| && batch[claims[s]].schedule == Some(s)
          && s in d.schedules && d.schedules[s].IsPending())
    && (forall i :: 0 <= i < |batch| && batch[i].schedule.Some?
                    && batch[i].schedule.value in d.schedules && d.schedules[batch[i].schedule.value].IsPending() ==>
          batch[i].schedule.value in claims)
  }

  /** Jobs of schedules are only added if they claimed their schedule. */
  predicate KeptJob(schedule: Option<ScheduleId>, claims: map<ScheduleId, nat>, base: nat, j: JobId) {
    schedule.None? || (schedule.value in claims && base + claims[schedule.value] == j)
  }

  function NewJobRows(d: Db, batch: seq<NewJob>, claims: map<ScheduleId, nat>, now: Time): map<JobId, Job> {
    map j: nat | d.nextId <= j < d.nextId + |batch|
                 && KeptJob(At(batch, d.nextId, j).schedule, claims, d.nextId, j)
      :: Job(At(batch, d.nextId, j).definition, now, At(batch, d.nextId, j).schedule, None, None)
  }

  function ClaimSchedules(d: Db, claims: map<ScheduleId, nat>): map<ScheduleId, Schedule> {
    map s | s in d.schedules ::
      if s in claims then d.schedules[s].(activeJob := Some(d.nextId + claims[s])) else d.schedules[s]
  }

  function FirstExecutions(d: Db, batch: seq<NewJob>): seq<NewExecution> {
    seq(|batch|, (i: nat) requires i < |batch| => NewExecution(d.nextId + i, batch[i].definition.target))
  }

  function WithJobs(d: Db, batch: seq<NewJob>, claims: map<ScheduleId, nat>, rows: map<JobId, Job>): Db {
    Db(d.jobs + rows, d.executions, ClaimSchedules(d, claims), d.nextId + |batch|)
  }

  function AddJobRows(d: Db, batch: seq<NewJob>, claims: map<ScheduleId, nat>, rows: map<JobId, Job>): Db {
    AddExecutions(WithJobs(d, batch, claims, rows), FirstExecutions(d, batch), rows.Keys)
  }

  /** Claims the schedules, and adds the kept jobs with their first execution. */
  function AddJobs(d: Db, batch: seq<NewJob>, claims: map<ScheduleId, nat>, now: Time): Db {
    AddJobRows(d, batch, claims, NewJobRows(d, batch, claims, now))
  }

  // ---- Cancelling jobs.

  /** The active executions of the selected jobs, with the time they are cancelled at. */
  function CancelledRows(d: Db, selected: set<JobId>, at: Time): map<ExecutionId, Time> {
    map e | e in d.executions && d.executions[e].IsActive() && d.executions[e].job in selected :: at
  }

  function CancelJobs(d: Db, selected: set<JobId>, at: Time, now: Time): Db {
    var rows := CancelledRows(d, selected, at);
    FinishAndMark(d, rows, Cancellation, map j | j in FinishedJobs(d, rows) :: now)
  }

  // ---- Schedules and history.

  function AddSchedules(d: Db, batch: seq<ScheduleDefinition>): Db {
    d.(schedules := d.schedules + (map s: nat | d.nextId <= s < d.nextId + |batch| :: Schedule(At(batch, d.nextId, s), None, None)),
       nextId := d.nextId + |batch|)
  }

  function StopSchedules(d: Db, selected: set<ScheduleId>, now: Time): Db {
    d.(schedules := map s | s in d.schedules ::
         if s in selected && d.schedules[s].stoppedAt.None? then d.schedules[s].(stoppedAt := Some(now))
         else d.schedules[s])
  }

  /** One batch of deletions: some jobs that became inactive, and schedules that stopped, before a time. */
  predicate Deletable(d: Db, before: Time, jobs: set<JobId>, schedules: set<ScheduleId>) {
    && (forall j :: j in jobs ==> j in d.jobs && d.jobs[j].inactiveSince.Some? && d.jobs[j].inactiveSince.value < before)
    && (forall s :: s in schedules ==>
          s in d.schedules && d.schedules[s].stoppedAt.Some? && d.schedules[s].stoppedAt.value < before)
  }

  /** Executions are deleted with their job, but jobs are not deleted with their schedule. */
  function DeleteHistory(d: Db, jobs: set<JobId>, schedules: set<ScheduleId>): Db {
    d.(jobs := d.jobs - jobs,
       executions := map e | e in d.executions && d.executions[e].job !in jobs :: d.executions[e],
       schedules := d.schedules - schedules)
  }
}
