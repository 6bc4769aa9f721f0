/** Whole runs of transactions: which facts are final, and when the tables stay valid. */
module TableRuns {
  import opened Common
  import opened Tables
  import opened TableInvariants

  /** What may happen to the row of an execution: a status never goes back, and a finished row never changes. */
  predicate RowEvolves(row: Execution, later: Execution) {
    && later.job == row.job && later.target == row.target && later.priority == row.priority
    && (!row.IsActive() ==> later == row)
    && (row.Status().InProgress? ==>
          !later.Status().Pending? && (later.Status().InProgress? ==> later.executor == row.executor))
  }

  ghost predicate ExecutionEvolves(d: Db, t: Db, e: ExecutionId) {
    e in t.executions ==>
      if e in d.executions then RowEvolves(d.executions[e], t.executions[e]) else d.nextId <= e
  }

  ghost predicate ExecutionsEvolve(d: Db, t: Db) {
    d.nextId <= t.nextId && forall e: ExecutionId {:trigger ExecutionEvolves(d, t, e)} :: ExecutionEvolves(d, t, e)
  }

  /** A job never changes once it is inactive. */
  predicate JobRowEvolves(row: Job, later: Job) {
    && later.definition == row.definition && later.createdAt == row.createdAt && later.schedule == row.schedule
    && (row.inactiveStatus.Some? ==> later == row)
  }

  ghost predicate JobEvolves(d: Db, t: Db, j: JobId) {
    j in t.jobs ==> if j in d.jobs then JobRowEvolves(d.jobs[j], t.jobs[j]) else d.nextId <= j
  }

  /** An execution added to an earlier job was added while that job was active. */
  ghost predicate AddedWhileActive(d: Db, t: Db, e: ExecutionId) {
    e in t.executions && e !in d.executions && t.executions[e].job in d.jobs ==>
      d.jobs[t.executions[e].job].inactiveStatus.None?
  }

  ghost predicate JobsEvolve(d: Db, t: Db) {
    && (forall j: JobId {:trigger JobEvolves(d, t, j)} :: JobEvolves(d, t, j))
    && (forall e: ExecutionId {:trigger AddedWhileActive(d, t, e)} :: AddedWhileActive(d, t, e))
  }

  datatype Transaction =
    | AddingJobs(newJobs: seq<NewJob>, claims: map<ScheduleId, nat>, now: Time)
    | Starting(started: map<ExecutionId, StartedRow>)
    | Finishing(finished: map<ExecutionId, Time>, finish: Finish, times: map<JobId, Time>)
    | Retrying(retried: seq<RetriedExecution>)
    | Cancelling(jobs: set<JobId>, at: Time, now: Time)
    | AddingSchedules(definitions: seq<ScheduleDefinition>)
    | StoppingSchedules(schedules: set<ScheduleId>, now: Time)
    | DeletingHistory(before: Time, deletedJobs: set<JobId>, deletedSchedules: set<ScheduleId>)

  ghost predicate Allowed(d: Db, tx: Transaction) {
    match tx
    case AddingJobs(newJobs, claims, now) => ClaimsOf(d, newJobs, claims)
    case Finishing(finished, finish, times) => TimesOf(d, finished, times)
    case DeletingHistory(before, jobs, schedules) => Deletable(d, before, jobs, schedules)
    case _ => true
  }

  function Apply(d: Db, tx: Transaction): Db {
    match tx
    case AddingJobs(newJobs, claims, now) => AddJobs(d, newJobs, claims, now)
    case Starting(started) => ExecutionsStarted(d, started)
    case Finishing(finished, finish, times) => FinishAndMark(d, finished, finish, times)
    case Retrying(retried) => ExecutionsRetried(d, retried)
    case Cancelling(jobs, at, now) => CancelJobs(d, jobs, at, now)
    case AddingSchedules(definitions) => AddSchedules(d, definitions)
    case StoppingSchedules(schedules, now) => StopSchedules(d, schedules, now)
    case DeletingHistory(before, jobs, schedules) => DeleteHistory(d, jobs, schedules)
  }

  /** The only transactions that can make the tables invalid are unclean retries. */
  ghost predicate Clean(d: Db, tx: Transaction) { tx.Retrying? ==> CleanBatch(d, tx.retried) }

  lemma FinishedExecutionsEvolve(d: Db, rows: map<ExecutionId, Time>, finish: Finish, times: map<JobId, Time>)
    ensures ExecutionsEvolve(d, FinishAndMark(d, rows, finish, times))
  {
    var t := FinishAndMark(d, rows, finish, times);
    forall e: ExecutionId ensures ExecutionEvolves(d, t, e) {
      if e in rows && Active(d, e) {
        FinishedRow(d.executions[e], finish, rows[e]);
      }
    }
  }

  lemma RetriedExecutionsEvolve(d: Db, t: Db, rows: map<ExecutionId, Time>, jobs: set<JobId>,
                                batch: seq<RetriedExecution>)
    requires RetriedTo(d, t, rows, jobs, batch)
    ensures ExecutionsEvolve(d, t)
  {
    forall e: ExecutionId ensures ExecutionEvolves(d, t, e) {
      if e in rows && Active(d, e) {
        FinishedRow(d.executions[e], Failure, rows[e]);
      }
    }
  }

  lemma AddedExecutionsEvolve(d: Db, t: Db, batch: seq<NewJob>, claims: map<ScheduleId, nat>, now: Time)
    requires AddedTo(d, t, batch, claims, now)
    ensures ExecutionsEvolve(d, t)
  {
    forall e: ExecutionId ensures ExecutionEvolves(d, t, e) {
    }
  }

  lemma ApplyExecutionsEvolve(d: Db, tx: Transaction)
    requires WellFormed(d)
    ensures ExecutionsEvolve(d, Apply(d, tx))
  {
    match tx
    case AddingJobs(newJobs, claims, now) =>
      AddedJobRows(d, newJobs, claims, now);
      AddedExecutionsEvolve(d, AddJobs(d, newJobs, claims, now), newJobs, claims, now);
    case Finishing(finished, finish, times) =>
      FinishedExecutionsEvolve(d, finished, finish, times);
    case Retrying(retried) =>
      RetriedRows(d, retried);
      RetriedExecutionsEvolve(d, ExecutionsRetried(d, retried), FailureRows(retried),
                              FinishedJobs(d, FailureRows(retried)), retried);
    case Cancelling(jobs, at, now) =>
      var rows := CancelledRows(d, jobs, at);
      FinishedExecutionsEvolve(d, rows, Cancellation, map j | j in FinishedJobs(d, rows) :: now);
    case _ =>
      forall e: ExecutionId ensures ExecutionEvolves(d, Apply(d, tx), e) {
      }
  }

  lemma ExecutionsEvolveTransitive(d: Db, s: Db, t: Db)
    requires WellFormed(d) && ExecutionsEvolve(d, s) && ExecutionsEvolve(s, t)
    ensures ExecutionsEvolve(d, t)
  {
    forall e: ExecutionId ensures ExecutionEvolves(d, t, e) {
      assert ExecutionEvolves(d, s, e) && ExecutionEvolves(s, t, e);
    }
  }

  /** Once an execution is not pending, it never is again. */
  lemma StaysNotPending(d: Db, t: Db, e: ExecutionId)
    requires ExecutionsEvolve(d, t) && e < d.nextId && !ReadyOrScheduled(d, e)
    ensures !ReadyOrScheduled(t, e)
  {
    assert ExecutionEvolves(d, t, e);
  }

  // ---- When inactive jobs are final.

  /** A job that is marked as inactive already is only marked with what it has stored. */
  predicate MarksSpare(d: Db, times: map<JobId, Time>, status: ExecutionStatus) {
    forall j :: j in times && j in d.jobs && d.jobs[j].inactiveStatus.Some? ==>
      d.jobs[j].inactiveSince == Some(times[j]) && d.jobs[j].inactiveStatus == Some(status)
  }

  /** No entry of a retried batch whose job has a failed execution names a job that is marked as inactive. */
  predicate RetriesSpare(d: Db, jobs: set<JobId>, batch: seq<RetriedExecution>) {
    forall i :: 0 <= i < |batch| && batch[i].job in jobs && batch[i].job in d.jobs ==>
      d.jobs[batch[i].job].inactiveStatus.None?
  }

  /** Whether a transaction leaves inactive jobs alone, which can be told from the tables before it. */
  predicate SparesInactive(d: Db, tx: Transaction) {
    match tx
    case Finishing(finished, finish, times) => MarksSpare(d, times, finish.Status())
    case Cancelling(jobs, at, now) =>
      MarksSpare(d, map j | j in FinishedJobs(d, CancelledRows(d, jobs, at)) :: now, ExecutionStatus.Cancelled)
    case Retrying(retried) => RetriesSpare(d, FinishedJobs(d, FailureRows(retried)), retried)
    case _ => true
  }

  lemma FinishedSparesIff(d: Db, rows: map<ExecutionId, Time>, finish: Finish, times: map<JobId, Time>)
    requires WellFormed(d)
    ensures JobsEvolve(d, FinishAndMark(d, rows, finish, times)) <==> MarksSpare(d, times, finish.Status())
  {
    var t := FinishAndMark(d, rows, finish, times);
    forall e: ExecutionId ensures AddedWhileActive(d, t, e) {
    }
    if MarksSpare(d, times, finish.Status()) {
      forall j: JobId ensures JobEvolves(d, t, j) {
      }
    } else {
      var j :| j in times && j in d.jobs && d.jobs[j].inactiveStatus.Some?
        && !(d.jobs[j].inactiveSince == Some(times[j]) && d.jobs[j].inactiveStatus == Some(finish.Status()));
      assert !JobEvolves(d, t, j);
    }
  }

  lemma RetriedSparesIff(d: Db, t: Db, rows: map<ExecutionId, Time>, jobs: set<JobId>, batch: seq<RetriedExecution>)
    requires RetriedTo(d, t, rows, jobs, batch)
    ensures JobsEvolve(d, t) <==> RetriesSpare(d, jobs, batch)
  {
    forall j: JobId ensures JobEvolves(d, t, j) {
    }
    if RetriesSpare(d, jobs, batch) {
      forall e: ExecutionId ensures AddedWhileActive(d, t, e) {
        if e in t.executions && e !in d.executions {
          assert AddedBy(d.nextId, batch, jobs, e);
        }
      }
    } else {
      var i :| 0 <= i < |batch| && batch[i].job in jobs && batch[i].job in d.jobs
        && d.jobs[batch[i].job].inactiveStatus.Some?;
      RetriedAdds(d, t, rows, jobs, batch, i);
      assert !AddedWhileActive(d, t, d.nextId + i);
    }
  }

  lemma RetriedAdds(d: Db, t: Db, rows: map<ExecutionId, Time>, jobs: set<JobId>, batch: seq<RetriedExecution>, i: nat)
    requires RetriedTo(d, t, rows, jobs, batch) && i < |batch| && batch[i].job in jobs
    ensures d.nextId + i in t.executions && d.nextId + i !in d.executions
    ensures t.executions[d.nextId + i].job == batch[i].job
  {
    assert At(batch, d.nextId, d.nextId + i) == batch[i];
    assert AddedBy(d.nextId, batch, jobs, d.nextId + i);
  }

  lemma AddedJobsEvolve(d: Db, t: Db, batch: seq<NewJob>, claims: map<ScheduleId, nat>, now: Time)
    requires AddedTo(d, t, batch, claims, now) && WellFormed(d)
    ensures JobsEvolve(d, t)
  {
    forall j: JobId ensures JobEvolves(d, t, j) {
    }
    forall e: ExecutionId ensures AddedWhileActive(d, t, e) {
    }
  }

  /**
    From any tables, a transaction changes no inactive job and adds no execution to one if and only if it
    finds none of them active: it neither marks them again nor retries them.
   */
  lemma ApplySparesIff(d: Db, tx: Transaction)
    requires WellFormed(d) && Allowed(d, tx)
    ensures JobsEvolve(d, Apply(d, tx)) <==> SparesInactive(d, tx)
  {
    match tx
    case AddingJobs(newJobs, claims, now) =>
      AddedJobRows(d, newJobs, claims, now);
      AddedJobsEvolve(d, AddJobs(d, newJobs, claims, now), newJobs, claims, now);
    case Finishing(finished, finish, times) =>
      FinishedSparesIff(d, finished, finish, times);
    case Retrying(retried) =>
      RetriedRows(d, retried);
      RetriedSparesIff(d, ExecutionsRetried(d, retried), FailureRows(retried),
                       FinishedJobs(d, FailureRows(retried)), retried);
    case Cancelling(jobs, at, now) =>
      var rows := CancelledRows(d, jobs, at);
      FinishedSparesIff(d, rows, Cancellation, map j | j in FinishedJobs(d, rows) :: now);
    case _ =>
      var t := Apply(d, tx);
      forall j: JobId ensures JobEvolves(d, t, j) {
      }
      forall e: ExecutionId ensures AddedWhileActive(d, t, e) {
      }
  }

  /** In valid tables only unmarked jobs have active executions, so every transaction spares the others. */
  lemma ValidSpares(d: Db, tx: Transaction)
    requires Valid(d) && Allowed(d, tx)
    ensures SparesInactive(d, tx)
  {
    forall e: ExecutionId | Active(d, e)
      ensures d.executions[e].job in d.jobs && d.jobs[d.executions[e].job].inactiveStatus.None?
    {
      UnmarkedOfActive(d, e);
    }
  }

  lemma JobsEvolveTransitive(d: Db, s: Db, t: Db)
    requires WellFormed(d) && WellFormed(t) && d.nextId <= s.nextId && ExecutionsEvolve(s, t)
    requires JobsEvolve(d, s) && JobsEvolve(s, t)
    ensures JobsEvolve(d, t)
  {
    forall j: JobId ensures JobEvolves(d, t, j) {
      assert JobEvolves(d, s, j) && JobEvolves(s, t, j);
    }
    forall e: ExecutionId ensures AddedWhileActive(d, t, e) {
      assert AddedWhileActive(d, s, e) && AddedWhileActive(s, t, e) && ExecutionEvolves(s, t, e);
      if e in t.executions && e !in d.executions && t.executions[e].job in d.jobs {
        var j := t.executions[e].job;
        assert JobEvolves(d, s, j) && JobEvolves(s, t, j);
      }
    }
  }

  // ---- Runs.

  lemma ApplyWellFormed(d: Db, tx: Transaction)
    requires WellFormed(d) && Allowed(d, tx)
    ensures WellFormed(Apply(d, tx))
  {
    match tx
    case AddingJobs(newJobs, claims, now) =>
      AddedJobRows(d, newJobs, claims, now);
      AddedWellFormed(d, AddJobs(d, newJobs, claims, now), newJobs, claims, now);
    case Finishing(finished, finish, times) =>
      FinishedWellFormed(d, finished, finish, times);
    case Retrying(retried) =>
      RetriedRows(d, retried);
      RetriedWellFormed(d, ExecutionsRetried(d, retried), FailureRows(retried),
                        FinishedJobs(d, FailureRows(retried)), retried);
    case Cancelling(jobs, at, now) =>
      var rows := CancelledRows(d, jobs, at);
      FinishedWellFormed(d, rows, Cancellation, map j | j in FinishedJobs(d, rows) :: now);
    case Starting(started) =>
      StartedWellFormed(d, started);
    case _ =>
  }

  /** A transaction keeps valid tables valid if and only if it is not an unclean retry. */
  lemma ApplyValidIff(d: Db, tx: Transaction)
    requires Valid(d) && Allowed(d, tx)
    ensures Valid(Apply(d, tx)) <==> Clean(d, tx)
  {
    match tx
    case AddingJobs(newJobs, claims, now) => AddedValid(d, newJobs, claims, now);
    case Starting(started) => StartedValid(d, started);
    case Finishing(finished, finish, times) => FinishedValid(d, finished, finish, times);
    case Retrying(retried) => RetriedValidIff(d, retried);
    case Cancelling(jobs, at, now) => CancelledValid(d, jobs, at, now);
    case AddingSchedules(definitions) => AddedSchedulesValid(d, definitions);
    case StoppingSchedules(schedules, now) => StoppedSchedulesValid(d, schedules, now);
    case DeletingHistory(before, jobs, schedules) => DeletedValid(d, before, jobs, schedules);
  }

  ghost predicate Runs(d: Db, run: seq<Transaction>, t: Db)
    decreases |run|
  {
    if run == [] then t == d else Allowed(d, run[0]) && Runs(Apply(d, run[0]), run[1..], t)
  }

  /** Every retry of the run names each job with a failed execution exactly once. */
  ghost predicate CleanRun(d: Db, run: seq<Transaction>)
    decreases |run|
  {
    run == [] || (Clean(d, run[0]) && CleanRun(Apply(d, run[0]), run[1..]))
  }

  ghost predicate AlwaysValid(d: Db, run: seq<Transaction>)
    decreases |run|
  {
    Valid(d) && (run == [] || AlwaysValid(Apply(d, run[0]), run[1..]))
  }

  /**
    Over whole runs of all backend operations, history deletion included: the cached job statuses agree
    with the executions, each job has at most one active execution, and each schedule's active job is its
    one job that is active, in every state if and only if every retry is clean.
   */
  lemma {:induction false} RunValidIff(d: Db, run: seq<Transaction>, t: Db)
    requires Valid(d) && Runs(d, run, t)
    ensures AlwaysValid(d, run) <==> CleanRun(d, run)
    ensures CleanRun(d, run) ==> Valid(t)
    decreases |run|
  {
    if run != [] {
      ApplyValidIff(d, run[0]);
      if Clean(d, run[0]) {
        RunValidIff(Apply(d, run[0]), run[1..], t);
      } else {
        assert !Valid(Apply(d, run[0]));
      }
    }
  }

  /** What every run keeps of the executions, even if the tables become invalid. */
  lemma {:induction false} RunEvolves(d: Db, run: seq<Transaction>, t: Db)
    requires WellFormed(d) && Runs(d, run, t)
    ensures WellFormed(t) && ExecutionsEvolve(d, t)
    decreases |run|
  {
    if run == [] {
      forall e: ExecutionId ensures ExecutionEvolves(d, t, e) {
      }
    } else {
      var s := Apply(d, run[0]);
      ApplyWellFormed(d, run[0]);
      ApplyExecutionsEvolve(d, run[0]);
      RunEvolves(s, run[1..], t);
      ExecutionsEvolveTransitive(d, s, t);
    }
  }

  /** No step of the run changes an inactive job or adds an execution to one. */
  ghost predicate AlwaysFinal(d: Db, run: seq<Transaction>)
    decreases |run|
  {
    run == [] || (JobsEvolve(d, Apply(d, run[0])) && AlwaysFinal(Apply(d, run[0]), run[1..]))
  }

  predicate SparingRun(d: Db, run: seq<Transaction>)
    decreases |run|
  {
    run == [] || (SparesInactive(d, run[0]) && SparingRun(Apply(d, run[0]), run[1..]))
  }

  lemma JobsSame(d: Db)
    ensures JobsEvolve(d, d)
  {
    forall j: JobId ensures JobEvolves(d, d, j) {
    }
    forall e: ExecutionId ensures AddedWhileActive(d, d, e) {
    }
  }

  /**
    Inactive jobs are final throughout a run, from any tables, if and only if every step spares them. They are
    not otherwise: `DoubleRetry.InactiveJobCanChange` is a run that ends in tables where the next retry adds an
    execution to an inactive job.
   */
  lemma {:induction false} InactiveJobsAreFinalIff(d: Db, run: seq<Transaction>, t: Db)
    requires WellFormed(d) && Runs(d, run, t)
    ensures AlwaysFinal(d, run) <==> SparingRun(d, run)
    ensures SparingRun(d, run) ==> JobsEvolve(d, t)
    decreases |run|
  {
    if run == [] {
      JobsSame(d);
    } else {
      var s := Apply(d, run[0]);
      ApplyWellFormed(d, run[0]);
      ApplySparesIff(d, run[0]);
      ApplyExecutionsEvolve(d, run[0]);
      InactiveJobsAreFinalIff(s, run[1..], t);
      RunEvolves(s, run[1..], t);
      if SparingRun(d, run) {
        JobsEvolveTransitive(d, s, t);
      }
    }
  }

  lemma {:induction false} CleanRunSpares(d: Db, run: seq<Transaction>, t: Db)
    requires Valid(d) && Runs(d, run, t) && CleanRun(d, run)
    ensures SparingRun(d, run)
    decreases |run|
  {
    if run != [] {
      ApplyValidIff(d, run[0]);
      ValidSpares(d, run[0]);
      CleanRunSpares(Apply(d, run[0]), run[1..], t);
    }
  }

  /** Inactive jobs are final in clean runs: nothing changes them or adds an execution to them. */
  lemma InactiveJobsAreFinal(d: Db, run: seq<Transaction>, t: Db)
    requires Valid(d) && Runs(d, run, t) && CleanRun(d, run)
    ensures AlwaysFinal(d, run) && JobsEvolve(d, t)
  {
    CleanRunSpares(d, run, t);
    InactiveJobsAreFinalIff(d, run, t);
  }

  // ---- The active job of a schedule.

  /** A job has a time it became inactive exactly if it has a status it ended with. */
  predicate MarksAgree(d: Db) {
    forall j :: j in d.jobs ==> d.jobs[j].inactiveSince.None? == d.jobs[j].inactiveStatus.None?
  }

  lemma AddedKeepsSchedules(d: Db, t: Db, batch: seq<NewJob>, claims: map<ScheduleId, nat>, now: Time)
    requires AddedTo(d, t, batch, claims, now) && ClaimsOf(d, batch, claims)
    requires WellFormed(d) && SchedulesAgree(d) && MarksAgree(d)
    ensures SchedulesAgree(t) && MarksAgree(t)
  {
    forall s, j: JobId | s in t.schedules
      ensures t.schedules[s].activeJob == Some(j)
         <==> j in t.jobs && t.jobs[j].schedule == Some(s) && t.jobs[j].inactiveStatus.None?
    {
      AddedSchedulesAgree(d, t, batch, claims, now, s, j);
    }
  }

  lemma ApplyKeepsSchedules(d: Db, tx: Transaction)
    requires WellFormed(d) && SchedulesAgree(d) && MarksAgree(d) && Allowed(d, tx)
    ensures SchedulesAgree(Apply(d, tx)) && MarksAgree(Apply(d, tx))
  {
    match tx
    case AddingJobs(newJobs, claims, now) =>
      AddedJobRows(d, newJobs, claims, now);
      AddedKeepsSchedules(d, AddJobs(d, newJobs, claims, now), newJobs, claims, now);
    case Starting(started) => StartedSchedulesAgree(d, started);
    case Finishing(finished, finish, times) => FinishedSchedulesAgree(d, finished, finish, times);
    case Retrying(retried) =>
      RetriedRows(d, retried);
      RetriedWellFormed(d, ExecutionsRetried(d, retried), FailureRows(retried),
                        FinishedJobs(d, FailureRows(retried)), retried);
    case Cancelling(jobs, at, now) =>
      var rows := CancelledRows(d, jobs, at);
      FinishedSchedulesAgree(d, rows, Cancellation, map j | j in FinishedJobs(d, rows) :: now);
    case AddingSchedules(_) =>
    case StoppingSchedules(_, _) =>
    case DeletingHistory(_, _, _) =>
  }

  lemma {:induction false} RunKeepsSchedules(d: Db, run: seq<Transaction>, t: Db)
    requires WellFormed(d) && SchedulesAgree(d) && MarksAgree(d) && Runs(d, run, t)
    ensures WellFormed(t) && SchedulesAgree(t) && MarksAgree(t)
    decreases |run|
  {
    if run != [] {
      ApplyWellFormed(d, run[0]);
      ApplyKeepsSchedules(d, run[0]);
      RunKeepsSchedules(Apply(d, run[0]), run[1..], t);
    }
  }

  /**
    After every run from tables of which that is true, as of the empty ones, unclean retries and the deletion of
    history included: each schedule has at most one job that is not marked as inactive, its active job.
   */
  lemma OneActiveJob(d: Db, run: seq<Transaction>, t: Db, s: ScheduleId, i: JobId, j: JobId)
    requires WellFormed(d) && SchedulesAgree(d) && MarksAgree(d) && Runs(d, run, t) && s in t.schedules
    requires i in t.jobs && t.jobs[i].schedule == Some(s) && t.jobs[i].inactiveStatus.None?
    requires j in t.jobs && t.jobs[j].schedule == Some(s) && t.jobs[j].inactiveStatus.None?
    ensures i == j && t.schedules[s].activeJob == Some(i)
  {
    RunKeepsSchedules(d, run, t);
  }

  /** And the active job of a schedule, if it has one, is such a job. */
  lemma ActiveJobIsUnmarked(d: Db, run: seq<Transaction>, t: Db, s: ScheduleId)
    requires WellFormed(d) && SchedulesAgree(d) && MarksAgree(d) && Runs(d, run, t)
    requires s in t.schedules && t.schedules[s].activeJob.Some?
    ensures var j := t.schedules[s].activeJob.value;
            && j in t.jobs && t.jobs[j].schedule == Some(s)
            && t.jobs[j].inactiveSince.None? && t.jobs[j].inactiveStatus.None?
  {
    RunKeepsSchedules(d, run, t);
  }

  /** Finished executions are final: no run changes their row. */
  lemma FinishedExecutionsAreFinal(d: Db, run: seq<Transaction>, t: Db, e: ExecutionId)
    requires WellFormed(d) && Runs(d, run, t)
    requires e in d.executions && !Active(d, e) && e in t.executions
    ensures t.executions[e] == d.executions[e]
  {
    RunEvolves(d, run, t);
    assert ExecutionEvolves(d, t, e);
  }

  // ---- Repeated calls.

  /** Whatever happens after an execution was finished, finishing it again finds nothing to do. */
  lemma NothingLeftToFinish(d: Db, rows: map<ExecutionId, Time>, finish: Finish, times: map<JobId, Time>, t: Db)
    requires WellFormed(d) && ExecutionsEvolve(FinishAndMark(d, rows, finish, times), t)
    requires forall e: ExecutionId :: e in rows ==> e < d.nextId
    ensures forall e: ExecutionId :: e in rows ==> !Active(t, e)
    ensures FinishedJobs(t, rows) == {}
  {
    var s := FinishAndMark(d, rows, finish, times);
    forall e: ExecutionId | e in rows ensures !Active(t, e) {
      assert ExecutionEvolves(s, t, e);
      if Active(d, e) {
        FinishedRow(d.executions[e], finish, rows[e]);
      }
    }
  }

  lemma FinishNothing(t: Db, rows: map<ExecutionId, Time>, finish: Finish)
    requires forall e: ExecutionId :: e in rows ==> !Active(t, e)
    ensures FinishAndMark(t, rows, finish, map[]) == t
  {
    var u := FinishAndMark(t, rows, finish, map[]);
    assert u.executions == t.executions;
    assert u.jobs == t.jobs;
    assert u.schedules == t.schedules;
  }

  /** Repeating `executions_succeeded` or `executions_failed`, with any run in between, changes nothing. */
  lemma FinishOnce(d: Db, rows: map<ExecutionId, Time>, finish: Finish, times: map<JobId, Time>,
                   run: seq<Transaction>, t: Db, again: map<JobId, Time>)
    requires WellFormed(d) && TimesOf(d, rows, times) && Runs(FinishAndMark(d, rows, finish, times), run, t)
    requires forall e: ExecutionId :: e in rows ==> e < d.nextId
    requires TimesOf(t, rows, again)
    ensures FinishAndMark(t, rows, finish, again) == t
  {
    FinishedWellFormed(d, rows, finish, times);
    RunEvolves(FinishAndMark(d, rows, finish, times), run, t);
    NothingLeftToFinish(d, rows, finish, times, t);
    assert again == map[];
    FinishNothing(t, rows, finish);
  }

  lemma {:induction false} FirstTimesNamed(batch: seq<FinishedExecution>)
    ensures forall e: ExecutionId :: e in FirstTimes(batch) <==> exists i :: 0 <= i < |batch| && batch[i].execution == e
  {
    if batch != [] {
      FirstTimesNamed(batch[..|batch| - 1]);
    }
  }

  lemma RetryNothing(t: Db, rows: map<ExecutionId, Time>, batch: seq<RetriedExecution>)
    requires forall e: ExecutionId :: e in rows ==> !Active(t, e)
    ensures RetryWith(t, rows, batch) == t.(nextId := t.nextId + |batch|)
  {
    assert FinishExecutions(t, rows, Failure).executions == t.executions;
    assert FinishedJobs(t, rows) == {};
    assert NewRows(t, RetryExecutions(batch), {}) == map[];
  }

  lemma NothingLeftToRetry(d: Db, s: Db, rows: map<ExecutionId, Time>, jobs: set<JobId>,
                           batch: seq<RetriedExecution>, t: Db)
    requires RetriedTo(d, s, rows, jobs, batch) && ExecutionsEvolve(s, t)
    requires forall e: ExecutionId :: e in rows ==> e < d.nextId
    ensures forall e: ExecutionId :: e in rows ==> !Active(t, e)
  {
    forall e: ExecutionId | e in rows ensures !Active(t, e) {
      assert ExecutionEvolves(s, t, e);
      if Active(d, e) {
        FinishedRow(d.executions[e], Failure, rows[e]);
      }
    }
  }

  lemma FailuresAreOld(d: Db, batch: seq<RetriedExecution>)
    requires forall i :: 0 <= i < |batch| ==> batch[i].execution < d.nextId
    ensures forall e: ExecutionId :: e in FailureRows(batch) ==> e < d.nextId
  {
    FirstTimesNamed(Failures(batch));
  }

  lemma RetryAgain(d: Db, s: Db, rows: map<ExecutionId, Time>, jobs: set<JobId>,
                   batch: seq<RetriedExecution>, run: seq<Transaction>, t: Db)
    requires RetriedTo(d, s, rows, jobs, batch) && WellFormed(s) && Runs(s, run, t)
    requires forall e: ExecutionId :: e in rows ==> e < d.nextId
    ensures RetryWith(t, rows, batch) == t.(nextId := t.nextId + |batch|)
  {
    RunEvolves(s, run, t);
    NothingLeftToRetry(d, s, rows, jobs, batch, t);
    RetryNothing(t, rows, batch);
  }

  /** Repeating `executions_retried`, with any run in between, adds and changes no row. */
  lemma RetryOnce(d: Db, batch: seq<RetriedExecution>, run: seq<Transaction>, t: Db)
    requires WellFormed(d) && Runs(ExecutionsRetried(d, batch), run, t)
    requires forall i :: 0 <= i < |batch| ==> batch[i].execution < d.nextId
    ensures ExecutionsRetried(t, batch) == t.(nextId := t.nextId + |batch|)
  {
    ApplyWellFormed(d, Retrying(batch));
    RetriedRows(d, batch);
    FailuresAreOld(d, batch);
    RetryAgain(d, ExecutionsRetried(d, batch), FailureRows(batch), FinishedJobs(d, FailureRows(batch)), batch, run, t);
  }
}
