/**
  What every transaction writes, column by column: which rows it adds, changes and removes, and the values it
  puts in them.
 */
module TableColumns {
  import opened Common
  import opened Tables
  import opened TableInvariants
  import opened TableRuns
  import opened Backend

  /** The generated status of a row is decided by which of its times are set, at most one of the last three. */
  lemma StatusByTimes(row: Execution)
    ensures row.IsActive() <==> row.succeededAt.None? && row.failedAt.None? && row.cancelledAt.None?
    ensures row.IsActive() ==> row.Status() == if row.startedAt.None? then Pending else InProgress
    ensures row.succeededAt.Some? && row.failedAt.None? && row.cancelledAt.None? ==> row.Status() == Succeeded
    ensures row.succeededAt.None? && row.failedAt.Some? && row.cancelledAt.None? ==> row.Status() == Failed
    ensures row.succeededAt.None? && row.failedAt.None? && row.cancelledAt.Some? ==> row.Status() == Cancelled
  {
  }

  // ---- Added executions.

  /** A batch of retries adds, for each entry whose job had an execution failed, one execution of that job. */
  lemma RetriedColumns(d: Db, batch: seq<RetriedExecution>, i: nat)
    requires WellFormed(d) && i < |batch|
    ensures var e, t := d.nextId + i, ExecutionsRetried(d, batch);
            && e !in d.executions
            && (e in t.executions <==> FailsJob(d, batch, batch[i].job))
            && (e in t.executions ==>
                  var row := t.executions[e];
                  && row.job == batch[i].job && row.job in d.jobs
                  && row.target == batch[i].retryAt && row.priority == d.jobs[row.job].definition.priority
                  && row.executor.None? && row.startedAt.None?
                  && row.succeededAt.None? && row.failedAt.None? && row.cancelledAt.None?)
  {
    var rows := FailureRows(batch);
    RetriedRows(d, batch);
    FailedJobs(d, batch, batch[i].job);
    RetriedRowAt(d, ExecutionsRetried(d, batch), rows, FinishedJobs(d, rows), batch, i);
  }

  lemma RetriedRowAt(d: Db, t: Db, rows: map<ExecutionId, Time>, jobs: set<JobId>, batch: seq<RetriedExecution>, i: nat)
    requires RetriedTo(d, t, rows, jobs, batch) && i < |batch|
    ensures var e := d.nextId + i;
            && e !in d.executions
            && (e in t.executions <==> batch[i].job in jobs)
            && (e in t.executions ==>
                  var row := t.executions[e];
                  && row.job == batch[i].job && row.job in d.jobs
                  && row.target == batch[i].retryAt && row.priority == d.jobs[row.job].definition.priority
                  && row.executor.None? && row.startedAt.None?
                  && row.succeededAt.None? && row.failedAt.None? && row.cancelledAt.None?)
  {
    assert At(batch, d.nextId, d.nextId + i) == batch[i];
    assert AddedBy(d.nextId, batch, jobs, d.nextId + i) <==> batch[i].job in jobs;
  }

  /** The batch fails an execution of the job. */
  ghost predicate FailsJob(d: Db, batch: seq<RetriedExecution>, j: JobId) {
    exists k :: 0 <= k < |batch| && Active(d, batch[k].execution) && d.executions[batch[k].execution].job == j
  }

  lemma FailedJobs(d: Db, batch: seq<RetriedExecution>, j: JobId)
    ensures j in FinishedJobs(d, FailureRows(batch)) <==> FailsJob(d, batch, j)
  {
    var failures := Failures(batch);
    FirstTimesNamed(failures);
    forall k | 0 <= k < |batch| ensures batch[k].execution in FailureRows(batch) {
      assert failures[k].execution == batch[k].execution;
    }
  }

  lemma PendingColumns(job: JobId, target: Time, priority: int)
    ensures var row := PendingRow(job, target, priority);
            && row.job == job && row.target == target && row.priority == priority
            && row.executor.None? && row.startedAt.None?
            && row.succeededAt.None? && row.failedAt.None? && row.cancelledAt.None?
  {
  }

  /** Nothing else is added by retrying, and nothing is changed but that active executions of the batch fail. */
  lemma RetriedOthers(d: Db, batch: seq<RetriedExecution>, e: ExecutionId)
    requires WellFormed(d)
    ensures var t := ExecutionsRetried(d, batch);
            && t.jobs == d.jobs && t.schedules == d.schedules
            && (e in t.executions && e !in d.executions ==> d.nextId <= e < d.nextId + |batch|)
            && (e in d.executions ==> e in t.executions)
            && (e in d.executions && (!Active(d, e) || forall k :: 0 <= k < |batch| ==> batch[k].execution != e) ==>
                  t.executions[e] == d.executions[e])
            && forall i :: 0 <= i < |batch| && batch[i].execution == e && Active(d, e)
                           && (forall k :: 0 <= k < i ==> batch[k].execution != e) ==>
                 t.executions[e] == d.executions[e].(failedAt := Some(batch[i].failedAt))
  {
    var failures := Failures(batch);
    RetriedRows(d, batch);
    FirstTimesNamed(failures);
    assert forall k :: 0 <= k < |batch| ==> failures[k] == FinishedExecution(batch[k].execution, batch[k].failedAt);
    forall i | 0 <= i < |batch| && batch[i].execution == e && (forall k :: 0 <= k < i ==> batch[k].execution != e)
      ensures e in FailureRows(batch) && FailureRows(batch)[e] == batch[i].failedAt
    {
      FirstTimeOf(failures, i);
    }
  }

  /** Of several entries for one execution, the first one counts. */
  lemma {:induction false} FirstTimeOf(batch: seq<FinishedExecution>, i: nat)
    requires i < |batch| && forall k :: 0 <= k < i ==> batch[k].execution != batch[i].execution
    ensures batch[i].execution in FirstTimes(batch) && FirstTimes(batch)[batch[i].execution] == batch[i].at
  {
    var n := |batch| - 1;
    if i < n {
      FirstTimeOf(batch[..n], i);
    } else {
      FirstTimesNamed(batch[..n]);
    }
  }

  /** The columns of the `i`-th job of a batch, if it is added, and of its one execution, due when the job is. */
  ghost predicate HasColumns(d: Db, t: Db, batch: seq<NewJob>, claims: map<ScheduleId, nat>, now: Time, i: nat)
    requires i < |batch|
  {
    var j, e, schedule := d.nextId + i, d.nextId + |batch| + i, batch[i].schedule;
    && j !in d.jobs && e !in d.executions
    && (j in t.jobs <==> e in t.executions)
    && (j in t.jobs <==> schedule.None? || (schedule.value in claims && claims[schedule.value] == i))
    && (j in t.jobs ==>
          var job, row := t.jobs[j], t.executions[e];
          && job.definition == batch[i].definition && job.schedule == schedule && job.createdAt == now
          && job.inactiveSince.None? && job.inactiveStatus.None?
          && row.job == j
          && row.target == batch[i].definition.target && row.priority == batch[i].definition.priority
          && row.executor.None? && row.startedAt.None?
          && row.succeededAt.None? && row.failedAt.None? && row.cancelledAt.None?)
  }

  /** Nothing but such rows is added, and of the old rows only the claimed schedules change. */
  ghost predicate OthersKept(d: Db, t: Db, batch: seq<NewJob>, claims: map<ScheduleId, nat>) {
    && (forall j: JobId :: j in d.jobs ==> j in t.jobs && t.jobs[j] == d.jobs[j])
    && (forall j: JobId :: j in t.jobs && j !in d.jobs ==> d.nextId <= j < d.nextId + |batch|)
    && (forall e: ExecutionId :: e in d.executions ==> e in t.executions && t.executions[e] == d.executions[e])
    && (forall e: ExecutionId :: e in t.executions && e !in d.executions ==>
          d.nextId + |batch| <= e < d.nextId + |batch| + |batch|)
    && t.schedules.Keys == d.schedules.Keys
    && forall s :: s in d.schedules ==>
         t.schedules[s] == if s in claims then d.schedules[s].(activeJob := Some(d.nextId + claims[s])) else d.schedules[s]
  }

  /** Adding jobs adds exactly those without a schedule and those that claimed theirs, each with one execution. */
  lemma AddedColumns(d: Db, batch: seq<NewJob>, claims: map<ScheduleId, nat>, now: Time, i: nat)
    requires WellFormed(d) && i < |batch|
    ensures HasColumns(d, AddJobs(d, batch, claims, now), batch, claims, now, i)
    ensures OthersKept(d, AddJobs(d, batch, claims, now), batch, claims)
  {
    AddedJobRows(d, batch, claims, now);
    AddedHasColumns(d, AddJobs(d, batch, claims, now), batch, claims, now, i);
    AddedKeepsOthers(d, AddJobs(d, batch, claims, now), batch, claims, now);
  }

  lemma AddedHasColumns(d: Db, t: Db, batch: seq<NewJob>, claims: map<ScheduleId, nat>, now: Time, i: nat)
    requires WellFormed(d) && i < |batch| && AddedTo(d, t, batch, claims, now)
    ensures HasColumns(d, t, batch, claims, now, i)
  {
    var j, e := d.nextId + i, d.nextId + |batch| + i;
    assert At(batch, d.nextId, j) == batch[i];
    assert AddedJob(d, batch, claims, j) <==> FirstOf(d, batch, claims, e);
    PendingColumns(j, batch[i].definition.target, batch[i].definition.priority);
  }

  lemma AddedKeepsOthers(d: Db, t: Db, batch: seq<NewJob>, claims: map<ScheduleId, nat>, now: Time)
    requires AddedTo(d, t, batch, claims, now)
    ensures OthersKept(d, t, batch, claims)
  {
    forall e: ExecutionId | e in t.executions && e !in d.executions
      ensures d.nextId + |batch| <= e < d.nextId + |batch| + |batch|
    {
      assert FirstOf(d, batch, claims, e);
    }
  }

  // ---- Started and finished executions.

  /** What a start call writes: the executor and the time of the first entry that can start an execution. */
  lemma StartedColumns(d: Db, batch: seq<StartedExecution>, e: ExecutionId, i: nat)
    requires e in d.executions && i < |batch| && batch[i].execution == e
    ensures var row, later := d.executions[e], ExecutionsStarted(d, StartRows(d, batch)).executions[e];
            && (row.Status().Pending? && (forall k :: 0 <= k < i ==> batch[k].execution != e) ==>
                  later == row.(executor := Some(batch[i].executor), startedAt := Some(batch[i].at)))
            && (row.Status().InProgress? && row.executor == Some(batch[i].executor)
                && (forall k :: 0 <= k < i ==> batch[k].execution != e || row.executor != Some(batch[k].executor)) ==>
                  later == row.(startedAt := Some(batch[i].at)))
  {
    if Starts(d, batch[i]) && forall k :: 0 <= k < i ==> batch[k].execution != e || !Starts(d, batch[k]) {
      FirstStartRow(d, batch, i);
    }
  }

  /** Rows without such an entry stay as they are: finished executions, and those that others have started. */
  lemma StartedOthers(d: Db, batch: seq<StartedExecution>, e: ExecutionId)
    requires e in d.executions
    requires forall k :: 0 <= k < |batch| && batch[k].execution == e ==>
               && !d.executions[e].Status().Pending?
               && !(d.executions[e].Status().InProgress? && d.executions[e].executor == Some(batch[k].executor))
    ensures ExecutionsStarted(d, StartRows(d, batch)).executions[e] == d.executions[e]
  {
    StartRowsStart(d, batch, e);
  }

  lemma {:induction false} FirstStartRow(d: Db, batch: seq<StartedExecution>, i: nat)
    requires i < |batch| && Starts(d, batch[i])
    requires forall k :: 0 <= k < i ==> batch[k].execution != batch[i].execution || !Starts(d, batch[k])
    ensures batch[i].execution in StartRows(d, batch)
    ensures StartRows(d, batch)[batch[i].execution] == StartedRow(batch[i].executor, batch[i].at)
  {
    var n := |batch| - 1;
    if i < n {
      FirstStartRow(d, batch[..n], i);
    } else {
      StartRowsStart(d, batch[..n], batch[i].execution);
    }
  }

  /**
    What finishing writes: an active execution of the batch gets the time of its first entry in the one column
    of the way it ends.
   */
  lemma FinishedColumns(d: Db, batch: seq<FinishedExecution>, finish: Finish, times: map<JobId, Time>, i: nat)
    requires i < |batch| && Active(d, batch[i].execution)
    requires forall k :: 0 <= k < i ==> batch[k].execution != batch[i].execution
    ensures var e, t := batch[i].execution, FinishAndMark(d, FirstTimes(batch), finish, times);
            var row := d.executions[e];
            && (finish.Success? ==> t.executions[e] == row.(succeededAt := Some(batch[i].at)))
            && (finish.Failure? ==> t.executions[e] == row.(failedAt := Some(batch[i].at)))
            && (finish.Cancellation? ==> t.executions[e] == row.(cancelledAt := Some(batch[i].at)))
  {
    FirstTimeOf(batch, i);
  }

  /** Executions that are finished already, or not in the batch, stay as they are. */
  lemma FinishedOthers(d: Db, batch: seq<FinishedExecution>, finish: Finish, times: map<JobId, Time>, e: ExecutionId)
    requires !Active(d, e) || forall k :: 0 <= k < |batch| ==> batch[k].execution != e
    ensures var t := FinishAndMark(d, FirstTimes(batch), finish, times);
            && t.executions.Keys == d.executions.Keys
            && (e in d.executions ==> t.executions[e] == d.executions[e])
  {
    FirstTimesNamed(batch);
  }

  /** The batch finishes an execution of the job. */
  ghost predicate FinishesJob(d: Db, batch: seq<FinishedExecution>, j: JobId) {
    exists k :: 0 <= k < |batch| && Active(d, batch[k].execution) && d.executions[batch[k].execution].job == j
  }

  lemma JobFinished(d: Db, batch: seq<FinishedExecution>, j: JobId)
    ensures j in FinishedJobs(d, FirstTimes(batch)) <==> FinishesJob(d, batch, j)
  {
    FirstTimesNamed(batch);
  }

  /** The jobs of finished executions are marked with how and when they ended, and their schedules are freed. */
  lemma MarkedColumns(d: Db, batch: seq<FinishedExecution>, finish: Finish, times: map<JobId, Time>, t: Db, j: JobId)
    requires TimesOf(d, FirstTimes(batch), times) && t == FinishAndMark(d, FirstTimes(batch), finish, times)
    requires j in d.jobs && FinishesJob(d, batch, j)
    ensures j in t.jobs && t.jobs[j].inactiveSince.Some?
    ensures exists k :: 0 <= k < |batch| && Active(d, batch[k].execution) && d.executions[batch[k].execution].job == j
                        && t.jobs[j].inactiveSince.value == batch[k].at
    ensures t.jobs[j] == d.jobs[j].(inactiveSince := t.jobs[j].inactiveSince, inactiveStatus := t.jobs[j].inactiveStatus)
    ensures finish.Success? ==> t.jobs[j].inactiveStatus == Some(Succeeded)
    ensures finish.Failure? ==> t.jobs[j].inactiveStatus == Some(Failed)
    ensures finish.Cancellation? ==> t.jobs[j].inactiveStatus == Some(ExecutionStatus.Cancelled)
    ensures forall s :: s in d.schedules && d.schedules[s].activeJob == Some(j) ==>
              s in t.schedules && t.schedules[s] == d.schedules[s].(activeJob := None)
  {
    JobFinished(d, batch, j);
    var e :| e in FirstTimes(batch) && Active(d, e) && Of(d, e, j) && FirstTimes(batch)[e] == times[j];
    var k := EntryOfTime(batch, e);
  }

  /** Other jobs are not marked, and other schedules not freed. */
  lemma MarkedOthers(d: Db, batch: seq<FinishedExecution>, finish: Finish, times: map<JobId, Time>, t: Db)
    requires TimesOf(d, FirstTimes(batch), times) && t == FinishAndMark(d, FirstTimes(batch), finish, times)
    ensures t.jobs.Keys == d.jobs.Keys && t.schedules.Keys == d.schedules.Keys && t.nextId == d.nextId
    ensures forall j :: j in d.jobs && !FinishesJob(d, batch, j) ==> t.jobs[j] == d.jobs[j]
    ensures forall s :: s in d.schedules
                        && (d.schedules[s].activeJob.Some? ==> !FinishesJob(d, batch, d.schedules[s].activeJob.value)) ==>
              t.schedules[s] == d.schedules[s]
  {
    forall j: JobId ensures j in times <==> FinishesJob(d, batch, j) {
      JobFinished(d, batch, j);
    }
  }

  lemma {:induction false} EntryOfTime(batch: seq<FinishedExecution>, e: ExecutionId) returns (k: nat)
    requires e in FirstTimes(batch)
    ensures k < |batch| && batch[k].execution == e && batch[k].at == FirstTimes(batch)[e]
  {
    var n := |batch| - 1;
    if e in FirstTimes(batch[..n]) {
      k := EntryOfTime(batch[..n], e);
    } else {
      k := n;
    }
  }

  /** The job has an active execution. */
  ghost predicate HasActive(d: Db, j: JobId) { exists e :: Active(d, e) && d.executions[e].job == j }

  /** Cancelling writes its time to the active executions of the selected jobs, and marks exactly their jobs. */
  lemma CancelledColumns(d: Db, selected: set<JobId>, at: Time, now: Time, t: Db)
    requires t == CancelJobs(d, selected, at, now)
    ensures t.executions.Keys == d.executions.Keys && t.jobs.Keys == d.jobs.Keys && t.schedules.Keys == d.schedules.Keys
    ensures forall e: ExecutionId :: e in d.executions ==>
              t.executions[e] == if Active(d, e) && d.executions[e].job in selected
                                 then d.executions[e].(cancelledAt := Some(at)) else d.executions[e]
    ensures forall j: JobId :: j in d.jobs ==>
              t.jobs[j] == if j in selected && HasActive(d, j)
                           then d.jobs[j].(inactiveSince := Some(now), inactiveStatus := Some(ExecutionStatus.Cancelled))
                           else d.jobs[j]
    ensures forall s :: s in d.schedules ==>
              var active := d.schedules[s].activeJob;
              t.schedules[s] == if active.Some? && active.value in selected && HasActive(d, active.value)
                                then d.schedules[s].(activeJob := None) else d.schedules[s]
  {
    var rows := CancelledRows(d, selected, at);
    forall j: JobId ensures j in FinishedJobs(d, rows) <==> j in selected && HasActive(d, j) {
      if j in FinishedJobs(d, rows) {
        var e :| e in rows && Active(d, e) && d.executions[e].job == j;
      }
      if j in selected && HasActive(d, j) {
        var e :| Active(d, e) && d.executions[e].job == j;
        assert e in rows;
      }
    }
  }

  // ---- Schedules and history.

  /** New schedules are pending ones with the given definitions, and stopping writes its time once. */
  lemma ScheduleColumns(d: Db, batch: seq<ScheduleDefinition>, selected: set<ScheduleId>, now: Time, s: ScheduleId)
    requires WellFormed(d)
    ensures var t := AddSchedules(d, batch);
            && t.jobs == d.jobs && t.executions == d.executions
            && (s in d.schedules ==> s in t.schedules && t.schedules[s] == d.schedules[s])
            && (s !in d.schedules ==>
                  && (s in t.schedules <==> d.nextId <= s < d.nextId + |batch|)
                  && (s in t.schedules ==>
                        && t.schedules[s].definition == batch[s - d.nextId]
                        && t.schedules[s].stoppedAt.None? && t.schedules[s].activeJob.None?))
    ensures var t := StopSchedules(d, selected, now);
            && t.jobs == d.jobs && t.executions == d.executions && t.schedules.Keys == d.schedules.Keys
            && (s in d.schedules ==>
                  && t.schedules[s].definition == d.schedules[s].definition && t.schedules[s].activeJob == d.schedules[s].activeJob
                  && t.schedules[s].stoppedAt
                     == if s in selected && d.schedules[s].stoppedAt.None? then Some(now) else d.schedules[s].stoppedAt)
  {
  }

  /** Deleting history removes the given jobs with all of their executions, the given schedules, and nothing else. */
  lemma DeletedColumns(d: Db, jobs: set<JobId>, schedules: set<ScheduleId>)
    ensures var t := DeleteHistory(d, jobs, schedules);
            && (forall j: JobId :: j in t.jobs <==> j in d.jobs && j !in jobs)
            && (forall j: JobId :: j in t.jobs ==> t.jobs[j] == d.jobs[j])
            && (forall e: ExecutionId :: e in t.executions <==> e in d.executions && d.executions[e].job !in jobs)
            && (forall e: ExecutionId :: e in t.executions ==> t.executions[e] == d.executions[e])
            && (forall s: ScheduleId :: s in t.schedules <==> s in d.schedules && s !in schedules)
            && (forall s: ScheduleId :: s in t.schedules ==> t.schedules[s] == d.schedules[s])
  {
  }

  /**
    From valid tables, only what has been over since before the given time is deleted: no active execution and no
    active job of a schedule is.
   */
  lemma DeletedIsOver(d: Db, before: Time, jobs: set<JobId>, schedules: set<ScheduleId>)
    requires Valid(d) && Deletable(d, before, jobs, schedules)
    ensures var t := DeleteHistory(d, jobs, schedules);
            && (forall j: JobId :: j in d.jobs && j !in t.jobs ==>
                  d.jobs[j].inactiveSince.Some? && d.jobs[j].inactiveSince.value < before)
            && (forall s: ScheduleId :: s in d.schedules && s !in t.schedules ==>
                  d.schedules[s].stoppedAt.Some? && d.schedules[s].stoppedAt.value < before)
            && (forall e: ExecutionId :: Active(d, e) ==> e in t.executions)
            && (forall s: ScheduleId :: s in t.schedules && t.schedules[s].activeJob.Some? ==>
                  t.schedules[s].activeJob.value in t.jobs)
  {
    forall j | j in jobs ensures d.jobs[j].inactiveStatus.Some? {
      assert JobAgrees(d, j);
    }
    forall e: ExecutionId | Active(d, e) ensures d.executions[e].job !in jobs {
      UnmarkedOfActive(d, e);
    }
  }
}
