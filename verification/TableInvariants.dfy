/** What every transaction keeps true of the tables. */
module TableInvariants {
  import opened Common
  import opened Tables

  /** References and the id counter, which every transaction keeps even from invalid tables. */
  ghost predicate WellFormed(d: Db) {
    && (forall e :: e in d.executions ==> e < d.nextId && d.executions[e].job in d.jobs)
    && (forall j :: j in d.jobs ==> j < d.nextId)
    && (forall s :: s in d.schedules ==> s < d.nextId)
    // Jobs refer to schedules that were added before them.
    && (forall j :: j in d.jobs && d.jobs[j].schedule.Some? ==> d.jobs[j].schedule.value < d.nextId)
  }

  ghost predicate IsMax(ids: set<nat>, m: nat) { m in ids && forall e: nat :: e in ids ==> e <= m }

  lemma {:induction false} MaxOf(ids: set<nat>) returns (m: nat)
    requires ids != {}
    ensures IsMax(ids, m)
  {
    var first: nat :| first in ids;
    var rest := ids - {first};
    m := first;
    if rest != {} {
      var r := MaxOf(rest);
      if first < r {
        m := r;
      }
      forall e: nat | e in ids ensures e <= m {
        assert e == first || e in rest;
      }
    } else {
      forall e: nat | e in ids ensures e <= m {
        assert e !in rest;
      }
    }
  }

  lemma MaxExists(ids: set<nat>)
    requires ids != {}
    ensures exists m: nat :: IsMax(ids, m)
  {
    var _ := MaxOf(ids);
  }

  /** The highest execution id of a job. */
  ghost function Latest(d: Db, j: JobId): (e: ExecutionId)
    requires ExecutionsOf(d, j) != {}
    ensures Of(d, e, j) && forall f: ExecutionId :: Of(d, f, j) ==> f <= e
  {
    MaxExists(ExecutionsOf(d, j));
    var e: ExecutionId :| IsMax(ExecutionsOf(d, j), e);
    assert forall f: ExecutionId :: Of(d, f, j) ==> f in ExecutionsOf(d, j);
    e
  }

  /** What a job stores about an execution that is its latest: nothing while it is active. */
  function StoredStatus(row: Execution): Option<ExecutionStatus> {
    if row.IsActive() then None else Some(row.Status())
  }

  /**
    The cached job status agrees with the executions: every job has executions, only the latest
    may be active, and the job stores the latest one's status exactly if it is not.
   */
  ghost predicate StatusesAgree(d: Db) {
    && (forall j {:trigger JobAgrees(d, j)} :: j in d.jobs ==> JobAgrees(d, j))
    && (forall e {:trigger ActiveAgrees(d, e)} :: Active(d, e) ==> ActiveAgrees(d, e))
  }

  ghost predicate JobAgrees(d: Db, j: JobId)
    requires j in d.jobs
  {
    && ExecutionsOf(d, j) != {}
    && d.jobs[j].inactiveStatus == StoredStatus(d.executions[Latest(d, j)])
    && d.jobs[j].inactiveSince.None? == d.jobs[j].inactiveStatus.None?
  }

  ghost predicate ActiveAgrees(d: Db, e: ExecutionId)
    requires Active(d, e)
  {
    ExecutionsOf(d, d.executions[e].job) != {} && e == Latest(d, d.executions[e].job)
  }

  /** `active_job_id = j` exactly if `j` is a job of the schedule without a stored status. */
  ghost predicate SchedulesAgree(d: Db) {
    forall s, j :: s in d.schedules ==>
      (d.schedules[s].activeJob == Some(j)
       <==> j in d.jobs && d.jobs[j].schedule == Some(s) && d.jobs[j].inactiveStatus.None?)
  }

  ghost predicate Valid(d: Db) { WellFormed(d) && StatusesAgree(d) && SchedulesAgree(d) }

  lemma EmptyValid()
    ensures Valid(EMPTY)
  {
  }

  lemma OneActive(d: Db, e: ExecutionId, f: ExecutionId)
    requires StatusesAgree(d)
    requires Active(d, e) && Active(d, f) && d.executions[e].job == d.executions[f].job
    ensures e == f
  {
    assert ActiveAgrees(d, e) && ActiveAgrees(d, f);
  }

  lemma UnmarkedOfActive(d: Db, e: ExecutionId)
    requires WellFormed(d) && StatusesAgree(d) && Active(d, e)
    ensures d.executions[e].job in d.jobs && d.jobs[d.executions[e].job].inactiveStatus.None?
  {
    assert ActiveAgrees(d, e) && JobAgrees(d, d.executions[e].job);
  }

  /** Only columns of existing rows differ. */
  ghost predicate SameRows(d: Db, t: Db) {
    && t.executions.Keys == d.executions.Keys
    && t.jobs.Keys == d.jobs.Keys
    && forall e :: e in d.executions ==> t.executions[e].job == d.executions[e].job
  }

  lemma SameLatest(d: Db, t: Db, j: JobId)
    requires SameRows(d, t)
    ensures ExecutionsOf(t, j) == ExecutionsOf(d, j)
    ensures ExecutionsOf(d, j) != {} ==> Latest(t, j) == Latest(d, j)
  {
    assert ExecutionsOf(t, j) == ExecutionsOf(d, j);
    if ExecutionsOf(d, j) != {} {
      assert Of(d, Latest(t, j), j) && Of(t, Latest(d, j), j);
    }
  }

  lemma StartedSameRows(d: Db, rows: map<ExecutionId, StartedRow>)
    ensures SameRows(d, ExecutionsStarted(d, rows))
  {
  }

  lemma StartedStatusesAgree(d: Db, rows: map<ExecutionId, StartedRow>)
    requires StatusesAgree(d)
    ensures StatusesAgree(ExecutionsStarted(d, rows))
  {
    var t := ExecutionsStarted(d, rows);
    StartedSameRows(d, rows);
    forall j | j in t.jobs ensures JobAgrees(t, j) {
      assert JobAgrees(d, j);
      SameLatest(d, t, j);
    }
    forall e | Active(t, e) ensures ActiveAgrees(t, e) {
      assert Active(d, e) && ActiveAgrees(d, e);
      SameLatest(d, t, d.executions[e].job);
    }
  }

  lemma StartedWellFormed(d: Db, rows: map<ExecutionId, StartedRow>)
    requires WellFormed(d)
    ensures WellFormed(ExecutionsStarted(d, rows))
  {
  }

  lemma StartedSchedulesAgree(d: Db, rows: map<ExecutionId, StartedRow>)
    requires SchedulesAgree(d)
    ensures SchedulesAgree(ExecutionsStarted(d, rows))
  {
  }

  lemma StartedValid(d: Db, rows: map<ExecutionId, StartedRow>)
    requires Valid(d)
    ensures Valid(ExecutionsStarted(d, rows))
  {
    StartedWellFormed(d, rows);
    StartedStatusesAgree(d, rows);
    StartedSchedulesAgree(d, rows);
  }

  lemma FinishedSameRows(d: Db, rows: map<ExecutionId, Time>, finish: Finish, times: map<JobId, Time>)
    ensures SameRows(d, FinishAndMark(d, rows, finish, times))
  {
  }

  lemma FinishedRow(row: Execution, finish: Finish, at: Time)
    requires row.IsActive()
    ensures FinishRow(row, finish, at).Status() == finish.Status()
    ensures StoredStatus(FinishRow(row, finish, at)) == Some(finish.Status())
  {
  }

  /** The latest execution of a job is finished exactly if the job is one of the finished ones. */
  lemma FinishedIsLatest(d: Db, rows: map<ExecutionId, Time>, j: JobId)
    requires StatusesAgree(d) && j in d.jobs
    ensures JobAgrees(d, j)
    ensures j in FinishedJobs(d, rows) <==> Active(d, Latest(d, j)) && Latest(d, j) in rows
  {
    assert JobAgrees(d, j);
    if j in FinishedJobs(d, rows) {
      var f :| f in rows && Active(d, f) && d.executions[f].job == j;
      assert ActiveAgrees(d, f);
    }
  }

  lemma FinishedJobAgrees(d: Db, rows: map<ExecutionId, Time>, finish: Finish, times: map<JobId, Time>, j: JobId)
    requires StatusesAgree(d) && times.Keys == FinishedJobs(d, rows) && j in d.jobs
    ensures JobAgrees(FinishAndMark(d, rows, finish, times), j)
  {
    FinishedIsLatest(d, rows, j);
    FinishedSameRows(d, rows, finish, times);
    SameLatest(d, FinishAndMark(d, rows, finish, times), j);
    var e := Latest(d, j);
    if j in times {
      FinishedRow(d.executions[e], finish, rows[e]);
    }
  }

  lemma FinishedStatusesAgree(d: Db, rows: map<ExecutionId, Time>, finish: Finish, times: map<JobId, Time>)
    requires StatusesAgree(d) && times.Keys == FinishedJobs(d, rows)
    ensures StatusesAgree(FinishAndMark(d, rows, finish, times))
  {
    var t := FinishAndMark(d, rows, finish, times);
    forall j | j in t.jobs ensures JobAgrees(t, j) {
      FinishedJobAgrees(d, rows, finish, times, j);
    }
    forall e | Active(t, e) ensures ActiveAgrees(t, e) {
      assert Active(d, e) && ActiveAgrees(d, e);
      SameLatest(d, t, d.executions[e].job);
    }
  }

  lemma FinishedWellFormed(d: Db, rows: map<ExecutionId, Time>, finish: Finish, times: map<JobId, Time>)
    requires WellFormed(d)
    ensures WellFormed(FinishAndMark(d, rows, finish, times))
  {
  }

  lemma FinishedSchedulesAgree(d: Db, rows: map<ExecutionId, Time>, finish: Finish, times: map<JobId, Time>)
    requires SchedulesAgree(d)
    ensures SchedulesAgree(FinishAndMark(d, rows, finish, times))
  {
  }

  lemma FinishedValid(d: Db, rows: map<ExecutionId, Time>, finish: Finish, times: map<JobId, Time>)
    requires Valid(d) && times.Keys == FinishedJobs(d, rows)
    ensures Valid(FinishAndMark(d, rows, finish, times))
  {
    FinishedWellFormed(d, rows, finish, times);
    FinishedStatusesAgree(d, rows, finish, times);
    FinishedSchedulesAgree(d, rows, finish, times);
  }

  lemma CancelledValid(d: Db, selected: set<JobId>, at: Time, now: Time)
    requires Valid(d)
    ensures Valid(CancelJobs(d, selected, at, now))
  {
    var rows := CancelledRows(d, selected, at);
    FinishedValid(d, rows, Cancellation, map j | j in FinishedJobs(d, rows) :: now);
  }

  // ---- Retrying.

  ghost predicate OnlyEntry(batch: seq<RetriedExecution>, j: JobId, i: nat) {
    i < |batch| && batch[i].job == j && forall k: nat :: k < |batch| && batch[k].job == j ==> k == i
  }

  /** Exactly one entry of the batch names the job. */
  ghost predicate NamedOnce(batch: seq<RetriedExecution>, j: JobId) {
    exists i: nat :: OnlyEntry(batch, j, i)
  }

  /** Each job that has an execution failed by the batch is named by exactly one entry. */
  ghost predicate CleanBatch(d: Db, batch: seq<RetriedExecution>) {
    forall j :: j in FinishedJobs(d, FailureRows(batch)) ==> NamedOnce(batch, j)
  }

  lemma FinishedJobsExist(d: Db, rows: map<ExecutionId, Time>)
    requires WellFormed(d)
    ensures FinishedJobs(d, rows) <= d.jobs.Keys
  {
  }

  /** `e` is the id of the execution added for an entry of the batch whose job is in `jobs`. */
  predicate AddedBy(base: nat, batch: seq<RetriedExecution>, jobs: set<JobId>, e: ExecutionId) {
    base <= e < base + |batch| && At(batch, base, e).job in jobs
  }

  function FailedRow(rows: map<ExecutionId, Time>, e: ExecutionId, row: Execution): Execution {
    if e in rows && row.IsActive() then FinishRow(row, Failure, rows[e]) else row
  }

  /** The rows after a retried batch: the old ones, failed if named, and the added ones. */
  ghost predicate RetriedTo(d: Db, t: Db, rows: map<ExecutionId, Time>, jobs: set<JobId>, batch: seq<RetriedExecution>) {
    && t.jobs == d.jobs && t.schedules == d.schedules && t.nextId == d.nextId + |batch|
    && jobs <= d.jobs.Keys
    && (forall e: ExecutionId :: e in t.executions <==> e in d.executions || AddedBy(d.nextId, batch, jobs, e))
    && (forall e: ExecutionId :: e in d.executions ==>
          e < d.nextId && d.executions[e].job in d.jobs && t.executions[e] == FailedRow(rows, e, d.executions[e]))
    && (forall e: ExecutionId :: AddedBy(d.nextId, batch, jobs, e) ==>
          && At(batch, d.nextId, e).job in d.jobs
          && t.executions[e] == PendingRow(At(batch, d.nextId, e).job, At(batch, d.nextId, e).retryAt,
                                           d.jobs[At(batch, d.nextId, e).job].definition.priority))
  }

  lemma AddedRows(d: Db, batch: seq<RetriedExecution>, jobs: set<JobId>)
    requires jobs <= d.jobs.Keys
    ensures var rows := NewRows(d, RetryExecutions(batch), jobs);
            && (forall e: ExecutionId :: e in rows <==> AddedBy(d.nextId, batch, jobs, e))
            && (forall e: ExecutionId :: AddedBy(d.nextId, batch, jobs, e) ==>
                  rows[e] == PendingRow(At(batch, d.nextId, e).job, At(batch, d.nextId, e).retryAt,
                                        d.jobs[At(batch, d.nextId, e).job].definition.priority))
  {
    var added := RetryExecutions(batch);
    assert forall e: nat :: d.nextId <= e < d.nextId + |batch| ==>
      At(added, d.nextId, e) == NewExecution(At(batch, d.nextId, e).job, At(batch, d.nextId, e).retryAt);
  }

  lemma RetriedRows(d: Db, batch: seq<RetriedExecution>)
    requires WellFormed(d)
    ensures RetriedTo(d, ExecutionsRetried(d, batch), FailureRows(batch), FinishedJobs(d, FailureRows(batch)), batch)
  {
    RetriedRowsOf(d, batch, FailureRows(batch));
  }

  lemma RetriedRowsOf(d: Db, batch: seq<RetriedExecution>, rows: map<ExecutionId, Time>)
    requires WellFormed(d)
    ensures RetriedTo(d, RetryWith(d, rows, batch), rows, FinishedJobs(d, rows), batch)
  {
    FinishedJobsExist(d, rows);
    AddedRows(FinishExecutions(d, rows, Failure), batch, FinishedJobs(d, rows));
  }

  /** `jobs` are the jobs whose latest execution is active and named by `rows`. */
  ghost predicate FinishesJobs(d: Db, rows: map<ExecutionId, Time>, jobs: set<JobId>) {
    && (forall j :: j in jobs ==> j in d.jobs)
    && forall j {:trigger JobAgrees(d, j)} {:trigger j in jobs} :: j in d.jobs ==>
         JobAgrees(d, j) && (j in jobs <==> Active(d, Latest(d, j)) && Latest(d, j) in rows)
  }

  lemma FinishesFinishedJobs(d: Db, rows: map<ExecutionId, Time>)
    requires WellFormed(d) && StatusesAgree(d)
    ensures FinishesJobs(d, rows, FinishedJobs(d, rows))
  {
    FinishedJobsExist(d, rows);
    forall j | j in d.jobs
      ensures JobAgrees(d, j) && (j in FinishedJobs(d, rows) <==> Active(d, Latest(d, j)) && Latest(d, j) in rows)
    {
      FinishedIsLatest(d, rows, j);
    }
  }

  /** A job without a failed execution keeps its executions as they are. */
  lemma RetriedUntouched(d: Db, t: Db, rows: map<ExecutionId, Time>, jobs: set<JobId>, batch: seq<RetriedExecution>,
                         j: JobId)
    requires RetriedTo(d, t, rows, jobs, batch) && FinishesJobs(d, rows, jobs) && j in d.jobs && j !in jobs
    ensures ExecutionsOf(t, j) == ExecutionsOf(d, j) != {} && Latest(t, j) == Latest(d, j)
    ensures t.executions[Latest(t, j)] == d.executions[Latest(d, j)]
  {
    assert ExecutionsOf(t, j) == ExecutionsOf(d, j);
    assert Of(d, Latest(t, j), j) && Of(t, Latest(d, j), j);
  }

  /** The executions of a job that is named once, when the batch fails its latest one. */
  lemma RetriedOnce(d: Db, t: Db, rows: map<ExecutionId, Time>, jobs: set<JobId>, batch: seq<RetriedExecution>,
                    j: JobId, i: nat)
    requires RetriedTo(d, t, rows, jobs, batch) && j in jobs
    requires OnlyEntry(batch, j, i)
    ensures ExecutionsOf(t, j) == ExecutionsOf(d, j) + {d.nextId + i}
    ensures d.nextId + i !in d.executions && Latest(t, j) == d.nextId + i
    ensures t.executions[d.nextId + i].Status().Pending?
  {
    var e := d.nextId + i;
    assert At(batch, d.nextId, e) == batch[i];
    assert AddedBy(d.nextId, batch, jobs, e);
    assert e in ExecutionsOf(t, j);
    forall f | f in ExecutionsOf(t, j) ensures f in ExecutionsOf(d, j) + {e} {
      if f !in d.executions {
        assert AddedBy(d.nextId, batch, jobs, f);
        assert batch[f - d.nextId].job == j;
      }
    }
    assert Latest(t, j) in ExecutionsOf(t, j) && Of(t, e, j);
  }

  /** After a clean batch the only active execution of a job with a failed one is the added one. */
  lemma RetriedActive(d: Db, t: Db, rows: map<ExecutionId, Time>, jobs: set<JobId>, batch: seq<RetriedExecution>,
                      e: ExecutionId)
    requires RetriedTo(d, t, rows, jobs, batch) && FinishesJobs(d, rows, jobs) && StatusesAgree(d)
    requires e in d.executions && Active(t, e)
    ensures Active(d, e) && e !in rows && d.executions[e].job !in jobs && t.executions[e] == d.executions[e]
  {
    if e in rows && d.executions[e].IsActive() {
      FinishedRow(d.executions[e], Failure, rows[e]);
    }
    assert ActiveAgrees(d, e);
  }

  lemma RetriedJobAgrees(d: Db, t: Db, rows: map<ExecutionId, Time>, jobs: set<JobId>, batch: seq<RetriedExecution>,
                         j: JobId)
    requires RetriedTo(d, t, rows, jobs, batch) && FinishesJobs(d, rows, jobs)
    requires j in d.jobs && (j in jobs ==> NamedOnce(batch, j))
    ensures JobAgrees(t, j)
  {
    assert JobAgrees(d, j);
    if j in jobs {
      var i: nat :| OnlyEntry(batch, j, i);
      RetriedOnce(d, t, rows, jobs, batch, j, i);
    } else {
      RetriedUntouched(d, t, rows, jobs, batch, j);
    }
  }

  lemma RetriedOldActiveAgrees(d: Db, t: Db, rows: map<ExecutionId, Time>, jobs: set<JobId>,
                               batch: seq<RetriedExecution>, e: ExecutionId)
    requires RetriedTo(d, t, rows, jobs, batch) && FinishesJobs(d, rows, jobs) && StatusesAgree(d)
    requires e in d.executions && Active(t, e)
    ensures ActiveAgrees(t, e)
  {
    RetriedActive(d, t, rows, jobs, batch, e);
    assert ActiveAgrees(d, e);
    RetriedUntouched(d, t, rows, jobs, batch, d.executions[e].job);
  }

  lemma RetriedNewActiveAgrees(d: Db, t: Db, rows: map<ExecutionId, Time>, jobs: set<JobId>,
                               batch: seq<RetriedExecution>, e: ExecutionId)
    requires RetriedTo(d, t, rows, jobs, batch) && e in t.executions && e !in d.executions
    requires Active(t, e) && (t.executions[e].job in jobs ==> NamedOnce(batch, t.executions[e].job))
    ensures ActiveAgrees(t, e)
  {
    assert AddedBy(d.nextId, batch, jobs, e);
    var j := At(batch, d.nextId, e).job;
    assert t.executions[e].job == j;
    var i: nat :| OnlyEntry(batch, j, i);
    assert e == d.nextId + i;
    RetriedOnce(d, t, rows, jobs, batch, j, i);
  }

  lemma RetriedStatusesAgree(d: Db, t: Db, rows: map<ExecutionId, Time>, jobs: set<JobId>, batch: seq<RetriedExecution>)
    requires RetriedTo(d, t, rows, jobs, batch) && FinishesJobs(d, rows, jobs) && StatusesAgree(d)
    requires forall j :: j in jobs ==> NamedOnce(batch, j)
    ensures StatusesAgree(t)
  {
    forall j | j in t.jobs ensures JobAgrees(t, j) {
      RetriedJobAgrees(d, t, rows, jobs, batch, j);
    }
    forall e: ExecutionId | Active(t, e) ensures ActiveAgrees(t, e) {
      if e in d.executions {
        RetriedOldActiveAgrees(d, t, rows, jobs, batch, e);
      } else {
        RetriedNewActiveAgrees(d, t, rows, jobs, batch, e);
      }
    }
  }

  /** An entry for a job with a failed execution adds the job's latest execution, if that is the active one. */
  lemma RetriedAddsLatest(d: Db, t: Db, rows: map<ExecutionId, Time>, jobs: set<JobId>, batch: seq<RetriedExecution>,
                          k: nat)
    requires RetriedTo(d, t, rows, jobs, batch) && k < |batch| && batch[k].job in jobs
    requires StatusesAgree(t) && ExecutionsOf(t, batch[k].job) != {}
    ensures d.nextId + k == Latest(t, batch[k].job)
  {
    assert At(batch, d.nextId, d.nextId + k) == batch[k];
    assert AddedBy(d.nextId, batch, jobs, d.nextId + k);
    assert ActiveAgrees(t, d.nextId + k);
  }

  /** The latest execution of a job whose execution failed is an added one if it is active. */
  lemma RetriedLatest(d: Db, t: Db, rows: map<ExecutionId, Time>, jobs: set<JobId>, batch: seq<RetriedExecution>, j: JobId)
    requires RetriedTo(d, t, rows, jobs, batch) && FinishesJobs(d, rows, jobs) && StatusesAgree(d) && j in jobs
    requires ExecutionsOf(t, j) != {} && Active(t, Latest(t, j))
    ensures AddedBy(d.nextId, batch, jobs, Latest(t, j)) && batch[Latest(t, j) - d.nextId].job == j
  {
    var e := Latest(t, j);
    if e in d.executions {
      RetriedActive(d, t, rows, jobs, batch, e);
    }
  }

  /** Tables that stay valid had every job with a failed execution named exactly once. */
  lemma RetriedNeedsCleanBatch(d: Db, t: Db, rows: map<ExecutionId, Time>, jobs: set<JobId>,
                               batch: seq<RetriedExecution>, j: JobId)
    requires RetriedTo(d, t, rows, jobs, batch) && FinishesJobs(d, rows, jobs) && StatusesAgree(d)
    requires StatusesAgree(t) && j in jobs
    ensures NamedOnce(batch, j)
  {
    assert JobAgrees(d, j) && JobAgrees(t, j);
    RetriedLatest(d, t, rows, jobs, batch, j);
    forall k: nat | k < |batch| && batch[k].job == j ensures k == Latest(t, j) - d.nextId {
      RetriedAddsLatest(d, t, rows, jobs, batch, k);
    }
    assert OnlyEntry(batch, j, Latest(t, j) - d.nextId);
  }

  lemma RetriedToValidIff(d: Db, t: Db, rows: map<ExecutionId, Time>, jobs: set<JobId>, batch: seq<RetriedExecution>)
    requires Valid(d) && RetriedTo(d, t, rows, jobs, batch) && FinishesJobs(d, rows, jobs)
    ensures WellFormed(t)
    ensures Valid(t) <==> forall j :: j in jobs ==> NamedOnce(batch, j)
  {
    RetriedWellFormed(d, t, rows, jobs, batch);
    if forall j :: j in jobs ==> NamedOnce(batch, j) {
      RetriedStatusesAgree(d, t, rows, jobs, batch);
    }
    if StatusesAgree(t) {
      forall j | j in jobs ensures NamedOnce(batch, j) {
        RetriedNeedsCleanBatch(d, t, rows, jobs, batch, j);
      }
    }
  }

  lemma RetriedWellFormed(d: Db, t: Db, rows: map<ExecutionId, Time>, jobs: set<JobId>, batch: seq<RetriedExecution>)
    requires WellFormed(d) && RetriedTo(d, t, rows, jobs, batch)
    ensures WellFormed(t)
    ensures SchedulesAgree(d) ==> SchedulesAgree(t)
  {
  }

  /**
    Retrying keeps the tables valid if and only if each job that has an execution failed by the batch
    is named by exactly one of its entries: the check against the database compares job ids only.
   */
  lemma RetriedValidIff(d: Db, batch: seq<RetriedExecution>)
    requires Valid(d)
    ensures Valid(ExecutionsRetried(d, batch)) <==> CleanBatch(d, batch)
  {
    RetriedRows(d, batch);
    FinishesFinishedJobs(d, FailureRows(batch));
    RetriedToValidIff(d, ExecutionsRetried(d, batch), FailureRows(batch), FinishedJobs(d, FailureRows(batch)), batch);
  }

  // ---- Adding jobs.

  /** The ids of the jobs a batch adds. */
  ghost predicate AddedJob(d: Db, batch: seq<NewJob>, claims: map<ScheduleId, nat>, j: JobId) {
    d.nextId <= j < d.nextId + |batch| && KeptJob(At(batch, d.nextId, j).schedule, claims, d.nextId, j)
  }

  /** The tables after adding jobs: each added job has one pending execution, and is its schedule's active job. */
  ghost predicate AddedTo(d: Db, t: Db, batch: seq<NewJob>, claims: map<ScheduleId, nat>, now: Time) {
    var n := |batch|;
    && t.nextId == d.nextId + n + n
    && (forall j: JobId :: j in t.jobs <==> j in d.jobs || AddedJob(d, batch, claims, j))
    && (forall j: JobId :: j in d.jobs ==> t.jobs[j] == d.jobs[j])
    && (forall j: JobId :: AddedJob(d, batch, claims, j) ==>
          t.jobs[j] == Job(At(batch, d.nextId, j).definition, now, At(batch, d.nextId, j).schedule, None, None))
    && (forall e: ExecutionId :: e in t.executions <==> e in d.executions || FirstOf(d, batch, claims, e))
    && (forall e: ExecutionId :: e in d.executions ==> t.executions[e] == d.executions[e])
    && (forall e: ExecutionId :: FirstOf(d, batch, claims, e) ==>
          t.executions[e] == PendingRow(e - n, At(batch, d.nextId, e - n).definition.target,
                                        At(batch, d.nextId, e - n).definition.priority))
    && t.schedules == ClaimSchedules(d, claims)
  }

  /** The id of the first execution of an added job: the executions are numbered after all the jobs. */
  ghost predicate FirstOf(d: Db, batch: seq<NewJob>, claims: map<ScheduleId, nat>, e: ExecutionId) {
    e >= |batch| && AddedJob(d, batch, claims, e - |batch|)
  }

  /** The rows of the first executions of the jobs. */
  ghost predicate AreFirstRows(d: Db, batch: seq<NewJob>, jobs: set<JobId>, rows: map<ExecutionId, Execution>) {
    && (forall e: ExecutionId :: e in rows <==> e >= |batch| && e - |batch| in jobs)
    && (forall e: ExecutionId :: e in rows ==>
          && d.nextId <= e - |batch| < d.nextId + |batch|
          && rows[e] == PendingRow(e - |batch|, At(batch, d.nextId, e - |batch|).definition.target,
                                   At(batch, d.nextId, e - |batch|).definition.priority))
  }

  lemma FirstRows(d: Db, withJobs: Db, batch: seq<NewJob>, jobs: set<JobId>)
    requires withJobs.nextId == d.nextId + |batch| && jobs <= withJobs.jobs.Keys
    requires forall j: JobId :: j in jobs ==>
               d.nextId <= j < d.nextId + |batch| && withJobs.jobs[j].definition == At(batch, d.nextId, j).definition
    ensures AreFirstRows(d, batch, jobs, NewRows(withJobs, FirstExecutions(d, batch), jobs))
  {
    FirstRowsOf(d, withJobs, batch, jobs, FirstExecutions(d, batch));
  }

  lemma FirstRowsOf(d: Db, withJobs: Db, batch: seq<NewJob>, jobs: set<JobId>, first: seq<NewExecution>)
    requires withJobs.nextId == d.nextId + |batch| && jobs <= withJobs.jobs.Keys && |first| == |batch|
    requires forall i :: 0 <= i < |batch| ==> first[i] == NewExecution(d.nextId + i, batch[i].definition.target)
    requires forall j: JobId :: j in jobs ==>
               d.nextId <= j < d.nextId + |batch| && withJobs.jobs[j].definition == At(batch, d.nextId, j).definition
    ensures AreFirstRows(d, batch, jobs, NewRows(withJobs, first, jobs))
  {
    var rows := NewRows(withJobs, first, jobs);
    forall e: ExecutionId
      ensures e in rows <==> e >= |batch| && e - |batch| in jobs
      ensures e in rows ==>
                && d.nextId <= e - |batch| < d.nextId + |batch|
                && rows[e] == PendingRow(e - |batch|, At(batch, d.nextId, e - |batch|).definition.target,
                                         At(batch, d.nextId, e - |batch|).definition.priority)
    {
      if withJobs.nextId <= e < withJobs.nextId + |batch| {
        FirstRowAt(d, batch, first, withJobs.nextId, e);
      }
    }
  }

  lemma FirstRowAt(d: Db, batch: seq<NewJob>, first: seq<NewExecution>, base: nat, e: ExecutionId)
    requires base == d.nextId + |batch| && |first| == |batch| && base <= e < base + |batch|
    requires forall i :: 0 <= i < |batch| ==> first[i] == NewExecution(d.nextId + i, batch[i].definition.target)
    ensures At(first, base, e) == NewExecution(e - |batch|, At(batch, d.nextId, e - |batch|).definition.target)
  {
  }

  ghost predicate AreJobRows(d: Db, batch: seq<NewJob>, claims: map<ScheduleId, nat>, now: Time, rows: map<JobId, Job>) {
    && (forall j: JobId :: j in rows <==> AddedJob(d, batch, claims, j))
    && (forall j: JobId :: AddedJob(d, batch, claims, j) ==>
          j in rows
          && rows[j] == Job(At(batch, d.nextId, j).definition, now, At(batch, d.nextId, j).schedule, None, None))
  }

  lemma JobRows(d: Db, batch: seq<NewJob>, claims: map<ScheduleId, nat>, now: Time)
    ensures AreJobRows(d, batch, claims, now, NewJobRows(d, batch, claims, now))
  {
  }

  lemma AddedJobRows(d: Db, batch: seq<NewJob>, claims: map<ScheduleId, nat>, now: Time)
    requires WellFormed(d)
    ensures AddedTo(d, AddJobs(d, batch, claims, now), batch, claims, now)
  {
    JobRows(d, batch, claims, now);
    AddedJobRowsOf(d, batch, claims, now, NewJobRows(d, batch, claims, now));
  }

  lemma AddedJobRowsOf(d: Db, batch: seq<NewJob>, claims: map<ScheduleId, nat>, now: Time, rows: map<JobId, Job>)
    requires WellFormed(d) && AreJobRows(d, batch, claims, now, rows)
    ensures AddedTo(d, AddJobRows(d, batch, claims, rows), batch, claims, now)
  {
    var withJobs := WithJobs(d, batch, claims, rows);
    FirstRows(d, withJobs, batch, rows.Keys);
    AddedUnion(d, batch, claims, now, rows, NewRows(withJobs, FirstExecutions(d, batch), rows.Keys));
  }

  lemma AddedUnion(d: Db, batch: seq<NewJob>, claims: map<ScheduleId, nat>, now: Time,
                   rows: map<JobId, Job>, first: map<ExecutionId, Execution>)
    requires WellFormed(d) && AreJobRows(d, batch, claims, now, rows) && AreFirstRows(d, batch, rows.Keys, first)
    ensures AddedTo(d, Db(d.jobs + rows, d.executions + first, ClaimSchedules(d, claims), d.nextId + |batch| + |batch|),
                    batch, claims, now)
  {
    forall e: ExecutionId ensures e in first <==> FirstOf(d, batch, claims, e) {
    }
  }

  lemma AddedOldJob(d: Db, t: Db, batch: seq<NewJob>, claims: map<ScheduleId, nat>, now: Time, j: JobId)
    requires AddedTo(d, t, batch, claims, now) && WellFormed(d) && j in d.jobs && ExecutionsOf(d, j) != {}
    ensures ExecutionsOf(t, j) == ExecutionsOf(d, j) && Latest(t, j) == Latest(d, j)
  {
    assert ExecutionsOf(t, j) == ExecutionsOf(d, j);
    assert Of(d, Latest(t, j), j) && Of(t, Latest(d, j), j);
  }

  lemma AddedNewJob(d: Db, t: Db, batch: seq<NewJob>, claims: map<ScheduleId, nat>, now: Time, j: JobId)
    requires AddedTo(d, t, batch, claims, now) && WellFormed(d) && AddedJob(d, batch, claims, j)
    ensures ExecutionsOf(t, j) == {j + |batch|} && Latest(t, j) == j + |batch|
    ensures t.executions[j + |batch|].Status().Pending?
  {
    var e := j + |batch|;
    assert FirstOf(d, batch, claims, e);
    forall f | f in ExecutionsOf(t, j) ensures f == e {
      if f !in d.executions {
        assert FirstOf(d, batch, claims, f);
      }
    }
    assert e in ExecutionsOf(t, j);
    assert Latest(t, j) in ExecutionsOf(t, j);
  }

  lemma AddedJobAgrees(d: Db, t: Db, batch: seq<NewJob>, claims: map<ScheduleId, nat>, now: Time, j: JobId)
    requires AddedTo(d, t, batch, claims, now) && WellFormed(d) && StatusesAgree(d) && j in t.jobs
    ensures JobAgrees(t, j)
  {
    if j in d.jobs {
      assert JobAgrees(d, j);
      AddedOldJob(d, t, batch, claims, now, j);
    } else {
      AddedNewJob(d, t, batch, claims, now, j);
    }
  }

  lemma AddedActiveAgrees(d: Db, t: Db, batch: seq<NewJob>, claims: map<ScheduleId, nat>, now: Time, e: ExecutionId)
    requires AddedTo(d, t, batch, claims, now) && WellFormed(d) && StatusesAgree(d) && Active(t, e)
    ensures ActiveAgrees(t, e)
  {
    if e in d.executions {
      assert ActiveAgrees(d, e);
      AddedOldJob(d, t, batch, claims, now, d.executions[e].job);
    } else {
      assert FirstOf(d, batch, claims, e);
      AddedNewJob(d, t, batch, claims, now, e - |batch|);
    }
  }

  lemma AddedStatusesAgree(d: Db, t: Db, batch: seq<NewJob>, claims: map<ScheduleId, nat>, now: Time)
    requires AddedTo(d, t, batch, claims, now) && WellFormed(d) && StatusesAgree(d)
    ensures StatusesAgree(t)
  {
    forall j: JobId | j in t.jobs ensures JobAgrees(t, j) {
      AddedJobAgrees(d, t, batch, claims, now, j);
    }
    forall e: ExecutionId | Active(t, e) ensures ActiveAgrees(t, e) {
      AddedActiveAgrees(d, t, batch, claims, now, e);
    }
  }

  lemma AddedWellFormed(d: Db, t: Db, batch: seq<NewJob>, claims: map<ScheduleId, nat>, now: Time)
    requires AddedTo(d, t, batch, claims, now) && WellFormed(d) && ClaimsOf(d, batch, claims)
    ensures WellFormed(t)
  {
    forall e | e in t.executions ensures e < t.nextId && t.executions[e].job in t.jobs {
      if e !in d.executions {
        assert FirstOf(d, batch, claims, e);
      }
    }
    forall j: JobId | j in t.jobs && t.jobs[j].schedule.Some? ensures t.jobs[j].schedule.value < t.nextId {
      if j !in d.jobs {
        assert AddedJob(d, batch, claims, j);
      }
    }
  }

  /** A claimed schedule had no active job, so it gets exactly the job that claimed it. */
  lemma ClaimedScheduleAgrees(d: Db, t: Db, batch: seq<NewJob>, claims: map<ScheduleId, nat>, now: Time,
                              s: ScheduleId, j: JobId)
    requires AddedTo(d, t, batch, claims, now) && WellFormed(d) && SchedulesAgree(d) && ClaimsOf(d, batch, claims)
    requires s in claims
    ensures j == d.nextId + claims[s] <==> j in t.jobs && t.jobs[j].schedule == Some(s) && t.jobs[j].inactiveStatus.None?
  {
    assert At(batch, d.nextId, d.nextId + claims[s]) == batch[claims[s]];
    assert AddedJob(d, batch, claims, d.nextId + claims[s]);
    if j !in d.jobs && j in t.jobs {
      assert AddedJob(d, batch, claims, j);
    }
  }

  lemma UnclaimedScheduleAgrees(d: Db, t: Db, batch: seq<NewJob>, claims: map<ScheduleId, nat>, now: Time,
                                s: ScheduleId, j: JobId)
    requires AddedTo(d, t, batch, claims, now) && WellFormed(d) && s !in claims
    ensures j in t.jobs && t.jobs[j].schedule == Some(s) ==> j in d.jobs
    ensures j in d.jobs ==> j in t.jobs && t.jobs[j] == d.jobs[j]
  {
    if j !in d.jobs && j in t.jobs {
      assert AddedJob(d, batch, claims, j);
    }
  }

  lemma AddedSchedulesAgree(d: Db, t: Db, batch: seq<NewJob>, claims: map<ScheduleId, nat>, now: Time,
                            s: ScheduleId, j: JobId)
    requires AddedTo(d, t, batch, claims, now) && WellFormed(d) && SchedulesAgree(d) && ClaimsOf(d, batch, claims)
    requires s in t.schedules
    ensures t.schedules[s].activeJob == Some(j)
       <==> j in t.jobs && t.jobs[j].schedule == Some(s) && t.jobs[j].inactiveStatus.None?
  {
    if s in claims {
      ClaimedScheduleAgrees(d, t, batch, claims, now, s, j);
    } else {
      UnclaimedScheduleAgrees(d, t, batch, claims, now, s, j);
    }
  }

  lemma AddedValid(d: Db, batch: seq<NewJob>, claims: map<ScheduleId, nat>, now: Time)
    requires Valid(d) && ClaimsOf(d, batch, claims)
    ensures Valid(AddJobs(d, batch, claims, now))
  {
    AddedJobRows(d, batch, claims, now);
    AddedToValid(d, AddJobs(d, batch, claims, now), batch, claims, now);
  }

  lemma AddedToValid(d: Db, t: Db, batch: seq<NewJob>, claims: map<ScheduleId, nat>, now: Time)
    requires AddedTo(d, t, batch, claims, now) && Valid(d) && ClaimsOf(d, batch, claims)
    ensures Valid(t)
  {
    AddedWellFormed(d, t, batch, claims, now);
    AddedStatusesAgree(d, t, batch, claims, now);
    forall s, j: JobId | s in t.schedules
      ensures t.schedules[s].activeJob == Some(j)
         <==> j in t.jobs && t.jobs[j].schedule == Some(s) && t.jobs[j].inactiveStatus.None?
    {
      AddedSchedulesAgree(d, t, batch, claims, now, s, j);
    }
  }

  // ---- Schedules and history.

  lemma SameExecutionsStatusesAgree(d: Db, t: Db)
    requires StatusesAgree(d) && t.executions == d.executions && t.jobs == d.jobs
    ensures StatusesAgree(t)
  {
    assert SameRows(d, t);
    forall j | j in t.jobs ensures JobAgrees(t, j) {
      assert JobAgrees(d, j);
      SameLatest(d, t, j);
    }
    forall e: ExecutionId | Active(t, e) ensures ActiveAgrees(t, e) {
      assert ActiveAgrees(d, e);
      SameLatest(d, t, d.executions[e].job);
    }
  }

  lemma AddedSchedulesValid(d: Db, batch: seq<ScheduleDefinition>)
    requires Valid(d)
    ensures Valid(AddSchedules(d, batch))
  {
    SameExecutionsStatusesAgree(d, AddSchedules(d, batch));
  }

  lemma StoppedSchedulesValid(d: Db, selected: set<ScheduleId>, now: Time)
    requires Valid(d)
    ensures Valid(StopSchedules(d, selected, now))
  {
    SameExecutionsStatusesAgree(d, StopSchedules(d, selected, now));
  }

  lemma DeletedSameLatest(d: Db, jobs: set<JobId>, schedules: set<ScheduleId>, j: JobId)
    requires j !in jobs
    ensures var t := DeleteHistory(d, jobs, schedules);
            && ExecutionsOf(t, j) == ExecutionsOf(d, j)
            && (ExecutionsOf(d, j) != {} ==> Latest(t, j) == Latest(d, j))
  {
    var t := DeleteHistory(d, jobs, schedules);
    assert ExecutionsOf(t, j) == ExecutionsOf(d, j);
    if ExecutionsOf(d, j) != {} {
      assert Of(d, Latest(t, j), j) && Of(t, Latest(d, j), j);
    }
  }

  lemma DeletedStatusesAgree(d: Db, jobs: set<JobId>, schedules: set<ScheduleId>)
    requires StatusesAgree(d)
    ensures StatusesAgree(DeleteHistory(d, jobs, schedules))
  {
    var t := DeleteHistory(d, jobs, schedules);
    forall j | j in t.jobs ensures JobAgrees(t, j) {
      assert JobAgrees(d, j);
      DeletedSameLatest(d, jobs, schedules, j);
    }
    forall e: ExecutionId | Active(t, e) ensures ActiveAgrees(t, e) {
      assert ActiveAgrees(d, e);
      DeletedSameLatest(d, jobs, schedules, d.executions[e].job);
    }
  }

  /** Deleting history only deletes finished jobs, so it keeps the tables valid as well. */
  lemma DeletedValid(d: Db, before: Time, jobs: set<JobId>, schedules: set<ScheduleId>)
    requires Valid(d) && Deletable(d, before, jobs, schedules)
    ensures Valid(DeleteHistory(d, jobs, schedules))
  {
    DeletedStatusesAgree(d, jobs, schedules);
    forall j | j in jobs ensures d.jobs[j].inactiveStatus.Some? {
      assert JobAgrees(d, j);
    }
  }
}
