/**
  The backend: its operations change the tables row by row, and each is proved to have exactly the
  effect of its transaction.
 */
module Backend {
  import opened Common
  import opened Tables
  import opened TableInvariants
  import opened TableRuns
  import opened JobFilters

  datatype StartedExecution = StartedExecution(execution: ExecutionId, executor: ExecutorId, at: Time)

  datatype CancelledJob = CancelledJob(job: JobId, lastExecution: ExecutionId)

  datatype AddedJobs = Added(jobs: seq<JobId>) | Existing(jobs: seq<JobId>)

  /** The input row that is used for each execution that can be started, the first one that matches. */
  function StartRows(d: Db, batch: seq<StartedExecution>): map<ExecutionId, StartedRow> {
    if batch == [] then map[]
    else
      var last := batch[|batch| - 1];
      var rows := StartRows(d, batch[..|batch| - 1]);
      if last.execution !in rows && Starts(d, last) then rows[last.execution := StartedRow(last.executor, last.at)] else rows
  }

  predicate Starts(d: Db, s: StartedExecution) {
    && s.execution in d.executions
    && (|| d.executions[s.execution].Status().Pending?
        || (d.executions[s.execution].Status().InProgress? && d.executions[s.execution].executor == Some(s.executor)))
  }

  lemma {:induction false} StartRowsStart(d: Db, batch: seq<StartedExecution>, e: ExecutionId)
    ensures e in StartRows(d, batch) <==> exists i :: 0 <= i < |batch| && batch[i].execution == e && Starts(d, batch[i])
    ensures e in StartRows(d, batch) <==> e in StartedIds(d, StartRows(d, batch))
  {
    if batch != [] {
      StartRowsStart(d, batch[..|batch| - 1], e);
    }
  }

  lemma BatchNotPending(d: Db, batch: seq<StartedExecution>, i: nat)
    requires i < |batch|
    ensures !ReadyOrScheduled(ExecutionsStarted(d, StartRows(d, batch)), batch[i].execution)
  {
    StartRowsStart(d, batch, batch[i].execution);
  }

  /** Starting again an execution that is not pending only sets the time of its start. */
  lemma StartsNothing(t: Db, batch: seq<StartedExecution>, e: ExecutionId)
    requires e in t.executions && (e in StartRows(t, batch) ==> !ReadyOrScheduled(t, e))
    ensures var again := ExecutionsStarted(t, StartRows(t, batch)).executions[e];
            again == t.executions[e].(startedAt := again.startedAt) && again.Status() == t.executions[e].Status()
  {
    StartRowsStart(t, batch, e);
  }

  lemma StartedAgain(s: Db, t: Db, batch: seq<StartedExecution>, e: ExecutionId)
    requires ExecutionsEvolve(s, t) && e in t.executions
    requires forall i :: 0 <= i < |batch| ==> batch[i].execution < s.nextId && !ReadyOrScheduled(s, batch[i].execution)
    ensures var again := ExecutionsStarted(t, StartRows(t, batch)).executions[e];
            again == t.executions[e].(startedAt := again.startedAt) && again.Status() == t.executions[e].Status()
  {
    StartRowsStart(t, batch, e);
    if e in StartRows(t, batch) {
      StaysNotPending(s, t, e);
    }
    StartsNothing(t, batch, e);
  }

  /** Repeating `executions_started`, with any run in between, changes no row but the times of starts. */
  lemma StartOnce(d: Db, batch: seq<StartedExecution>, run: seq<Transaction>, t: Db)
    requires WellFormed(d) && Runs(ExecutionsStarted(d, StartRows(d, batch)), run, t)
    requires forall i :: 0 <= i < |batch| ==> batch[i].execution < d.nextId
    ensures var again := ExecutionsStarted(t, StartRows(t, batch));
            && again == t.(executions := again.executions) && again.executions.Keys == t.executions.Keys
            && forall e: ExecutionId :: e in t.executions ==>
                 && again.executions[e] == t.executions[e].(startedAt := again.executions[e].startedAt)
                 && again.executions[e].Status() == t.executions[e].Status()
  {
    var s := ExecutionsStarted(d, StartRows(d, batch));
    var again := ExecutionsStarted(t, StartRows(t, batch));
    StartedWellFormed(d, StartRows(d, batch));
    RunEvolves(s, run, t);
    forall i | 0 <= i < |batch| ensures !ReadyOrScheduled(s, batch[i].execution) {
      BatchNotPending(d, batch, i);
    }
    forall e: ExecutionId | e in t.executions
      ensures again.executions[e] == t.executions[e].(startedAt := again.executions[e].startedAt)
      ensures again.executions[e].Status() == t.executions[e].Status()
    {
      StartedAgain(s, t, batch, e);
    }
  }

  lemma {:induction false} RowIsFromBatch(d: Db, batch: seq<StartedExecution>, e: ExecutionId)
    requires e in StartRows(d, batch)
    ensures exists l :: l in batch && l.execution == e && l.executor == StartRows(d, batch)[e].executor
  {
    var before := batch[..|batch| - 1];
    if e in StartRows(d, before) {
      RowIsFromBatch(d, before, e);
    } else {
      assert batch[|batch| - 1] in batch;
    }
  }

  lemma StartedBy(d: Db, batch: seq<StartedExecution>, e: ExecutionId)
    requires e in StartedIds(d, StartRows(d, batch))
    ensures var s := ExecutionsStarted(d, StartRows(d, batch));
            && e in s.executions && s.executions[e].Status().InProgress?
            && exists l :: l in batch && l.execution == e && s.executions[e].executor == Some(l.executor)
  {
    RowIsFromBatch(d, batch, e);
  }

  lemma StillStarts(s: Db, t: Db, l: StartedExecution)
    requires ExecutionsEvolve(s, t) && l.execution in s.executions && Active(t, l.execution)
    requires s.executions[l.execution].Status().InProgress? && s.executions[l.execution].executor == Some(l.executor)
    ensures Starts(t, l)
  {
    assert ExecutionEvolves(s, t, l.execution);
  }

  /** Executions that were started by a call, and are still in progress, are returned by a repeated call. */
  lemma StartedReturnedAgain(d: Db, batch: seq<StartedExecution>, run: seq<Transaction>, t: Db, e: ExecutionId)
    requires WellFormed(d) && Runs(ExecutionsStarted(d, StartRows(d, batch)), run, t)
    requires e in StartedIds(d, StartRows(d, batch)) && Active(t, e)
    ensures e in StartedIds(t, StartRows(t, batch))
  {
    var s := ExecutionsStarted(d, StartRows(d, batch));
    StartedWellFormed(d, StartRows(d, batch));
    RunEvolves(s, run, t);
    StartedBy(d, batch, e);
    var l :| l in batch && l.execution == e && s.executions[e].executor == Some(l.executor);
    StillStarts(s, t, l);
    StartRowsStart(t, batch, e);
  }

  lemma StartRowsNext(d: Db, batch: seq<StartedExecution>, i: nat)
    requires i < |batch|
    ensures StartRows(d, batch[..i + 1])
         == if batch[i].execution !in StartRows(d, batch[..i]) && Starts(d, batch[i])
            then StartRows(d, batch[..i])[batch[i].execution := StartedRow(batch[i].executor, batch[i].at)]
            else StartRows(d, batch[..i])
  {
    assert batch[..i + 1][..i] == batch[..i];
  }

  lemma StartNext(d: Db, rows: map<ExecutionId, StartedRow>, s: StartedExecution)
    requires forall e :: e in rows ==> CanStart(d, rows, e)
    requires s.execution !in rows && Starts(d, s)
    ensures var started := d.executions[s.execution].(executor := Some(s.executor), startedAt := Some(s.at));
            ExecutionsStarted(d, rows[s.execution := StartedRow(s.executor, s.at)]).executions
            == ExecutionsStarted(d, rows).executions[s.execution := started]
  {
  }

  /** The executions started by the rows so far. */
  ghost predicate StartedSoFar(d: Db, rows: map<ExecutionId, StartedRow>, executions: map<ExecutionId, Execution>,
                               started: seq<ExecutionId>)
  {
    && executions == ExecutionsStarted(d, rows).executions
    && (forall e :: e in started <==> e in rows)
    && (forall e :: e in rows ==> CanStart(d, rows, e))
    && (forall m, n :: 0 <= m < n < |started| ==> started[m] != started[n])
  }

  lemma NothingStarted(d: Db)
    ensures StartedSoFar(d, StartRows(d, []), d.executions, [])
  {
    assert ExecutionsStarted(d, map[]).executions == d.executions;
  }

  lemma StartedSoFarNext(d: Db, batch: seq<StartedExecution>, i: nat, executions: map<ExecutionId, Execution>,
                         started: seq<ExecutionId>)
    requires i < |batch| && StartedSoFar(d, StartRows(d, batch[..i]), executions, started)
    ensures var s := batch[i];
            var rows := StartRows(d, batch[..i + 1]);
            if s.execution !in started && Starts(d.(executions := executions), s)
            then StartedSoFar(d, rows, executions[s.execution :=
                   executions[s.execution].(executor := Some(s.executor), startedAt := Some(s.at))], started + [s.execution])
            else StartedSoFar(d, rows, executions, started)
  {
    var s := batch[i];
    StartRowsNext(d, batch, i);
    if s.execution !in started && Starts(d, s) {
      StartNext(d, StartRows(d, batch[..i]), s);
    }
  }

  lemma FirstTimesNext(batch: seq<FinishedExecution>, i: nat)
    requires i < |batch|
    ensures FirstTimes(batch[..i + 1])
         == if batch[i].execution in FirstTimes(batch[..i]) then FirstTimes(batch[..i])
            else FirstTimes(batch[..i])[batch[i].execution := batch[i].at]
  {
    assert batch[..i + 1][..i] == batch[..i];
  }

  /** An input row is used if its execution is active and no earlier row finished it. */
  lemma StillActive(d: Db, rows: map<ExecutionId, Time>, finish: Finish, e: ExecutionId)
    requires e in d.executions
    ensures FinishExecutions(d, rows, finish).executions[e].IsActive() <==> e !in rows && d.executions[e].IsActive()
  {
    if e in rows && Active(d, e) {
      FinishedRow(d.executions[e], finish, rows[e]);
    }
  }

  lemma FinishNext(d: Db, rows: map<ExecutionId, Time>, finish: Finish, e: ExecutionId, at: Time)
    requires e !in rows
    ensures FinishExecutions(d, rows[e := at], finish).executions
         == if Active(d, e) then FinishExecutions(d, rows, finish).executions[e := FinishRow(d.executions[e], finish, at)]
            else FinishExecutions(d, rows, finish).executions
  {
  }

  lemma FinishNextTimes(d: Db, rows: map<ExecutionId, Time>, times: map<JobId, Time>, e: ExecutionId, at: Time)
    requires TimesOf(d, rows, times) && e !in rows
    ensures TimesOf(d, rows[e := at], if Active(d, e) then times[d.executions[e].job := at] else times)
  {
    var more := rows[e := at];
    var moreTimes := if Active(d, e) then times[d.executions[e].job := at] else times;
    assert FinishedJobs(d, more) == FinishedJobs(d, rows) + if Active(d, e) then {d.executions[e].job} else {};
    forall j | j in moreTimes ensures exists f :: f in more && Active(d, f) && Of(d, f, j) && more[f] == moreTimes[j] {
      if Active(d, e) && j == d.executions[e].job {
        assert e in more && Of(d, e, j);
      } else {
        var f :| f in rows && Active(d, f) && Of(d, f, j) && rows[f] == times[j];
        assert f in more;
      }
    }
  }

  ghost predicate FinishedSoFar(d: Db, rows: map<ExecutionId, Time>, finish: Finish,
                                executions: map<ExecutionId, Execution>, finished: map<JobId, Time>)
  {
    executions == FinishExecutions(d, rows, finish).executions && TimesOf(d, rows, finished)
  }

  lemma NothingFinished(d: Db, finish: Finish)
    ensures FinishedSoFar(d, FirstTimes([]), finish, d.executions, map[])
  {
    assert FinishExecutions(d, map[], finish).executions == d.executions;
  }

  lemma FinishedSoFarNext(d: Db, rows: map<ExecutionId, Time>, finish: Finish, executions: map<ExecutionId, Execution>,
                          finished: map<JobId, Time>, e: ExecutionId, at: Time)
    requires FinishedSoFar(d, rows, finish, executions, finished)
    ensures if e in executions && executions[e].IsActive()
            then e !in rows && FinishedSoFar(d, rows[e := at], finish, executions[e := FinishRow(executions[e], finish, at)],
                                             finished[executions[e].job := at])
            else e in rows || FinishedSoFar(d, rows[e := at], finish, executions, finished)
  {
    if e in d.executions {
      StillActive(d, rows, finish, e);
    }
    if e !in rows {
      FinishNext(d, rows, finish, e, at);
      FinishNextTimes(d, rows, finished, e, at);
    }
  }

  /** The rows of the first `n` new executions. */
  ghost predicate IsPrefixOfNewRows(d: Db, added: seq<NewExecution>, kept: set<JobId>, n: nat, rows: map<ExecutionId, Execution>)
    requires n <= |added|
  {
    && (forall e: ExecutionId :: e in rows <==>
          d.nextId <= e < d.nextId + n && At(added, d.nextId, e).job in kept && At(added, d.nextId, e).job in d.jobs)
    && (forall e: ExecutionId :: e in rows ==>
          d.nextId <= e < d.nextId + n && At(added, d.nextId, e).job in d.jobs
          && rows[e] == PendingRow(At(added, d.nextId, e).job, At(added, d.nextId, e).target,
                                   d.jobs[At(added, d.nextId, e).job].definition.priority))
  }

  lemma NewRowsNext(d: Db, added: seq<NewExecution>, kept: set<JobId>, n: nat, rows: map<ExecutionId, Execution>)
    requires n < |added| && IsPrefixOfNewRows(d, added, kept, n, rows)
    ensures if added[n].job in kept && added[n].job in d.jobs
            then IsPrefixOfNewRows(d, added, kept, n + 1, rows[d.nextId + n :=
                   PendingRow(added[n].job, added[n].target, d.jobs[added[n].job].definition.priority)])
            else IsPrefixOfNewRows(d, added, kept, n + 1, rows)
  {
  }

  lemma AllNewRows(d: Db, added: seq<NewExecution>, kept: set<JobId>, rows: map<ExecutionId, Execution>)
    requires IsPrefixOfNewRows(d, added, kept, |added|, rows)
    ensures rows == NewRows(d, added, kept)
  {
  }

  /** A new one is a pending execution of its job, with the target time of its own and the job's priority. */
  ghost predicate IsAdded(d: Db, t: Db, added: seq<NewExecution>, i: nat)
    requires i < |added| && added[i].job in d.jobs
  {
    && d.nextId + i in t.executions
    && var row := t.executions[d.nextId + i];
       && row.job == added[i].job && row.target == added[i].target
       && row.priority == d.jobs[added[i].job].definition.priority
       && row.executor.None? && row.startedAt.None?
       && row.succeededAt.None? && row.failedAt.None? && row.cancelledAt.None?
  }

  lemma AddedExecutionColumns(d: Db, added: seq<NewExecution>, kept: set<JobId>, i: nat)
    requires i < |added| && added[i].job in kept && added[i].job in d.jobs
    ensures IsAdded(d, Tables.AddExecutions(d, added, kept), added, i)
  {
    assert At(added, d.nextId, d.nextId + i) == added[i];
    assert d.nextId + i in NewRows(d, added, kept);
  }

  /** The columns of the executions that are added. */
  method ExecutionColumns(d: Db, added: seq<NewExecution>, kept: set<JobId>) returns (rows: map<ExecutionId, Execution>)
    ensures rows == NewRows(d, added, kept)
  {
    rows := map[];
    for i := 0 to |added|
      invariant IsPrefixOfNewRows(d, added, kept, i, rows)
    {
      NewRowsNext(d, added, kept, i, rows);
      if added[i].job in kept && added[i].job in d.jobs {
        rows := rows[d.nextId + i := PendingRow(added[i].job, added[i].target, d.jobs[added[i].job].definition.priority)];
      }
    }
    AllNewRows(d, added, kept, rows);
  }

  ghost predicate ClaimedSoFar(d: Db, batch: seq<NewJob>, claims: map<ScheduleId, nat>, schedules: map<ScheduleId, Schedule>) {
    ClaimsOf(d, batch, claims) && schedules == Tables.ClaimSchedules(d, claims)
  }

  lemma NothingClaimed(d: Db)
    ensures ClaimedSoFar(d, [], map[], d.schedules)
  {
  }

  predicate IsPendingIn(schedules: map<ScheduleId, Schedule>, s: Option<ScheduleId>) {
    s.Some? && s.value in schedules && schedules[s.value].IsPending()
  }

  lemma ClaimOne(d: Db, before: seq<NewJob>, job: NewJob, claims: map<ScheduleId, nat>, schedules: map<ScheduleId, Schedule>)
    requires ClaimedSoFar(d, before, claims, schedules) && IsPendingIn(schedules, job.schedule)
    ensures var s := job.schedule.value;
            ClaimedSoFar(d, before + [job], claims[s := |before|],
                         schedules[s := schedules[s].(activeJob := Some(d.nextId + |before|))])
  {
    var s := job.schedule.value;
    assert s !in claims;
    assert Tables.ClaimSchedules(d, claims[s := |before|])
        == schedules[s := schedules[s].(activeJob := Some(d.nextId + |before|))];
  }

  lemma ClaimNone(d: Db, before: seq<NewJob>, job: NewJob, claims: map<ScheduleId, nat>, schedules: map<ScheduleId, Schedule>)
    requires ClaimedSoFar(d, before, claims, schedules) && !IsPendingIn(schedules, job.schedule)
    ensures ClaimedSoFar(d, before + [job], claims, schedules)
  {
    if IsPendingIn(d.schedules, job.schedule) {
      assert schedules[job.schedule.value] != d.schedules[job.schedule.value];
      assert job.schedule.value in claims;
    }
  }

  lemma ClaimNext(d: Db, batch: seq<NewJob>, i: nat, claims: map<ScheduleId, nat>, schedules: map<ScheduleId, Schedule>)
    requires i < |batch| && ClaimedSoFar(d, batch[..i], claims, schedules)
    ensures var s := batch[i].schedule;
            if IsPendingIn(schedules, s)
            then ClaimedSoFar(d, batch[..i + 1], claims[s.value := i],
                              schedules[s.value := schedules[s.value].(activeJob := Some(d.nextId + i))])
            else ClaimedSoFar(d, batch[..i + 1], claims, schedules)
  {
    assert batch[..i + 1] == batch[..i] + [batch[i]];
    if IsPendingIn(schedules, batch[i].schedule) {
      ClaimOne(d, batch[..i], batch[i], claims, schedules);
    } else {
      ClaimNone(d, batch[..i], batch[i], claims, schedules);
    }
  }

  /** The rows of the first `n` jobs. */
  ghost predicate IsPrefixOfJobRows(d: Db, batch: seq<NewJob>, claims: map<ScheduleId, nat>, now: Time,
                                    n: nat, rows: map<JobId, Job>)
    requires n <= |batch|
  {
    && (forall j: JobId :: j in rows <==>
          d.nextId <= j < d.nextId + n && KeptJob(At(batch, d.nextId, j).schedule, claims, d.nextId, j))
    && (forall j: JobId :: j in rows ==>
          rows[j] == Job(At(batch, d.nextId, j).definition, now, At(batch, d.nextId, j).schedule, None, None))
  }

  lemma InsertNext(d: Db, batch: seq<NewJob>, claims: map<ScheduleId, nat>, now: Time, n: nat, rows: map<JobId, Job>)
    requires n < |batch| && IsPrefixOfJobRows(d, batch, claims, now, n, rows)
    ensures var row := Job(batch[n].definition, now, batch[n].schedule, None, None);
            IsPrefixOfJobRows(d, batch, claims, now, n + 1,
              if KeptJob(batch[n].schedule, claims, d.nextId, d.nextId + n) then rows[d.nextId + n := row] else rows)
  {
  }

  lemma AllJobRows(d: Db, batch: seq<NewJob>, claims: map<ScheduleId, nat>, now: Time, rows: map<JobId, Job>)
    requires IsPrefixOfJobRows(d, batch, claims, now, |batch|, rows)
    ensures rows == NewJobRows(d, batch, claims, now)
  {
  }

  /** The columns of the jobs that are kept. */
  method JobColumns(d: Db, batch: seq<NewJob>, claims: map<ScheduleId, nat>, now: Time)
    returns (ids: seq<JobId>, rows: map<JobId, Job>)
    ensures rows == NewJobRows(d, batch, claims, now)
    ensures forall m, n :: 0 <= m < n < |ids| ==> ids[m] < ids[n]
    ensures forall j :: j in ids <==> j in rows
  {
    ids, rows := [], map[];
    for i := 0 to |batch|
      invariant IsPrefixOfJobRows(d, batch, claims, now, i, rows)
      invariant forall m, n :: 0 <= m < n < |ids| ==> ids[m] < ids[n]
      invariant forall m :: 0 <= m < |ids| ==> ids[m] < d.nextId + i
      invariant forall j :: j in ids <==> j in rows
    {
      var j := d.nextId + i;
      InsertNext(d, batch, claims, now, i, rows);
      if KeptJob(batch[i].schedule, claims, d.nextId, j) {
        rows := rows[j := Job(batch[i].definition, now, batch[i].schedule, None, None)];
        ids := ids + [j];
      }
    }
    AllJobRows(d, batch, claims, now, rows);
  }

  lemma ExistingSelected(d: Db, filters: Filters, existing: seq<JobId>, now: Time)
    requires multiset(existing) == SelectJobIds(d, filters, now)
    ensures existing == [] <==> Selected(d, filters, now) == {}
  {
    SelectionIsExact(d, filters, now);
    assert forall j :: j in existing <==> j in multiset(existing);
    if existing != [] {
      assert existing[0] in existing;
    }
  }

  function JobsCancelled(cancelled: seq<CancelledJob>): set<JobId> { set c | c in cancelled :: c.job }

  lemma JobsCancelledNext(cancelled: seq<CancelledJob>, c: CancelledJob)
    ensures JobsCancelled(cancelled + [c]) == JobsCancelled(cancelled) + {c.job}
  {
    forall j | j in JobsCancelled(cancelled) ensures j in JobsCancelled(cancelled + [c]) {
      var b :| b in cancelled && b.job == j;
      assert b in cancelled + [c];
    }
    assert c in cancelled + [c];
  }

  /** The jobs of the cancelled executions, each with one of them. */
  ghost predicate CancelledJobs(d: Db, rows: map<ExecutionId, Time>, cancelled: seq<CancelledJob>) {
    && (forall n :: 0 <= n < |cancelled| ==>
          cancelled[n].lastExecution in rows && Of(d, cancelled[n].lastExecution, cancelled[n].job))
    && (forall m, n :: 0 <= m < n < |cancelled| ==> cancelled[m].job != cancelled[n].job)
    && JobsCancelled(cancelled) == FinishedJobs(d, rows)
  }

  /** Every active execution that is cancelled is reported, as each job has only one. */
  lemma CancelledExecutionReported(d: Db, selected: set<JobId>, at: Time, cancelled: seq<CancelledJob>, e: ExecutionId)
    requires Valid(d) && CancelledJobs(d, CancelledRows(d, selected, at), cancelled)
    requires Active(d, e) && d.executions[e].job in selected
    ensures CancelledJob(d.executions[e].job, e) in cancelled
  {
    assert e in CancelledRows(d, selected, at);
    assert d.executions[e].job in JobsCancelled(cancelled);
    var c :| c in cancelled && c.job == d.executions[e].job;
    OneActive(d, e, c.lastExecution);
  }

  function InactiveTimes(cancelled: seq<CancelledJob>, now: Time): map<JobId, Time> {
    map j | j in JobsCancelled(cancelled) :: now
  }

  function ReturnedRows(d: Db, rows: map<ExecutionId, Time>): map<ExecutionId, JobId> {
    map e | e in rows && e in d.executions :: d.executions[e].job
  }

  lemma ReturnedJobs(d: Db, rows: map<ExecutionId, Time>, cancelled: seq<CancelledJob>)
    requires forall e :: e in rows ==> Active(d, e)
    requires forall n :: 0 <= n < |cancelled| ==>
               && cancelled[n].lastExecution in ReturnedRows(d, rows)
               && ReturnedRows(d, rows)[cancelled[n].lastExecution] == cancelled[n].job
    requires forall m, n :: 0 <= m < n < |cancelled| ==> cancelled[m].job != cancelled[n].job
    requires forall e :: e in ReturnedRows(d, rows) ==> ReturnedRows(d, rows)[e] in JobsCancelled(cancelled)
    ensures CancelledJobs(d, rows, cancelled)
  {
    forall j ensures j in JobsCancelled(cancelled) <==> j in FinishedJobs(d, rows) {
      if j in JobsCancelled(cancelled) {
        var c :| c in cancelled && c.job == j;
        assert Active(d, c.lastExecution);
      }
      if j in FinishedJobs(d, rows) {
        var e :| e in rows && Active(d, e) && d.executions[e].job == j;
        assert e in ReturnedRows(d, rows);
      }
    }
  }

  /** Keeps one of the returned executions of each job. */
  method EachJobOnce(returned: map<ExecutionId, JobId>) returns (cancelled: seq<CancelledJob>)
    ensures forall n :: 0 <= n < |cancelled| ==>
              cancelled[n].lastExecution in returned && returned[cancelled[n].lastExecution] == cancelled[n].job
    ensures forall m, n :: 0 <= m < n < |cancelled| ==> cancelled[m].job != cancelled[n].job
    ensures forall e :: e in returned ==> returned[e] in JobsCancelled(cancelled)
  {
    var left := returned.Keys;
    var cancelledJobIds: set<JobId> := {};
    cancelled := [];
    while left != {}
      invariant left <= returned.Keys
      invariant forall n :: 0 <= n < |cancelled| ==>
        cancelled[n].lastExecution in returned && returned[cancelled[n].lastExecution] == cancelled[n].job
      invariant forall m, n :: 0 <= m < n < |cancelled| ==> cancelled[m].job != cancelled[n].job
      invariant cancelledJobIds == JobsCancelled(cancelled)
      invariant forall e :: e in returned && e !in left ==> returned[e] in cancelledJobIds
    {
      var e :| e in left;
      left := left - {e};
      var job := returned[e];
      if job !in cancelledJobIds {
        JobsCancelledNext(cancelled, CancelledJob(job, e));
        cancelledJobIds := cancelledJobIds + {job};
        cancelled := cancelled + [CancelledJob(job, e)];
      }
    }
  }

  /** The columns of the failed and of the new executions. */
  method RetryColumns(batch: seq<RetriedExecution>)
    returns (failed: seq<FinishedExecution>, added: seq<NewExecution>)
    ensures failed == Failures(batch) && added == RetryExecutions(batch)
  {
    failed, added := [], [];
    for i := 0 to |batch|
      invariant failed == Failures(batch)[..i] && added == RetryExecutions(batch)[..i]
    {
      failed := failed + [FinishedExecution(batch[i].execution, batch[i].failedAt)];
      added := added + [NewExecution(batch[i].job, batch[i].retryAt)];
    }
  }

  lemma CancelKeepsValid(d: Db, selected: set<JobId>, at: Time, now: Time)
    ensures Valid(d) ==> Valid(Tables.CancelJobs(d, selected, at, now))
  {
    if Valid(d) {
      CancelledValid(d, selected, at, now);
    }
  }

  class PostgresBackend {
    var jobs: map<JobId, Job>
    var executions: map<ExecutionId, Execution>
    var schedules: map<ScheduleId, Schedule>
    var nextId: nat

    function View(): Db
      reads this
    {
      Db(jobs, executions, schedules, nextId)
    }

    constructor ()
      ensures View() == EMPTY && Valid(View())
    {
      jobs, executions, schedules, nextId := map[], map[], map[], 0;
    }

    /** Executions that are not pending anymore are left out of the result, unless the call is repeated. */
    method ExecutionsStarted(batch: seq<StartedExecution>) returns (started: seq<ExecutionId>)
      modifies this
      ensures View() == Tables.ExecutionsStarted(old(View()), StartRows(old(View()), batch))
      ensures forall i, j :: 0 <= i < j < |started| ==> started[i] != started[j]
      ensures forall e :: e in started <==> exists i :: 0 <= i < |batch| && batch[i].execution == e && Starts(old(View()), batch[i])
      ensures old(Valid(View())) ==> Valid(View())
    {
      ghost var d := View();
      started := [];
      NothingStarted(d);
      assert batch[..0] == [];
      for i := 0 to |batch|
        invariant jobs == d.jobs && schedules == d.schedules && nextId == d.nextId
        invariant StartedSoFar(d, StartRows(d, batch[..i]), executions, started)
      {
        var s := batch[i];
        StartedSoFarNext(d, batch, i, executions, started);
        if s.execution !in started && Starts(View(), s) {
          executions := executions[s.execution := executions[s.execution].(executor := Some(s.executor), startedAt := Some(s.at))];
          started := started + [s.execution];
        }
      }
      assert batch[..|batch|] == batch;
      forall e ensures e in started <==> exists i :: 0 <= i < |batch| && batch[i].execution == e && Starts(d, batch[i]) {
        StartRowsStart(d, batch, e);
      }
      if Valid(d) {
        StartedValid(d, StartRows(d, batch));
      }
    }

    /** `UPDATE ora.execution ... WHERE status < 2`, returns the jobs and times of the updated rows. */
    method FinishExecutions(batch: seq<FinishedExecution>, finish: Finish) returns (finished: map<JobId, Time>)
      modifies this
      ensures View() == Tables.FinishExecutions(old(View()), FirstTimes(batch), finish)
      ensures TimesOf(old(View()), FirstTimes(batch), finished)
    {
      ghost var d := View();
      finished := map[];
      NothingFinished(d, finish);
      for i := 0 to |batch|
        invariant jobs == d.jobs && schedules == d.schedules && nextId == d.nextId
        invariant FinishedSoFar(d, FirstTimes(batch[..i]), finish, executions, finished)
      {
        var e, at := batch[i].execution, batch[i].at;
        FirstTimesNext(batch, i);
        FinishedSoFarNext(d, FirstTimes(batch[..i]), finish, executions, finished, e, at);
        if e in executions && executions[e].IsActive() {
          finished := finished[executions[e].job := at];
          executions := executions[e := FinishRow(executions[e], finish, at)];
        }
      }
      assert batch[..|batch|] == batch;
    }

    /** `schedulesFreed` tells the caller to look for schedules that need their next job. */
    method MarkJobsInactive(times: map<JobId, Time>, status: ExecutionStatus) returns (schedulesFreed: bool)
      modifies this
      ensures View() == Tables.MarkJobsInactive(old(View()), times, status)
      ensures schedulesFreed <==> exists s :: s in schedules && old(schedules)[s].activeJob.Some? && schedules[s].activeJob.None?
    {
      if times == map[] {
        assert Tables.MarkJobsInactive(View(), times, status).jobs == jobs;
        assert Tables.MarkJobsInactive(View(), times, status).schedules == schedules;
        return false;
      }
      schedulesFreed := exists s | s in schedules :: schedules[s].activeJob.Some? && schedules[s].activeJob.value in times;
      jobs := map j | j in jobs ::
        if j in times then jobs[j].(inactiveSince := Some(times[j]), inactiveStatus := Some(status)) else jobs[j];
      schedules := map s | s in schedules ::
        if schedules[s].activeJob.Some? && schedules[s].activeJob.value in times
        then schedules[s].(activeJob := None)
        else schedules[s];
    }

    /** `executions_succeeded` and `executions_failed`. */
    method ExecutionsFinished(batch: seq<FinishedExecution>, finish: Finish) returns (finished: map<JobId, Time>)
      modifies this
      ensures View() == FinishAndMark(old(View()), FirstTimes(batch), finish, finished)
      ensures TimesOf(old(View()), FirstTimes(batch), finished)
      ensures old(Valid(View())) ==> Valid(View())
    {
      ghost var d := View();
      finished := FinishExecutions(batch, finish);
      var _ := MarkJobsInactive(finished, finish.Status());
      if Valid(d) {
        FinishedValid(d, FirstTimes(batch), finish, finished);
      }
    }

    /** Inserts an execution for each of the new ones whose job is one of those kept. */
    method AddExecutions(added: seq<NewExecution>, kept: set<JobId>)
      modifies this
      ensures View() == Tables.AddExecutions(old(View()), added, kept)
      ensures forall i: nat :: i < |added| && added[i].job in kept && added[i].job in old(jobs) ==>
                IsAdded(old(View()), View(), added, i)
    {
      ghost var d := View();
      forall i: nat | i < |added| && added[i].job in kept && added[i].job in jobs
        ensures IsAdded(d, Tables.AddExecutions(d, added, kept), added, i)
      {
        AddedExecutionColumns(d, added, kept, i);
      }
      var rows := ExecutionColumns(View(), added, kept);
      executions := executions + rows;
      nextId := nextId + |added|;
    }

    /** The check that a job is still active compares job ids only. */
    method ExecutionsRetried(batch: seq<RetriedExecution>)
      modifies this
      ensures View() == Tables.ExecutionsRetried(old(View()), batch)
      ensures old(Valid(View())) ==> (Valid(View()) <==> old(CleanBatch(View(), batch)))
    {
      ghost var d := View();
      var failed, added := RetryColumns(batch);
      var jobsActive := FinishExecutions(failed, Failure);
      AddExecutions(added, jobsActive.Keys);
      if Valid(d) {
        RetriedValidIff(d, batch);
      }
    }

    /** Claims the pending schedules of the jobs, each for one of its jobs. */
    method ClaimSchedules(batch: seq<NewJob>) returns (claims: map<ScheduleId, nat>)
      modifies this
      ensures View() == old(View()).(schedules := Tables.ClaimSchedules(old(View()), claims))
      ensures ClaimsOf(old(View()), batch, claims)
    {
      ghost var d := View();
      claims := map[];
      NothingClaimed(d);
      assert batch[..0] == [];
      for i := 0 to |batch|
        invariant jobs == d.jobs && executions == d.executions && nextId == d.nextId
        invariant ClaimedSoFar(d, batch[..i], claims, schedules)
      {
        ClaimNext(d, batch, i, claims, schedules);
        if batch[i].schedule.Some? {
          var s := batch[i].schedule.value;
          if s in schedules && schedules[s].IsPending() {
            schedules := schedules[s := schedules[s].(activeJob := Some(nextId + i))];
            claims := claims[s := i];
          }
        }
      }
      assert batch[..|batch|] == batch;
    }

    /** Inserts the jobs that are kept. */
    method InsertJobs(batch: seq<NewJob>, claims: map<ScheduleId, nat>, now: Time)
      returns (ids: seq<JobId>, first: seq<NewExecution>)
      modifies this
      ensures View() == old(View()).(jobs := old(jobs) + NewJobRows(old(View()), batch, claims, now))
      ensures first == FirstExecutions(old(View()), batch)
      ensures forall m, n :: 0 <= m < n < |ids| ==> ids[m] < ids[n]
      ensures forall j :: j in ids <==> j in NewJobRows(old(View()), batch, claims, now)
    {
      var rows;
      ids, rows := JobColumns(View(), batch, claims, now);
      first := [];
      for i := 0 to |batch|
        invariant first == FirstExecutions(View(), batch)[..i]
      {
        first := first + [NewExecution(nextId + i, batch[i].definition.target)];
      }
      jobs := jobs + rows;
    }

    /** Claims the schedules, and adds the jobs that are kept with their first executions. */
    method InsertClaimed(batch: seq<NewJob>, now: Time) returns (ids: seq<JobId>, ghost claims: map<ScheduleId, nat>)
      modifies this
      ensures ClaimsOf(old(View()), batch, claims) && View() == Tables.AddJobs(old(View()), batch, claims, now)
      ensures forall m, n :: 0 <= m < n < |ids| ==> ids[m] < ids[n]
      ensures forall j :: j in ids <==> j in NewJobRows(old(View()), batch, claims, now)
    {
      ghost var d := View();
      var claimed := ClaimSchedules(batch);
      claims := claimed;
      ghost var rows := NewJobRows(d, batch, claims, now);
      assert NewJobRows(View(), batch, claims, now) == rows;
      assert FirstExecutions(View(), batch) == FirstExecutions(d, batch);
      var first;
      ids, first := InsertJobs(batch, claimed, now);
      nextId := nextId + |batch|;
      var kept := set j | j in ids;
      assert kept == rows.Keys;
      assert View() == WithJobs(d, batch, claims, rows);
      AddExecutions(first, kept);
    }

    /**
      Adds the jobs with their first executions, jobs of schedules only if they claimed their schedule.
      `existing` are the jobs selected by the filters of the call, if it has any.
     */
    method AddJobs(batch: seq<NewJob>, ifNotExists: Option<Filters>, existing: seq<JobId>, now: Time)
      returns (added: AddedJobs, ghost claims: map<ScheduleId, nat>)
      requires ifNotExists.Some? ==> multiset(existing) == SelectJobIds(View(), ifNotExists.value, now)
      modifies this
      ensures added.Existing? <==> batch != [] && ifNotExists.Some? && old(Selected(View(), ifNotExists.value, now)) != {}
      ensures added.Existing? || batch == [] ==> View() == old(View())
      ensures added.Existing? ==> added.jobs == existing
      ensures batch == [] ==> added == Added([])
      ensures added.Added? && batch != [] ==>
                && ClaimsOf(old(View()), batch, claims)
                && View() == Tables.AddJobs(old(View()), batch, claims, now)
                && (forall m, n :: 0 <= m < n < |added.jobs| ==> added.jobs[m] < added.jobs[n])
                && (forall j :: j in added.jobs <==> j in NewJobRows(old(View()), batch, claims, now))
      ensures old(Valid(View())) ==> Valid(View())
    {
      claims := map[];
      if batch == [] {
        return Added([]), claims;
      }
      ghost var d := View();
      if ifNotExists.Some? {
        ExistingSelected(d, ifNotExists.value, existing, now);
        if existing != [] {
          return Existing(existing), claims;
        }
      }
      var ids;
      ids, claims := InsertClaimed(batch, now);
      if Valid(d) {
        AddedValid(d, batch, claims, now);
      }
      return Added(ids), claims;
    }

    /** Cancels the active executions of the jobs, and returns each of these jobs once. */
    method CancelSelected(selected: set<JobId>, at: Time, now: Time) returns (cancelled: seq<CancelledJob>)
      modifies this
      ensures View() == Tables.CancelJobs(old(View()), selected, at, now)
      ensures CancelledJobs(old(View()), CancelledRows(old(View()), selected, at), cancelled)
      ensures old(Valid(View())) ==> Valid(View())
    {
      ghost var d := View();
      var rows := CancelledRows(View(), selected, at);
      cancelled := UpdateCancelled(rows);
      var _ := MarkJobsInactive(InactiveTimes(cancelled, now), Cancelled);
      CancelKeepsValid(d, selected, at, now);
    }

    /** `UPDATE ora.execution ... WHERE ora.execution.status < 2 RETURNING job_id, id`. */
    method UpdateCancelled(rows: map<ExecutionId, Time>) returns (cancelled: seq<CancelledJob>)
      requires forall e :: e in rows ==> Active(View(), e)
      modifies this`executions
      ensures View() == Tables.FinishExecutions(old(View()), rows, Cancellation)
      ensures CancelledJobs(old(View()), rows, cancelled)
    {
      cancelled := EachJobOnce(ReturnedRows(View(), rows));
      ReturnedJobs(View(), rows, cancelled);
      executions := Tables.FinishExecutions(View(), rows, Cancellation).executions;
    }

    /** Cancels the jobs that match the filters, `selected` being the result of the subquery. */
    method CancelJobs(filters: Filters, selected: set<JobId>, at: Time, now: Time) returns (cancelled: seq<CancelledJob>)
      requires selected == SelectedForCancel(View(), filters, now)
      modifies this
      ensures View() == Tables.CancelJobs(old(View()), selected, at, now)
      ensures old(Valid(View())) ==>
                && Valid(View())
                && forall e {:trigger Active(old(View()), e)} ::
                     Active(old(View()), e) && old(executions)[e].job in old(Selected(View(), filters, now)) ==>
                       CancelledJob(old(executions)[e].job, e) in cancelled
      ensures forall c :: c in cancelled ==>
                && Active(old(View()), c.lastExecution) && Of(old(View()), c.lastExecution, c.job)
                && c.job in selected
    {
      ghost var d := View();
      cancelled := CancelSelected(selected, at, now);
      if Valid(d) {
        forall e | Active(d, e) && d.executions[e].job in Selected(d, filters, now)
          ensures CancelledJob(d.executions[e].job, e) in cancelled
        {
          CancelSelectsActive(d, filters, now);
          UnmarkedOfActive(d, e);
          CancelledExecutionReported(d, selected, at, cancelled, e);
        }
      }
    }
  }
}
