/** The number of executions of a job, and the attempt numbers the server carries around. */
module Attempts {
  import opened Common
  import opened RetryBackoff
  import opened Tables
  import opened TableInvariants
  import opened TableRuns
  import opened Backend
  import opened PoolModel
  import opened Dispatch
  import opened Progress

  /** What a record says is right for as long as its execution is active. */
  ghost predicate RecordHolds(d: Db, r: Record) {
    && r.execution < d.nextId
    && (r.execution in d.executions ==> d.executions[r.execution].job == r.job)
    && (Active(d, r.execution) ==>
          r.job in d.jobs && r.retry == d.jobs[r.job].definition.retry && r.attempt == Tables.Attempts(d, r.job))
  }

  /** A job has at most one execution more than it has retries. */
  ghost predicate Bounded(d: Db, j: JobId)
    requires j in d.jobs
  {
    Tables.Attempts(d, j) <= d.jobs[j].definition.retry.retries + 1
  }

  ghost predicate InState(s: State, r: Record) {
    || (s.fetch.Fetched? && r in s.fetch.batch)
    || (exists e :: e in s.pool.held && s.pool.held[e].record == r)
    || r in s.pool.results
    || r in s.processing
    || r in s.scanned
  }

  ghost predicate AttemptsAgree(s: State) {
    && Valid(s.d)
    && (forall r {:trigger InState(s, r)} :: InState(s, r) ==> RecordHolds(s.d, r))
    && (forall j {:trigger Bounded(s.d, j)} :: j in s.d.jobs ==> Bounded(s.d, j))
  }

  // ---- Transactions.

  /** Executions that remain active are of jobs that had no execution added. */
  ghost predicate SameAttempts(d: Db, t: Db, e: ExecutionId) {
    e < d.nextId && Active(t, e) ==>
      var j := t.executions[e].job;
      && Active(d, e) && d.executions[e].job == j && j in d.jobs && j in t.jobs
      && t.jobs[j].definition == d.jobs[j].definition && ExecutionsOf(t, j) == ExecutionsOf(d, j)
  }

  lemma RecordStillHolds(d: Db, t: Db, r: Record)
    requires RecordHolds(d, r) && ExecutionsEvolve(d, t) && SameAttempts(d, t, r.execution)
    ensures RecordHolds(t, r)
  {
    assert ExecutionEvolves(d, t, r.execution);
  }

  lemma SameRowsSameAttempts(d: Db, t: Db, e: ExecutionId)
    requires WellFormed(d) && SameRows(d, t) && ExecutionsEvolve(d, t)
    requires forall j :: j in d.jobs ==> t.jobs[j].definition == d.jobs[j].definition
    ensures SameAttempts(d, t, e)
  {
    assert ExecutionEvolves(d, t, e);
    if Active(t, e) {
      SameLatest(d, t, t.executions[e].job);
    }
  }

  lemma RetriedSameAttempts(d: Db, batch: seq<RetriedExecution>, e: ExecutionId)
    requires Valid(d)
    ensures SameAttempts(d, ExecutionsRetried(d, batch), e)
  {
    RetriedRows(d, batch);
    FinishesFinishedJobs(d, FailureRows(batch));
    RetriedToSameAttempts(d, ExecutionsRetried(d, batch), FailureRows(batch), FinishedJobs(d, FailureRows(batch)), batch, e);
  }

  lemma RetriedToSameAttempts(d: Db, t: Db, rows: map<ExecutionId, Time>, jobs: set<JobId>, batch: seq<RetriedExecution>,
                              e: ExecutionId)
    requires Valid(d) && RetriedTo(d, t, rows, jobs, batch) && FinishesJobs(d, rows, jobs)
    ensures SameAttempts(d, t, e)
  {
    if e < d.nextId && Active(t, e) {
      assert !AddedBy(d.nextId, batch, jobs, e);
      RetriedActive(d, t, rows, jobs, batch, e);
      RetriedUntouched(d, t, rows, jobs, batch, d.executions[e].job);
    }
  }

  lemma AddedSameAttempts(d: Db, t: Db, batch: seq<NewJob>, claims: map<ScheduleId, nat>, now: Time, e: ExecutionId)
    requires Valid(d) && AddedTo(d, t, batch, claims, now)
    ensures SameAttempts(d, t, e)
  {
    if e < d.nextId && Active(t, e) {
      assert !FirstOf(d, batch, claims, e);
      assert JobAgrees(d, d.executions[e].job);
      AddedOldJob(d, t, batch, claims, now, d.executions[e].job);
    }
  }

  lemma DeletedSameAttempts(d: Db, jobs: set<JobId>, schedules: set<ScheduleId>, e: ExecutionId)
    requires Valid(d)
    ensures SameAttempts(d, DeleteHistory(d, jobs, schedules), e)
  {
    if Active(DeleteHistory(d, jobs, schedules), e) {
      DeletedSameLatest(d, jobs, schedules, d.executions[e].job);
    }
  }

  /** The transactions that only update rows. */
  lemma UpdatesKeepRows(d: Db, tx: Transaction)
    requires !tx.AddingJobs? && !tx.Retrying? && !tx.DeletingHistory?
    ensures SameRows(d, Apply(d, tx))
    ensures forall j :: j in d.jobs ==> Apply(d, tx).jobs[j].definition == d.jobs[j].definition
  {
  }

  lemma TransactionSameAttempts(d: Db, tx: Transaction, e: ExecutionId)
    requires Valid(d) && Allowed(d, tx)
    ensures SameAttempts(d, Apply(d, tx), e)
  {
    if tx.AddingJobs? {
      AddedJobRows(d, tx.newJobs, tx.claims, tx.now);
      AddedSameAttempts(d, Apply(d, tx), tx.newJobs, tx.claims, tx.now, e);
    } else if tx.Retrying? {
      RetriedSameAttempts(d, tx.retried, e);
    } else if tx.DeletingHistory? {
      DeletedSameAttempts(d, tx.deletedJobs, tx.deletedSchedules, e);
    } else {
      ApplyExecutionsEvolve(d, tx);
      UpdatesKeepRows(d, tx);
      SameRowsSameAttempts(d, Apply(d, tx), e);
    }
  }

  // ---- The bound.

  function EntriesOf(batch: seq<RetriedExecution>, base: nat, j: JobId): set<ExecutionId> {
    set e: nat | base <= e < base + |batch| && At(batch, base, e).job == j
  }

  /** Exactly how many executions a retried batch adds to a job: one for each entry naming it, if it had one failed. */
  lemma RetriedAttempts(d: Db, batch: seq<RetriedExecution>, j: JobId)
    requires WellFormed(d)
    ensures Tables.Attempts(ExecutionsRetried(d, batch), j)
         == Tables.Attempts(d, j) + if j in FinishedJobs(d, FailureRows(batch)) then |EntriesOf(batch, d.nextId, j)| else 0
  {
    RetriedRows(d, batch);
    RetriedToAttempts(d, ExecutionsRetried(d, batch), FailureRows(batch), FinishedJobs(d, FailureRows(batch)), batch, j);
  }

  lemma RetriedToAttempts(d: Db, t: Db, rows: map<ExecutionId, Time>, jobs: set<JobId>, batch: seq<RetriedExecution>,
                          j: JobId)
    requires RetriedTo(d, t, rows, jobs, batch)
    ensures Tables.Attempts(t, j) == Tables.Attempts(d, j) + if j in jobs then |EntriesOf(batch, d.nextId, j)| else 0
  {
    var entries := EntriesOf(batch, d.nextId, j);
    forall e: ExecutionId ensures e in ExecutionsOf(t, j) <==> e in ExecutionsOf(d, j) || (j in jobs && e in entries) {
      if j in jobs && e in entries {
        assert AddedBy(d.nextId, batch, jobs, e);
      }
    }
    if j in jobs {
      assert ExecutionsOf(t, j) == ExecutionsOf(d, j) + entries;
      assert ExecutionsOf(d, j) !! entries;
    } else {
      assert ExecutionsOf(t, j) == ExecutionsOf(d, j);
    }
  }

  /** The entry of a clean batch that names a job is the one for its active execution. */
  lemma RetriedWithinBound(d: Db, batch: seq<RetriedExecution>, records: set<Record>, j: JobId)
    requires WellFormed(d) && CallFor(Retrying(batch), records)
    requires forall r :: r in records ==> RecordHolds(d, r)
    requires j in FinishedJobs(d, FailureRows(batch))
    ensures j in d.jobs && Tables.Attempts(d, j) <= d.jobs[j].definition.retry.retries
  {
    var e :| e in FailureRows(batch) && Active(d, e) && d.executions[e].job == j;
    FirstTimesNamed(Failures(batch));
    var i :| 0 <= i < |Failures(batch)| && Failures(batch)[i].execution == e;
    assert FromRecords(records, batch[i]);
    var r :| r in records && Retries(r, batch[i]);
    assert RecordHolds(d, r);
  }

  lemma RetriedBounded(d: Db, batch: seq<RetriedExecution>, records: set<Record>, j: JobId)
    requires Valid(d) && CleanBatch(d, batch) && CallFor(Retrying(batch), records)
    requires forall r :: r in records ==> RecordHolds(d, r)
    requires j in d.jobs && Bounded(d, j)
    ensures Bounded(ExecutionsRetried(d, batch), j)
  {
    RetriedAttempts(d, batch, j);
    if j in FinishedJobs(d, FailureRows(batch)) {
      RetriedWithinBound(d, batch, records, j);
      var i: nat :| OnlyEntry(batch, j, i);
      OneEntry(batch, d.nextId, j, i);
    }
  }

  lemma OneEntry(batch: seq<RetriedExecution>, base: nat, j: JobId, i: nat)
    requires OnlyEntry(batch, j, i)
    ensures |EntriesOf(batch, base, j)| == 1
  {
    forall e: nat | base <= e < base + |batch| && At(batch, base, e).job == j ensures e == base + i {
      assert batch[e - base].job == j;
    }
    assert At(batch, base, base + i) == batch[i];
    assert EntriesOf(batch, base, j) == {base + i};
  }

  lemma AddedBounded(d: Db, t: Db, batch: seq<NewJob>, claims: map<ScheduleId, nat>, now: Time, j: JobId)
    requires Valid(d) && AddedTo(d, t, batch, claims, now) && j in t.jobs
    requires j in d.jobs ==> Bounded(d, j)
    ensures Bounded(t, j)
  {
    if j in d.jobs {
      assert JobAgrees(d, j);
      AddedOldJob(d, t, batch, claims, now, j);
    } else {
      AddedNewJob(d, t, batch, claims, now, j);
    }
  }

  lemma SameRowsBounded(d: Db, t: Db, j: JobId)
    requires SameRows(d, t) && j in t.jobs && t.jobs[j].definition == d.jobs[j].definition && Bounded(d, j)
    ensures Bounded(t, j)
  {
    SameLatest(d, t, j);
  }

  lemma OtherBounded(d: Db, tx: Transaction, j: JobId)
    requires Valid(d) && Allowed(d, tx) && !tx.Retrying? && j in Apply(d, tx).jobs
    requires j in d.jobs ==> Bounded(d, j)
    ensures Bounded(Apply(d, tx), j)
  {
    if tx.AddingJobs? {
      AddedJobRows(d, tx.newJobs, tx.claims, tx.now);
      AddedBounded(d, Apply(d, tx), tx.newJobs, tx.claims, tx.now, j);
    } else if tx.DeletingHistory? {
      DeletedSameLatest(d, tx.deletedJobs, tx.deletedSchedules, j);
    } else {
      UpdatesKeepRows(d, tx);
      SameRowsBounded(d, Apply(d, tx), j);
    }
  }

  /** Retries are made for records that are right. */
  ghost predicate Rightful(d: Db, tx: Transaction) {
    tx.Retrying? ==> CleanBatch(d, tx.retried) && exists records :: MadeFor(d, tx, records)
  }

  ghost predicate MadeFor(d: Db, tx: Transaction, records: set<Record>) {
    CallFor(tx, records) && forall r :: r in records ==> RecordHolds(d, r)
  }

  lemma TransactionKeepsAgreement(s: State, tx: Transaction)
    requires AttemptsAgree(s) && Allowed(s.d, tx) && Rightful(s.d, tx)
    ensures AttemptsAgree(s.(d := Apply(s.d, tx)))
  {
    var t := s.(d := Apply(s.d, tx));
    ApplyValidIff(s.d, tx);
    ApplyExecutionsEvolve(s.d, tx);
    forall r | InState(t, r) ensures RecordHolds(t.d, r) {
      assert InState(s, r);
      TransactionSameAttempts(s.d, tx, r.execution);
      RecordStillHolds(s.d, t.d, r);
    }
    forall j | j in t.d.jobs ensures Bounded(t.d, j) {
      if tx.Retrying? {
        RetriedRows(s.d, tx.retried);
        var records :| MadeFor(s.d, tx, records);
        RetriedBounded(s.d, tx.retried, records, j);
      } else {
        OtherBounded(s.d, tx, j);
      }
    }
  }

  // ---- The steps.

  /** The transaction of a step, if it makes one. */
  function TransactionOf(s: State, step: Step): Option<Transaction> {
    match step
    case RecordStarts(_) => Some(Starting(StartRows(s.d, s.starting)))
    case ApplyResults(tx, _, _) => Some(tx)
    case ApplyScanned(tx, _, _) => Some(tx)
    case OtherTransaction(tx) => Some(tx)
    case _ => None
  }

  /** Retried batches name each job with a failed execution exactly once. */
  ghost predicate CleanStep(s: State, step: Step) {
    TransactionOf(s, step).Some? ==> Clean(s.d, TransactionOf(s, step).value)
  }

  lemma StepIsRightful(s: State, step: Step)
    requires AttemptsAgree(s) && CanStep(s, step) && CleanStep(s, step) && TransactionOf(s, step).Some?
    ensures Allowed(s.d, TransactionOf(s, step).value) && Rightful(s.d, TransactionOf(s, step).value)
    ensures Next(s, step).d == Apply(s.d, TransactionOf(s, step).value)
  {
    if step.ApplyResults? || step.ApplyScanned? {
      forall r | r in step.records ensures RecordHolds(s.d, r) {
        assert InState(s, r);
      }
      assert MadeFor(s.d, step.tx, step.records);
    }
  }

  /** Records enter the state only from the tables. */
  ghost predicate NothingNew(s: State, t: State) {
    forall r {:trigger InState(t, r)} :: InState(t, r) ==> InState(s, r) || RecordHolds(t.d, r)
  }

  lemma DescribedHolds(d: Db, r: Record)
    requires WellFormed(d) && Describes(d, r)
    ensures RecordHolds(d, r)
  {
  }

  lemma NothingNewInPool(s: State, step: Step)
    requires CanStep(s, step)
    requires step.OfferOne? || step.AcceptOne? || step.Withdraw? || step.CompleteOne? || step.BadTimestamp?
             || step.DropOne? || step.CancelInPool? || step.PurgeAccepted? || step.FinishStarts?
    ensures NothingNew(s, Next(s, step))
  {
    var t := Next(s, step);
    forall r | InState(t, r) ensures InState(s, r) {
      if e: ExecutionId :| e in t.pool.held && t.pool.held[e].record == r {
        assert step.OfferOne? || (e in s.pool.held && s.pool.held[e].record == r);
      }
    }
  }

  lemma NothingNewInLoops(s: State, step: Step)
    requires WellFormed(s.d) && CanStep(s, step)
    requires step.Tick? || step.Connect? || step.TakeTime? || step.FetchBatch? || step.EndOffer? || step.TakeStarts?
             || step.TakeResults? || step.Scan?
    ensures NothingNew(s, Next(s, step))
  {
    var t := Next(s, step);
    forall r | InState(t, r) ensures InState(s, r) || RecordHolds(t.d, r) {
      if Describes(s.d, r) {
        DescribedHolds(s.d, r);
      }
    }
  }

  lemma NothingNewInTransactions(s: State, step: Step)
    requires CanStep(s, step) && TransactionOf(s, step).Some?
    ensures NothingNew(s.(d := Next(s, step).d), Next(s, step))
  {
    var t := Next(s, step);
    forall r | InState(t, r) ensures InState(s.(d := t.d), r) {
    }
  }

  lemma StepKeepsAgreement(s: State, step: Step)
    requires AttemptsAgree(s) && CanStep(s, step) && CleanStep(s, step)
    ensures AttemptsAgree(Next(s, step))
  {
    if TransactionOf(s, step).Some? {
      var tx := TransactionOf(s, step).value;
      StepIsRightful(s, step);
      TransactionKeepsAgreement(s, tx);
      NothingNewInTransactions(s, step);
      NothingNewKeepsAgreement(s.(d := Apply(s.d, tx)), Next(s, step));
    } else {
      if step.Tick? || step.Connect? || step.TakeTime? || step.FetchBatch? || step.EndOffer? || step.TakeStarts?
         || step.TakeResults? || step.Scan? {
        NothingNewInLoops(s, step);
      } else {
        NothingNewInPool(s, step);
      }
      NothingNewKeepsAgreement(s, Next(s, step));
    }
  }

  lemma NothingNewKeepsAgreement(s: State, t: State)
    requires AttemptsAgree(s) && NothingNew(s, t) && t.d == s.d
    ensures AttemptsAgree(t)
  {
    forall r | InState(t, r) ensures RecordHolds(t.d, r) {
    }
    forall j | j in t.d.jobs ensures Bounded(t.d, j) {
    }
  }

  ghost predicate CleanSteps(s: State, run: seq<Step>, t: State)
    requires Reaches(s, run, t)
    decreases |run|
  {
    run == [] || (CleanStep(s, run[0]) && CleanSteps(Next(s, run[0]), run[1..], t))
  }

  lemma {:induction false} RunKeepsAgreement(s: State, run: seq<Step>, t: State)
    requires AttemptsAgree(s) && Reaches(s, run, t) && CleanSteps(s, run, t)
    ensures AttemptsAgree(t)
    decreases |run|
  {
    if run != [] {
      StepKeepsAgreement(s, run[0]);
      RunKeepsAgreement(Next(s, run[0]), run[1..], t);
    }
  }

  /** The tables are valid, carried attempt numbers are right and jobs are within their retries, in every state. */
  ghost predicate AlwaysAgrees(s: State, run: seq<Step>, t: State)
    requires Reaches(s, run, t)
    decreases |run|
  {
    AttemptsAgree(s) && (run == [] || AlwaysAgrees(Next(s, run[0]), run[1..], t))
  }

  lemma UncleanStepBreaks(s: State, step: Step)
    requires AttemptsAgree(s) && CanStep(s, step) && !CleanStep(s, step)
    ensures !AttemptsAgree(Next(s, step))
  {
    var tx := TransactionOf(s, step).value;
    ApplyValidIff(s.d, tx);
    assert Next(s, step).d == Apply(s.d, tx);
  }

  /** Over whole runs of the protocol, this is so if and only if every retried batch is clean. */
  lemma {:induction false} RunAgreesIff(s: State, run: seq<Step>, t: State)
    requires AttemptsAgree(s) && Reaches(s, run, t)
    ensures AlwaysAgrees(s, run, t) <==> CleanSteps(s, run, t)
    decreases |run|
  {
    if run != [] {
      if CleanStep(s, run[0]) {
        StepKeepsAgreement(s, run[0]);
        RunAgreesIff(Next(s, run[0]), run[1..], t);
      } else {
        UncleanStepBreaks(s, run[0]);
      }
    }
  }

  /** A retried batch keeps a job within its retries exactly if the entries naming it still fit. */
  lemma RetriedBoundedIff(d: Db, batch: seq<RetriedExecution>, j: JobId)
    requires WellFormed(d) && j in d.jobs && Bounded(d, j)
    ensures j in ExecutionsRetried(d, batch).jobs
    ensures Bounded(ExecutionsRetried(d, batch), j)
       <==> || j !in FinishedJobs(d, FailureRows(batch))
            || Tables.Attempts(d, j) + |EntriesOf(batch, d.nextId, j)| <= d.jobs[j].definition.retry.retries + 1
  {
    RetriedRows(d, batch);
    RetriedAttempts(d, batch, j);
  }

  /**
    The attempt bound over whole runs: a job never has more executions than its retries allow, because the
    attempt number that is carried with its active execution stays the number of its executions.
   */
  lemma AttemptsAreBounded(run: seq<Step>, t: State, j: JobId)
    requires Reaches(INIT, run, t) && CleanSteps(INIT, run, t) && j in t.d.jobs
    ensures Tables.Attempts(t.d, j) <= t.d.jobs[j].definition.retry.retries + 1
  {
    EmptyValid();
    assert AttemptsAgree(INIT);
    RunKeepsAgreement(INIT, run, t);
    assert Bounded(t.d, j);
  }

  /** The attempt number held for an active execution is the number of its job's executions. */
  lemma HeldAttemptIsCount(run: seq<Step>, t: State, e: ExecutionId)
    requires Reaches(INIT, run, t) && CleanSteps(INIT, run, t)
    requires e in t.pool.held && Active(t.d, e)
    ensures t.pool.held[e].record.attempt == Tables.Attempts(t.d, t.d.executions[e].job)
  {
    EmptyValid();
    assert AttemptsAgree(INIT);
    RunKeepsAgreement(INIT, run, t);
    InitTraced();
    RunKeepsTraced(INIT, run, t);
    assert ReleasableAt(t, e) && InState(t, t.pool.held[e].record);
  }
}
