/**
  Why retried batches have to name each job once: a run in which the timeouts loop retries an execution
  whose result is still queued, and the events loop then handles that result together with the result of
  the retry. The job ends up with two active executions, and more executions than its retries allow. When
  one of the two finishes, the job is marked inactive while the other may still fail and be retried.
 */
module DoubleRetry {
  import opened Common
  import opened RetryBackoff
  import opened Tables
  import opened TableInvariants
  import opened TableRuns
  import opened Backend
  import opened PoolModel
  import opened Dispatch
  import opened Attempts

  function Definition(n: nat): JobDefinition {
    JobDefinition("test", 0, map[], TimeoutPolicy(0, StartTime), RetryPolicy(n, 0, None, Fixed), 0)
  }

  function TheJob(n: nat): Job { Job(Definition(n), 0, None, None, None) }

  const PENDING := PendingRow(0, 0, 0)
  const FIRST_STARTED := PENDING.(executor := Some(10), startedAt := Some(0))
  const FIRST_FAILED := FIRST_STARTED.(failedAt := Some(0))
  const SECOND_STARTED := PENDING.(executor := Some(11), startedAt := Some(0))
  const SECOND_FAILED := SECOND_STARTED.(failedAt := Some(0))

  function First(n: nat): Record { Record(1, 0, Definition(n).retry, 1) }

  function Second(n: nat): Record { Record(2, 0, Definition(n).retry, 2) }

  /** The records of the two executions that are active together, both the fourth attempt. */
  function Doubled(n: nat, e: ExecutionId): Record { Record(e, 0, Definition(n).retry, 4) }

  const RETRY_FIRST := RetriedExecution(1, 0, 0, 0)
  const RETRY_SECOND := RetriedExecution(2, 0, 0, 0)

  function JobAdded(n: nat): Db { Db(map[0 := TheJob(n)], map[1 := PENDING], map[], 2) }

  function FirstStarted(n: nat): Db { Db(map[0 := TheJob(n)], map[1 := FIRST_STARTED], map[], 2) }

  function FirstRetried(n: nat): Db { Db(map[0 := TheJob(n)], map[1 := FIRST_FAILED, 2 := PENDING], map[], 3) }

  function SecondStarted(n: nat): Db { Db(map[0 := TheJob(n)], map[1 := FIRST_FAILED, 2 := SECOND_STARTED], map[], 3) }

  function Broken(n: nat): Db {
    Db(map[0 := TheJob(n)], map[1 := FIRST_FAILED, 2 := SECOND_FAILED, 3 := PENDING, 4 := PENDING], map[], 5)
  }

  // ---- The transactions.

  lemma AddsJob(n: nat)
    ensures Apply(EMPTY, AddingJobs([NewJob(Definition(n), None)], map[], 0)) == JobAdded(n)
  {
    var batch := [NewJob(Definition(n), None)];
    AddedJobRows(EMPTY, batch, map[], 0);
    AddedToIsAdded(n, AddJobs(EMPTY, batch, map[], 0), batch);
  }

  lemma AddedToIsAdded(n: nat, t: Db, batch: seq<NewJob>)
    requires batch == [NewJob(Definition(n), None)] && AddedTo(EMPTY, t, batch, map[], 0)
    ensures t == JobAdded(n)
  {
    forall j: JobId ensures AddedJob(EMPTY, batch, map[], j) <==> j == 0 {
    }
    assert t.jobs == JobAdded(n).jobs;
    forall e: ExecutionId ensures FirstOf(EMPTY, batch, map[], e) <==> e == 1 {
    }
    assert t.executions == JobAdded(n).executions;
    assert t.schedules == JobAdded(n).schedules;
  }

  lemma Starts1(d: Db, e: ExecutionId, x: ExecutorId)
    requires e in d.executions && d.executions[e].Status().Pending?
    ensures var batch := [StartedExecution(e, x, 0)];
            var started := d.executions[e].(executor := Some(x), startedAt := Some(0));
            && ExecutionsStarted(d, StartRows(d, batch)) == d.(executions := d.executions[e := started])
            && StartedIds(d, StartRows(d, batch)) == {e}
  {
    var l := StartedExecution(e, x, 0);
    assert StartRows(d, []) == map[];
    assert [l][..0] == [];
    assert StartRows(d, [l]) == map[e := StartedRow(x, 0)];
  }

  lemma FirstTimesOfTwo(a: FinishedExecution, b: FinishedExecution)
    requires a.execution != b.execution
    ensures FirstTimes([a]) == map[a.execution := a.at]
    ensures FirstTimes([a, b]) == map[a.execution := a.at, b.execution := b.at]
  {
    assert [a][..0] == [] && [a, b][..1] == [a];
    assert FirstTimes([]) == map[];
  }

  lemma FailsOne(entry: RetriedExecution, e: ExecutionId)
    requires entry.execution == e && entry.failedAt == 0
    ensures FailureRows([entry]) == map[e := 0]
  {
    assert Failures([entry]) == [FinishedExecution(e, 0)];
    FirstTimesOfTwo(FinishedExecution(e, 0), FinishedExecution(e + 1, 0));
  }

  lemma OnlyJob(d: Db, e: ExecutionId)
    requires Active(d, e) && d.executions[e].job == 0
    ensures TimesOf(d, map[e := 0], map[0 := 0]) && FinishedJobs(d, map[e := 0]) == {0}
  {
    assert e in map[e := 0] && Of(d, e, 0);
  }

  lemma RetriesFirst(n: nat)
    ensures Apply(FirstStarted(n), Retrying([RETRY_FIRST])) == FirstRetried(n)
  {
    var batch := [RETRY_FIRST];
    FailsOne(RETRY_FIRST, 1);
    OnlyJob(FirstStarted(n), 1);
    RetriedRowsOf(FirstStarted(n), batch, map[1 := 0]);
    RetriedToIsRetried(n, RetryWith(FirstStarted(n), map[1 := 0], batch), map[1 := 0], batch);
  }

  lemma RetriedToIsRetried(n: nat, t: Db, rows: map<ExecutionId, Time>, batch: seq<RetriedExecution>)
    requires batch == [RETRY_FIRST] && rows == map[1 := 0] && RetriedTo(FirstStarted(n), t, rows, {0}, batch)
    ensures t == FirstRetried(n)
  {
    forall e: ExecutionId ensures AddedBy(2, batch, {0}, e) <==> e == 2 {
    }
    assert t.executions == FirstRetried(n).executions;
  }

  lemma RetriesBoth(n: nat)
    ensures Apply(SecondStarted(n), Retrying([RETRY_FIRST, RETRY_SECOND])) == Broken(n)
  {
    var batch := [RETRY_FIRST, RETRY_SECOND];
    var rows := map[1 := 0, 2 := 0];
    assert Failures(batch) == [FinishedExecution(1, 0), FinishedExecution(2, 0)];
    FirstTimesOfTwo(FinishedExecution(1, 0), FinishedExecution(2, 0));
    assert FailureRows(batch) == rows;
    assert FinishedJobs(SecondStarted(n), rows) == {0} by {
      assert Active(SecondStarted(n), 2) && !Active(SecondStarted(n), 1);
    }
    RetriedRowsOf(SecondStarted(n), batch, rows);
    RetriedToIsBroken(n, RetryWith(SecondStarted(n), rows, batch), rows, batch);
  }

  lemma RetriedToIsBroken(n: nat, t: Db, rows: map<ExecutionId, Time>, batch: seq<RetriedExecution>)
    requires batch == [RETRY_FIRST, RETRY_SECOND] && rows == map[1 := 0, 2 := 0]
    requires RetriedTo(SecondStarted(n), t, rows, {0}, batch)
    ensures t == Broken(n)
  {
    forall e: ExecutionId ensures AddedBy(3, batch, {0}, e) <==> e == 3 || e == 4 {
    }
    assert t.executions == Broken(n).executions;
  }

  // ---- The run.

  /** An executor connects, accepts the pending execution, and the execution is started. */
  lemma RunsOne(run: seq<Step>, s: State, r: Record, x: ExecutorId) returns (longer: seq<Step>, t: State)
    requires Reaches(INIT, run, s) && s.fetch == Idle && s.starting == [] && s.recorded == None
    requires s.taken == |s.pool.log| && x !in s.known && s.clock == 0
    requires Describes(s.d, r) && s.d.executions[r.execution].Status().Pending?
    requires r.execution !in s.pool.held && r.execution !in s.pool.accepted
    ensures Reaches(INIT, longer, t)
    ensures t.d == s.d.(executions := s.d.executions[r.execution :=
                          s.d.executions[r.execution].(executor := Some(x), startedAt := Some(0))])
    ensures t.pool.held == s.pool.held[r.execution := Holding(x, r, Accepted)]
    ensures t.pool.live == s.pool.live + {x} && t.known == s.known + {x}
    ensures t.pool.log == s.pool.log + [StartedExecution(r.execution, x, 0)] && t.taken == |t.pool.log|
    ensures t.pool.results == s.pool.results && t.pool.accepted.Keys == s.pool.accepted.Keys + {r.execution}
    ensures t == s.(d := t.d, pool := t.pool, known := t.known, taken := t.taken)
  {
    longer, t := RunsOneOffer(run, s, r, x);
    longer, t := RunsOneStart(longer, t, r.execution, x);
  }

  lemma RunsOneOffer(run: seq<Step>, s: State, r: Record, x: ExecutorId) returns (longer: seq<Step>, t: State)
    requires Reaches(INIT, run, s) && s.fetch == Idle && x !in s.known
    requires Describes(s.d, r) && s.d.executions[r.execution].Status().Pending?
    requires r.execution !in s.pool.held && r.execution !in s.pool.accepted
    ensures Reaches(INIT, longer, t)
    ensures t == s.(known := s.known + {x},
                    pool := Offer(s.pool.(live := s.pool.live + {x}), r, x, false, 0, 0))
  {
    Extend(INIT, run, s, Connect(x));
    longer, t := run + [Connect(x)], Next(s, Connect(x));
    Extend(INIT, longer, t, TakeTime);
    longer, t := longer + [TakeTime], Next(t, TakeTime);
    Extend(INIT, longer, t, FetchBatch({r}));
    longer, t := longer + [FetchBatch({r})], Next(t, FetchBatch({r}));
    Extend(INIT, longer, t, OfferOne(r, x, false, 0, 0));
    longer, t := longer + [OfferOne(r, x, false, 0, 0)], Next(t, OfferOne(r, x, false, 0, 0));
    Extend(INIT, longer, t, EndOffer);
    longer, t := longer + [EndOffer], Next(t, EndOffer);
  }

  lemma RunsOneStart(run: seq<Step>, s: State, e: ExecutionId, x: ExecutorId) returns (longer: seq<Step>, t: State)
    requires Reaches(INIT, run, s) && s.starting == [] && s.recorded == None && s.taken + 1 == |s.pool.log|
    requires s.pool.log[s.taken] == StartedExecution(e, x, 0)
    requires e in s.d.executions && s.d.executions[e].Status().Pending?
    ensures Reaches(INIT, longer, t)
    ensures t == s.(d := s.d.(executions := s.d.executions[e :=
                      s.d.executions[e].(executor := Some(x), startedAt := Some(0))]),
                    pool := MarkStarted(s.pool, {e}, s.clock), taken := s.taken + 1)
  {
    var l := StartedExecution(e, x, 0);
    Extend(INIT, run, s, TakeStarts(1));
    longer, t := run + [TakeStarts(1)], Next(s, TakeStarts(1));
    assert t.starting == [l];
    longer, t := RecordsStart(longer, t, l);
    longer, t := MarksStart(longer, t, l);
  }

  lemma MarksStart(run: seq<Step>, s: State, l: StartedExecution) returns (longer: seq<Step>, t: State)
    requires Reaches(INIT, run, s) && s.starting == [l] && s.recorded == Some({l.execution})
    ensures Reaches(INIT, longer, t)
    ensures t == s.(pool := MarkStarted(s.pool, {l.execution}, s.clock), starting := [], recorded := None)
  {
    assert LoggedIds([l]) == {l.execution};
    Extend(INIT, run, s, FinishStarts);
    longer, t := run + [FinishStarts], Next(s, FinishStarts);
    assert s.cancels + {} == s.cancels;
  }

  lemma RecordsStart(run: seq<Step>, s: State, l: StartedExecution) returns (longer: seq<Step>, t: State)
    requires Reaches(INIT, run, s) && s.starting == [l] && s.recorded == None && l.at == 0
    requires l.execution in s.d.executions && s.d.executions[l.execution].Status().Pending?
    ensures Reaches(INIT, longer, t)
    ensures t == s.(d := s.d.(executions := s.d.executions[l.execution :=
                      s.d.executions[l.execution].(executor := Some(l.executor), startedAt := Some(0))]),
                    recorded := Some({l.execution}))
  {
    Starts1(s.d, l.execution, l.executor);
    Extend(INIT, run, s, RecordStarts(true));
    longer, t := run + [RecordStarts(true)], Next(s, RecordStarts(true));
  }

  lemma AddsTheJob(n: nat) returns (run: seq<Step>, s: State)
    ensures Reaches(INIT, run, s) && s == INIT.(d := JobAdded(n))
  {
    var add := AddingJobs([NewJob(Definition(n), None)], map[], 0);
    AddsJob(n);
    Extend(INIT, [], INIT, Step.OtherTransaction(add));
    run, s := [] + [Step.OtherTransaction(add)], Next(INIT, Step.OtherTransaction(add));
  }

  lemma Disconnects(run: seq<Step>, s: State, r: Record, x: ExecutorId) returns (longer: seq<Step>, t: State)
    requires Reaches(INIT, run, s) && x in s.pool.live && s.closing == {}
    requires s.pool.held == map[r.execution := Holding(x, r, Accepted)]
    ensures Reaches(INIT, longer, t)
    ensures t == s.(pool := s.pool.(live := s.pool.live - {x}, held := map[], results := s.pool.results + [r]))
  {
    assert HeldBy(s.pool, x) == {r.execution};
    Extend(INIT, run, s, DropOne(x, [r]));
    longer, t := run + [DropOne(x, [r])], Next(s, DropOne(x, [r]));
    assert s.pool.held - {r.execution} == map[];
  }

  lemma ScansFirst(n: nat, run: seq<Step>, s: State) returns (longer: seq<Step>, t: State)
    requires Reaches(INIT, run, s) && s.scanned == {} && s.d == FirstStarted(n)
    ensures Reaches(INIT, longer, t) && t == s.(scanned := {First(n)})
  {
    assert ExecutionsOf(FirstStarted(n), 0) == {1};
    Extend(INIT, run, s, Scan({First(n)}));
    longer, t := run + [Scan({First(n)})], Next(s, Scan({First(n)}));
  }

  lemma FirstIsNamed(n: nat)
    requires n >= 2
    ensures CallFor(Retrying([RETRY_FIRST]), {First(n)})
    ensures CallFor(Retrying([RETRY_FIRST, RETRY_SECOND]), {First(n), Second(n)})
  {
    var both := [RETRY_FIRST, RETRY_SECOND];
    assert [RETRY_FIRST][0].execution == 1;
    assert both[0].execution == 1 && both[1].execution == 2;
    assert Names([RETRY_FIRST], First(n)) && Names(both, First(n)) && Names(both, Second(n));
    assert Retries(First(n), RETRY_FIRST) && Retries(Second(n), RETRY_SECOND);
  }

  lemma AppliesScanned(run: seq<Step>, s: State, tx: Transaction, after: Db) returns (longer: seq<Step>, t: State)
    requires Reaches(INIT, run, s) && CallFor(tx, s.scanned) && Allowed(s.d, tx) && Apply(s.d, tx) == after
    ensures Reaches(INIT, longer, t) && t == s.(scanned := {}, d := after, cancels := t.cancels)
  {
    var step := ApplyScanned(tx, s.scanned, true);
    Extend(INIT, run, s, step);
    longer, t := run + [step], Next(s, step);
    assert s.scanned - s.scanned == {};
  }

  lemma AppliesResults(run: seq<Step>, s: State, tx: Transaction, after: Db) returns (longer: seq<Step>, t: State)
    requires Reaches(INIT, run, s) && CallFor(tx, s.processing) && Allowed(s.d, tx) && Apply(s.d, tx) == after
    ensures Reaches(INIT, longer, t) && t == s.(d := after, processing := {})
  {
    var step := ApplyResults(tx, s.processing, true);
    Extend(INIT, run, s, step);
    longer, t := run + [step], Next(s, step);
    assert s.processing - s.processing == {};
  }

  lemma RetriesScanned(n: nat, run: seq<Step>, s: State) returns (longer: seq<Step>, t: State)
    requires n >= 2 && Reaches(INIT, run, s) && s.scanned == {First(n)} && s.d == FirstStarted(n)
    ensures Reaches(INIT, longer, t)
    ensures t == s.(scanned := {}, d := FirstRetried(n), cancels := t.cancels)
  {
    RetriesFirst(n);
    FirstIsNamed(n);
    longer, t := AppliesScanned(run, s, Retrying([RETRY_FIRST]), FirstRetried(n));
  }

  /** Between two executions: nothing is going on in the loops. */
  predicate Resting(s: State) {
    && s.fetch == Idle && s.starting == [] && s.recorded == None && s.taken == |s.pool.log| && s.clock == 0
    && s.processing == {} && s.closing == {} && s.scanned == {}
  }

  lemma FirstRuns(n: nat) returns (run: seq<Step>, s: State)
    ensures Reaches(INIT, run, s) && Resting(s) && s.handled == 0
    ensures s.d == FirstStarted(n) && s.pool.results == [] && s.known == {10} && s.pool.live == {10}
    ensures s.pool.held == map[1 := Holding(10, First(n), Accepted)] && s.pool.accepted.Keys == {1}
  {
    run, s := AddsTheJob(n);
    assert ExecutionsOf(JobAdded(n), 0) == {1};
    run, s := RunsOne(run, s, First(n), 10);
  }

  /** The first execution is started, its executor disconnects, and the timeouts loop retries it. */
  lemma FirstPart(n: nat) returns (run: seq<Step>, s: State)
    requires n >= 2
    ensures Reaches(INIT, run, s) && Resting(s) && s.handled == 0
    ensures s.d == FirstRetried(n) && s.pool.results == [First(n)] && s.known == {10}
    ensures s.pool.held == map[] && s.pool.accepted.Keys == {1}
  {
    run, s := FirstRuns(n);
    run, s := Disconnects(run, s, First(n), 10);
    run, s := ScansFirst(n, run, s);
    run, s := RetriesScanned(n, run, s);
  }

  lemma Completes(run: seq<Step>, s: State, e: ExecutionId, h: Holding) returns (longer: seq<Step>, t: State)
    requires Reaches(INIT, run, s) && s.closing == {} && e in s.pool.held && s.pool.held[e] == h && h.state == Accepted
    ensures Reaches(INIT, longer, t)
    ensures t == s.(pool := s.pool.(held := s.pool.held - {e}, results := s.pool.results + [h.record]))
  {
    Extend(INIT, run, s, CompleteOne(e));
    longer, t := run + [CompleteOne(e)], Next(s, CompleteOne(e));
  }

  lemma TakesBoth(n: nat, run: seq<Step>, s: State) returns (longer: seq<Step>, t: State)
    requires Reaches(INIT, run, s) && s.pool.results == [First(n), Second(n)] && s.handled == 0 && s.processing == {}
    ensures Reaches(INIT, longer, t) && t == s.(processing := {First(n), Second(n)}, handled := 2)
  {
    Extend(INIT, run, s, TakeResults(2));
    longer, t := run + [TakeResults(2)], Next(s, TakeResults(2));
    assert [First(n), Second(n)][0..2] == [First(n), Second(n)];
    assert RecordsOf([First(n), Second(n)]) == {First(n), Second(n)} by {
      assert First(n) in [First(n), Second(n)] && Second(n) in [First(n), Second(n)];
    }
  }

  lemma RetriesTogether(n: nat, run: seq<Step>, s: State) returns (longer: seq<Step>, t: State)
    requires n >= 2 && Reaches(INIT, run, s) && s.processing == {First(n), Second(n)} && s.d == SecondStarted(n)
    ensures Reaches(INIT, longer, t) && t == s.(d := Broken(n), processing := {})
  {
    RetriesBoth(n);
    FirstIsNamed(n);
    longer, t := AppliesResults(run, s, Retrying([RETRY_FIRST, RETRY_SECOND]), Broken(n));
  }

  lemma SecondRuns(n: nat, before: seq<Step>, m: State) returns (run: seq<Step>, s: State)
    requires Reaches(INIT, before, m) && Resting(m) && m.handled == 0
    requires m.d == FirstRetried(n) && m.pool.results == [First(n)] && m.known == {10}
    requires m.pool.held == map[] && m.pool.accepted.Keys == {1}
    ensures Reaches(INIT, run, s) && Resting(s) && s.handled == 0
    ensures s.d == SecondStarted(n) && s.pool.results == [First(n)] && s.known == {10, 11}
    ensures s.pool.held == map[2 := Holding(11, Second(n), Accepted)] && s.pool.accepted.Keys == {1, 2}
  {
    assert ExecutionsOf(FirstRetried(n), 0) == {1, 2};
    run, s := RunsOne(before, m, Second(n), 11);
  }

  /** The retry runs on another executor, and the events loop handles both results together. */
  lemma SecondPart(n: nat, before: seq<Step>, m: State) returns (run: seq<Step>, s: State)
    requires n >= 2 && Reaches(INIT, before, m) && Resting(m) && m.handled == 0
    requires m.d == SecondStarted(n) && m.pool.results == [First(n)] && m.known == {10, 11}
    requires m.pool.held == map[2 := Holding(11, Second(n), Accepted)] && m.pool.accepted.Keys == {1, 2}
    ensures Reaches(INIT, run, s) && Resting(s) && s.handled == 2 && s.d == Broken(n)
    ensures s.pool.held == map[] && s.pool.accepted.Keys == {1, 2} && |s.pool.results| == 2 && s.known == {10, 11}
  {
    run, s := Completes(before, m, 2, Holding(11, Second(n), Accepted));
    assert m.pool.held - {2} == map[];
    run, s := TakesBoth(n, run, s);
    run, s := RetriesTogether(n, run, s);
  }

  /** A job that can be retried twice ends up with two active executions. */
  lemma TwoActive(n: nat) returns (run: seq<Step>, s: State)
    requires n >= 2
    ensures Reaches(INIT, run, s) && Resting(s) && s.handled == 2 && s.d == Broken(n)
    ensures s.pool.held == map[] && s.pool.accepted.Keys == {1, 2} && |s.pool.results| == 2 && s.known == {10, 11}
  {
    run, s := FirstPart(n);
    run, s := SecondRuns(n, run, s);
    run, s := SecondPart(n, run, s);
  }

  lemma BrokenTables(n: nat)
    ensures Tables.Attempts(Broken(n), 0) == 4 && Active(Broken(n), 3) && Active(Broken(n), 4)
    ensures !Valid(Broken(n))
  {
    assert ExecutionsOf(Broken(n), 0) == {1, 2, 3, 4};
    if Valid(Broken(n)) {
      OneActive(Broken(n), 3, 4);
    }
  }

  /**
    Without the condition that each batch of retries names a job once, a job with two retries
    can get four executions, two of which are active.
   */
  lemma AttemptBoundCanFail() returns (run: seq<Step>, s: State)
    ensures Reaches(INIT, run, s) && 0 in s.d.jobs
    ensures Tables.Attempts(s.d, 0) == 4 && s.d.jobs[0].definition.retry.retries == 2
    ensures Active(s.d, 3) && Active(s.d, 4) && s.d.executions[3].job == s.d.executions[4].job
    ensures !Valid(s.d)
  {
    run, s := TwoActive(2);
    BrokenTables(2);
  }

  // ---- What happens to the inactive job.

  const THIRD_STARTED := PENDING.(executor := Some(12), startedAt := Some(0))
  const OTHER_STARTED := PENDING.(executor := Some(13), startedAt := Some(0))
  const THIRD_SUCCEEDED := THIRD_STARTED.(succeededAt := Some(0))

  function BothStarted(n: nat): Db {
    Broken(n).(executions := Broken(n).executions[3 := THIRD_STARTED][4 := OTHER_STARTED])
  }

  /** One of the two active executions succeeds, which marks the job. */
  function OneSucceeded(n: nat): Db {
    BothStarted(n).(jobs := map[0 := TheJob(n).(inactiveSince := Some(0), inactiveStatus := Some(Succeeded))],
                    executions := BothStarted(n).executions[3 := THIRD_SUCCEEDED])
  }

  const SUCCEED_ONE := Finishing(map[3 := 0], Success, map[0 := 0])
  const RETRY_OTHER := Retrying([RetriedExecution(4, 0, 0, 0)])
  const FAIL_OTHER := Finishing(map[4 := 0], Failure, map[0 := 0])

  lemma ThirdRuns(n: nat, before: seq<Step>, m: State) returns (run: seq<Step>, s: State)
    requires Reaches(INIT, before, m) && Resting(m) && m.d == Broken(n)
    requires m.pool.held == map[] && m.pool.accepted.Keys == {1, 2} && m.known == {10, 11}
    ensures Reaches(INIT, run, s) && Resting(s) && s.handled == m.handled
    ensures s.d == Broken(n).(executions := Broken(n).executions[3 := THIRD_STARTED])
    ensures s.pool.results == m.pool.results && s.pool.accepted.Keys == {1, 2, 3} && s.known == {10, 11, 12}
    ensures s.pool.held == map[3 := Holding(12, Doubled(n, 3), Accepted)]
  {
    assert ExecutionsOf(m.d, 0) == {1, 2, 3, 4};
    run, s := RunsOne(before, m, Doubled(n, 3), 12);
  }

  lemma FourthRuns(n: nat, before: seq<Step>, m: State) returns (run: seq<Step>, s: State)
    requires Reaches(INIT, before, m) && Resting(m)
    requires m.d == Broken(n).(executions := Broken(n).executions[3 := THIRD_STARTED])
    requires m.pool.accepted.Keys == {1, 2, 3} && m.known == {10, 11, 12}
    requires m.pool.held == map[3 := Holding(12, Doubled(n, 3), Accepted)]
    ensures Reaches(INIT, run, s) && Resting(s) && s.handled == m.handled && s.d == BothStarted(n)
    ensures s.pool.results == m.pool.results
    ensures s.pool.held == map[3 := Holding(12, Doubled(n, 3), Accepted), 4 := Holding(13, Doubled(n, 4), Accepted)]
  {
    assert ExecutionsOf(m.d, 0) == {1, 2, 3, 4};
    run, s := RunsOne(before, m, Doubled(n, 4), 13);
  }

  lemma BothComplete(n: nat, before: seq<Step>, m: State) returns (run: seq<Step>, s: State)
    requires Reaches(INIT, before, m) && Resting(m)
    requires m.pool.held == map[3 := Holding(12, Doubled(n, 3), Accepted), 4 := Holding(13, Doubled(n, 4), Accepted)]
    ensures Reaches(INIT, run, s) && s == m.(pool := s.pool)
    ensures s.pool.results == m.pool.results + [Doubled(n, 3), Doubled(n, 4)]
  {
    run, s := Completes(before, m, 3, Holding(12, Doubled(n, 3), Accepted));
    run, s := Completes(run, s, 4, Holding(13, Doubled(n, 4), Accepted));
    assert m.pool.results + [Doubled(n, 3)] + [Doubled(n, 4)] == m.pool.results + [Doubled(n, 3), Doubled(n, 4)];
  }

  lemma TakesOne(run: seq<Step>, s: State, r: Record) returns (longer: seq<Step>, t: State)
    requires Reaches(INIT, run, s) && s.handled < |s.pool.results| && s.pool.results[s.handled] == r && s.processing == {}
    ensures Reaches(INIT, longer, t) && t == s.(processing := {r}, handled := s.handled + 1)
  {
    Extend(INIT, run, s, TakeResults(1));
    longer, t := run + [TakeResults(1)], Next(s, TakeResults(1));
    assert s.pool.results[s.handled..s.handled + 1] == [r];
    assert RecordsOf([r]) == {r};
  }

  lemma MarksSucceeded(n: nat)
    ensures CallFor(SUCCEED_ONE, {Doubled(n, 3)}) && Allowed(BothStarted(n), SUCCEED_ONE)
    ensures Apply(BothStarted(n), SUCCEED_ONE) == OneSucceeded(n)
  {
    assert IdsOf({Doubled(n, 3)}) == {3};
    OnlyJob(BothStarted(n), 3);
    var t := Apply(BothStarted(n), SUCCEED_ONE);
    assert t.executions == OneSucceeded(n).executions;
    assert t.jobs == OneSucceeded(n).jobs;
    assert t.schedules == map[];
  }

  lemma SucceedsOne(n: nat, run: seq<Step>, s: State) returns (longer: seq<Step>, t: State)
    requires Reaches(INIT, run, s) && s.d == BothStarted(n) && s.processing == {Doubled(n, 3)}
    ensures Reaches(INIT, longer, t) && t == s.(d := OneSucceeded(n), processing := {})
  {
    MarksSucceeded(n);
    longer, t := AppliesResults(run, s, SUCCEED_ONE, OneSucceeded(n));
  }

  lemma OtherIsNamed(n: nat)
    requires n >= 4
    ensures CallFor(RETRY_OTHER, {Doubled(n, 4)}) && CallFor(FAIL_OTHER, {Doubled(n, 4)})
  {
    var batch := RETRY_OTHER.retried;
    assert batch[0].execution == 4;
    assert Names(batch, Doubled(n, 4)) && Retries(Doubled(n, 4), batch[0]);
    assert IdsOf({Doubled(n, 4)}) == {4};
  }

  lemma RetryAdds(d: Db, t: Db, batch: seq<RetriedExecution>, rows: map<ExecutionId, Time>)
    requires d.nextId == 5 && 0 in d.jobs && batch == [RetriedExecution(4, 0, 0, 0)]
    requires RetriedTo(d, t, rows, {0}, batch)
    ensures 5 !in d.executions && 5 in t.executions && t.jobs == d.jobs
    ensures t.executions[5] == PendingRow(0, 0, d.jobs[0].definition.priority)
  {
    assert AddedBy(5, batch, {0}, 5);
  }

  lemma RetryIsAdded(d: Db)
    requires WellFormed(d) && d.nextId == 5 && Active(d, 4) && d.executions[4].job == 0
    ensures var t := Apply(d, RETRY_OTHER);
            && 5 !in d.executions && 5 in t.executions && t.jobs == d.jobs
            && t.executions[5] == PendingRow(0, 0, d.jobs[0].definition.priority)
  {
    var batch := RETRY_OTHER.retried;
    FailsOne(batch[0], 4);
    OnlyJob(d, 4);
    RetriedRowsOf(d, batch, map[4 := 0]);
    RetryAdds(d, RetryWith(d, map[4 := 0], batch), batch, map[4 := 0]);
  }

  /** The other active execution is handled next: what the tables are after that. */
  lemma OtherIsHandled(n: nat)
    ensures Allowed(OneSucceeded(n), FAIL_OTHER)
    ensures Apply(OneSucceeded(n), FAIL_OTHER).jobs[0].inactiveStatus == Some(Failed)
    ensures var d, t := OneSucceeded(n), Apply(OneSucceeded(n), RETRY_OTHER);
            5 !in d.executions && 5 in t.executions && t.jobs == d.jobs && t.executions[5] == PENDING
  {
    OnlyJob(OneSucceeded(n), 4);
    RetryIsAdded(OneSucceeded(n));
  }

  lemma BothResults(n: nat) returns (run: seq<Step>, s: State)
    requires n >= 2
    ensures Reaches(INIT, run, s) && s.d == OneSucceeded(n) && s.processing == {Doubled(n, 4)}
  {
    run, s := TwoActive(n);
    run, s := ThirdRuns(n, run, s);
    run, s := FourthRuns(n, run, s);
    run, s := BothComplete(n, run, s);
    run, s := TakesOne(run, s, Doubled(n, 3));
    run, s := SucceedsOne(n, run, s);
    run, s := TakesOne(run, s, Doubled(n, 4));
  }

  /**
    Without that condition an inactive job is not final: its one execution succeeded, which the job stores, but
    the other is active. If it fails it is retried, although the job is inactive, or the job stores that it failed.
   */
  lemma InactiveJobCanChange(n: nat) returns (run: seq<Step>, s: State)
    requires n >= 4
    ensures Reaches(INIT, run, s) && 0 in s.d.jobs && s.d.jobs[0].inactiveStatus == Some(Succeeded)
    ensures var retry := ApplyResults(RETRY_OTHER, s.processing, true);
            && CanStep(s, retry)
            && var t := Next(s, retry).d;
               5 !in s.d.executions && 5 in t.executions && t.executions[5].job == 0 && Active(t, 5)
               && t.jobs[0].inactiveStatus == Some(Succeeded)
    ensures var fail := ApplyResults(FAIL_OTHER, s.processing, true);
            CanStep(s, fail) && Next(s, fail).d.jobs[0].inactiveStatus == Some(Failed)
  {
    run, s := BothResults(n);
    OtherIsNamed(n);
    OtherIsHandled(n);
  }
}
