/** No execution that is in progress is lost, and each accepted execution has at most one result. */
module Progress {
  import opened Common
  import opened Tables
  import opened TableInvariants
  import opened TableRuns
  import opened Backend
  import opened PoolModel
  import opened Dispatch
  import opened Acceptance

  /** The executor has accepted the execution at some time. */
  ghost predicate AcceptedBy(log: seq<StartedExecution>, e: ExecutionId, x: ExecutorId) {
    exists l :: l in log && l.execution == e && l.executor == x
  }

  /** Executions with a result that the events loop has yet to handle. */
  function Queued(s: State): set<ExecutionId>
    requires s.handled <= |s.pool.results|
  {
    IdsOf(RecordsOf(s.pool.results[s.handled..])) + IdsOf(s.processing)
  }

  /** Where an accepted execution is: finished, with its executor, with a result, or its executor is gone. */
  ghost predicate Accounted(s: State, e: ExecutionId, x: ExecutorId)
    requires s.handled <= |s.pool.results|
  {
    || !Active(s.d, e)
    || (e in s.pool.held && s.pool.held[e].executor == x && s.pool.held[e].state.Accepted?)
    || e in Queued(s)
    || x !in s.pool.live
    || x in s.closing
  }

  ghost predicate TracedAt(s: State, e: ExecutionId, x: ExecutorId)
    requires s.handled <= |s.pool.results|
  {
    && (AcceptedBy(s.pool.log, e, x) ==> x in s.known && Accounted(s, e, x))
    // Only executions that were accepted are started, by the executor that accepted them.
    && (e in s.d.executions && s.d.executions[e].Status().InProgress? && s.d.executions[e].executor == Some(x) ==>
          AcceptedBy(s.pool.log, e, x))
    && (e in s.pool.held && s.pool.held[e].executor == x ==>
          x in s.pool.live && (s.pool.held[e].state.Accepted? ==> AcceptedBy(s.pool.log, e, x)))
  }

  ghost predicate ReleasableAt(s: State, e: ExecutionId) {
    && (e in s.pool.held ==> s.pool.held[e].record.execution == e)
    && (e in s.d.executions && s.d.executions[e].Status().InProgress? ==> s.d.executions[e].executor.Some?)
    // Only executions that are not active anymore are cancelled in the pool.
    && (e in s.cancels ==> e < s.d.nextId && !Active(s.d, e))
    && (s.recorded.Some? && e in LoggedIds(s.starting) && e !in s.recorded.value ==> !Active(s.d, e))
    && (e in IdsOf(s.scanned) || e in IdsOf(s.processing) ==> e < s.d.nextId)
    && (e in IdsOf(RecordsOf(s.pool.results)) ==> e in LoggedIds(s.pool.log) && e !in s.pool.held)
  }

  ghost predicate ResultsOnce(results: seq<Record>) {
    forall i, k :: 0 <= i < k < |results| ==> results[i].execution != results[k].execution
  }

  ghost predicate Traced(s: State) {
    && Once(s) && ResultsOnce(s.pool.results)
    && s.handled <= |s.pool.results|
    && s.pool.live <= s.known
    && (forall l :: l in s.starting ==> l in s.pool.log)
    && (forall e: ExecutionId, x: ExecutorId {:trigger TracedAt(s, e, x)} :: TracedAt(s, e, x))
    && (forall e: ExecutionId {:trigger ReleasableAt(s, e)} :: ReleasableAt(s, e))
  }

  // ---- Transactions.

  /** Transactions other than starting executions: rows that are in progress afterwards were not touched. */
  ghost predicate StartsNothing(d: Db, t: Db) {
    && ExecutionsEvolve(d, t)
    && forall e: ExecutionId :: e in t.executions && t.executions[e].Status().InProgress? ==>
         e in d.executions && t.executions[e] == d.executions[e]
  }

  lemma FinishStartsNothing(d: Db, rows: map<ExecutionId, Time>, finish: Finish, times: map<JobId, Time>)
    ensures StartsNothing(d, FinishAndMark(d, rows, finish, times))
  {
    FinishedExecutionsEvolve(d, rows, finish, times);
    var t := FinishAndMark(d, rows, finish, times);
    forall e: ExecutionId | e in t.executions && t.executions[e].Status().InProgress?
      ensures t.executions[e] == d.executions[e]
    {
      if e in rows && Active(d, e) {
        FinishedRow(d.executions[e], finish, rows[e]);
      }
    }
  }

  lemma RetryStartsNothing(d: Db, t: Db, rows: map<ExecutionId, Time>, jobs: set<JobId>, batch: seq<RetriedExecution>)
    requires RetriedTo(d, t, rows, jobs, batch)
    ensures StartsNothing(d, t)
  {
    RetriedExecutionsEvolve(d, t, rows, jobs, batch);
    forall e: ExecutionId | e in t.executions && t.executions[e].Status().InProgress?
      ensures e in d.executions && t.executions[e] == d.executions[e]
    {
      if e in rows && Active(d, e) {
        FinishedRow(d.executions[e], Failure, rows[e]);
      }
    }
  }

  lemma AddingStartsNothing(d: Db, t: Db, batch: seq<NewJob>, claims: map<ScheduleId, nat>, now: Time)
    requires AddedTo(d, t, batch, claims, now)
    ensures StartsNothing(d, t)
  {
    AddedExecutionsEvolve(d, t, batch, claims, now);
  }

  lemma KeepingRowsStartsNothing(d: Db, t: Db)
    requires d.nextId <= t.nextId
    requires forall e: ExecutionId :: e in t.executions ==> e in d.executions && t.executions[e] == d.executions[e]
    ensures StartsNothing(d, t)
  {
    forall e: ExecutionId ensures ExecutionEvolves(d, t, e) {
    }
  }

  lemma TransactionStartsNothing(d: Db, tx: Transaction)
    requires WellFormed(d) && Allowed(d, tx) && !tx.Starting?
    ensures StartsNothing(d, Apply(d, tx))
  {
    if tx.AddingJobs? {
      AddedJobRows(d, tx.newJobs, tx.claims, tx.now);
      AddingStartsNothing(d, Apply(d, tx), tx.newJobs, tx.claims, tx.now);
    } else if tx.Finishing? {
      FinishStartsNothing(d, tx.finished, tx.finish, tx.times);
    } else if tx.Retrying? {
      RetriedRows(d, tx.retried);
      RetryStartsNothing(d, ExecutionsRetried(d, tx.retried), FailureRows(tx.retried),
                         FinishedJobs(d, FailureRows(tx.retried)), tx.retried);
    } else if tx.Cancelling? {
      var rows := CancelledRows(d, tx.jobs, tx.at);
      FinishStartsNothing(d, rows, Cancellation, map j | j in FinishedJobs(d, rows) :: tx.now);
    } else {
      KeepingRowsStartsNothing(d, Apply(d, tx));
    }
  }

  /** Once an execution is not active, it never is again. */
  lemma StaysInactive(d: Db, t: Db, e: ExecutionId)
    requires ExecutionsEvolve(d, t) && e < d.nextId && !Active(d, e)
    ensures !Active(t, e)
  {
    assert ExecutionEvolves(d, t, e);
  }

  /** Transactions keep everything traced. */
  lemma StartsNothingKeepsTraced(s: State, t: Db)
    requires Traced(s) && WellFormed(t) && StartsNothing(s.d, t)
    ensures Traced(s.(d := t))
  {
    var u := s.(d := t);
    EvolvingKeepsOnce(s, t);
    forall e: ExecutionId, x: ExecutorId ensures TracedAt(u, e, x) {
      assert TracedAt(s, e, x) && OnceAt(s, e);
      if AcceptedBy(s.pool.log, e, x) && !Active(s.d, e) {
        assert e in LoggedIds(s.pool.log);
        StaysInactive(s.d, t, e);
      }
    }
    forall e: ExecutionId ensures ReleasableAt(u, e) {
      assert ReleasableAt(s, e) && OnceAt(s, e);
      if e < s.d.nextId && !Active(s.d, e) {
        StaysInactive(s.d, t, e);
      }
    }
  }

  lemma RetryFinishes(d: Db, t: Db, rows: map<ExecutionId, Time>, jobs: set<JobId>, batch: seq<RetriedExecution>,
                      e: ExecutionId)
    requires RetriedTo(d, t, rows, jobs, batch) && e in rows && e < d.nextId
    ensures !Active(t, e)
  {
    if Active(d, e) {
      FinishedRow(d.executions[e], Failure, rows[e]);
    }
  }

  lemma RetriedRecord(batch: seq<RetriedExecution>, records: set<Record>, e: ExecutionId)
    requires CallFor(Retrying(batch), records) && e in IdsOf(records)
    ensures e in FailureRows(batch)
  {
    var r :| r in records && r.execution == e;
    assert Names(batch, r);
    var i :| 0 <= i < |batch| && batch[i].execution == r.execution;
    FirstTimesNamed(Failures(batch));
    assert Failures(batch)[i].execution == e;
  }

  lemma FinishFinishes(d: Db, rows: map<ExecutionId, Time>, finish: Finish, times: map<JobId, Time>, e: ExecutionId)
    requires e in rows
    ensures !Active(FinishAndMark(d, rows, finish, times), e)
  {
    if Active(d, e) {
      FinishedRow(d.executions[e], finish, rows[e]);
    }
  }

  /** The calls of the loops finish all executions they are made for. */
  lemma CallFinishes(d: Db, tx: Transaction, records: set<Record>, e: ExecutionId)
    requires WellFormed(d) && CallFor(tx, records) && e in IdsOf(records) && e < d.nextId
    ensures !Active(Apply(d, tx), e)
  {
    if tx.Finishing? {
      FinishFinishes(d, tx.finished, tx.finish, tx.times, e);
    } else {
      RetriedRecord(tx.retried, records, e);
      RetriedRows(d, tx.retried);
      RetryFinishes(d, ExecutionsRetried(d, tx.retried), FailureRows(tx.retried),
                    FinishedJobs(d, FailureRows(tx.retried)), tx.retried, e);
    }
  }

  // ---- The steps.

  /** A call that returned is not repeated: its records are left to nobody, as their executions are finished. */
  lemma ApplyResultsKeepsTraced(s: State, tx: Transaction, records: set<Record>, returned: bool)
    requires Traced(s) && CanStep(s, ApplyResults(tx, records, returned))
    ensures Traced(Next(s, ApplyResults(tx, records, returned)))
  {
    var m := s.(d := Apply(s.d, tx));
    var t := Next(s, ApplyResults(tx, records, returned));
    TransactionStartsNothing(s.d, tx);
    ApplyWellFormed(s.d, tx);
    StartsNothingKeepsTraced(s, m.d);
    FramedKeepsOnce(m, t);
    forall e: ExecutionId, x: ExecutorId ensures TracedAt(t, e, x) {
      assert TracedAt(m, e, x);
      if e in IdsOf(records) {
        assert ReleasableAt(s, e) && e in IdsOf(s.processing);
        CallFinishes(s.d, tx, records, e);
      } else if e in IdsOf(s.processing) {
        var r :| r in s.processing && r.execution == e;
        assert r in t.processing;
      }
    }
    forall e: ExecutionId ensures ReleasableAt(t, e) {
      assert ReleasableAt(m, e);
    }
  }

  lemma ApplyScannedKeepsTraced(s: State, tx: Transaction, records: set<Record>, returned: bool)
    requires Traced(s) && CanStep(s, ApplyScanned(tx, records, returned))
    ensures Traced(Next(s, ApplyScanned(tx, records, returned)))
  {
    var m := s.(d := Apply(s.d, tx));
    var t := Next(s, ApplyScanned(tx, records, returned));
    TransactionStartsNothing(s.d, tx);
    ApplyWellFormed(s.d, tx);
    StartsNothingKeepsTraced(s, m.d);
    FramedKeepsOnce(m, t);
    forall e: ExecutionId, x: ExecutorId ensures TracedAt(t, e, x) {
      assert TracedAt(m, e, x);
    }
    forall e: ExecutionId ensures ReleasableAt(t, e) {
      assert ReleasableAt(m, e);
      if e in IdsOf(records) {
        assert ReleasableAt(s, e) && e in IdsOf(s.scanned);
        CallFinishes(s.d, tx, records, e);
      }
    }
  }

  lemma OtherTransactionKeepsTraced(s: State, tx: Transaction)
    requires Traced(s) && CanStep(s, Step.OtherTransaction(tx))
    ensures Traced(Next(s, Step.OtherTransaction(tx)))
  {
    var m := s.(d := Apply(s.d, tx));
    var t := Next(s, Step.OtherTransaction(tx));
    TransactionStartsNothing(s.d, tx);
    ApplyWellFormed(s.d, tx);
    StartsNothingKeepsTraced(s, m.d);
    FramedKeepsOnce(m, t);
    forall e: ExecutionId, x: ExecutorId ensures TracedAt(t, e, x) {
      assert TracedAt(m, e, x);
    }
    forall e: ExecutionId ensures ReleasableAt(t, e) {
      assert ReleasableAt(m, e);
      if tx.Cancelling? && e in CancelledRows(s.d, tx.jobs, tx.at) {
        FinishedRow(s.d.executions[e], Cancellation, tx.at);
      }
    }
  }

  /** Executions accepted by one executor were not accepted by another. */
  lemma AcceptedByOne(log: seq<StartedExecution>, l: StartedExecution, x: ExecutorId)
    requires LoggedOnce(log) && l in log && AcceptedBy(log, l.execution, x)
    ensures l.executor == x
  {
    var m :| m in log && m.execution == l.execution && m.executor == x;
    var i :| 0 <= i < |log| && log[i] == l;
    var k :| 0 <= k < |log| && log[k] == m;
  }

  /** What a call starts was accepted by the executor it is started for. */
  lemma StartedWasAccepted(s: State, e: ExecutionId)
    requires Traced(s)
    requires var t := ExecutionsStarted(s.d, StartRows(s.d, s.starting));
             e in t.executions && t.executions[e].Status().InProgress?
    ensures var t := ExecutionsStarted(s.d, StartRows(s.d, s.starting));
            t.executions[e].executor.Some? && AcceptedBy(s.pool.log, e, t.executions[e].executor.value)
  {
    var rows := StartRows(s.d, s.starting);
    if CanStart(s.d, rows, e) {
      RowIsFromBatch(s.d, s.starting, e);
    } else {
      assert ReleasableAt(s, e) && TracedAt(s, e, s.d.executions[e].executor.value);
    }
  }

  /** Executions that a call could not start are not active: nobody else can have started them. */
  lemma NotStartedIsInactive(s: State, e: ExecutionId)
    requires Traced(s) && e in LoggedIds(s.starting) && e !in StartedIds(s.d, StartRows(s.d, s.starting))
    ensures !Active(ExecutionsStarted(s.d, StartRows(s.d, s.starting)), e)
  {
    var l :| l in s.starting && l.execution == e;
    StartRowsStart(s.d, s.starting, e);
    assert !Starts(s.d, l);
    if Active(s.d, e) {
      assert ReleasableAt(s, e);
      var x := s.d.executions[e].executor.value;
      assert TracedAt(s, e, x);
      AcceptedByOne(s.pool.log, l, x);
    }
  }

  lemma RecordStartsKeepsTraced(s: State, returned: bool)
    requires Traced(s) && CanStep(s, RecordStarts(returned))
    ensures Traced(Next(s, RecordStarts(returned)))
  {
    var rows := StartRows(s.d, s.starting);
    var t := Next(s, RecordStarts(returned));
    RecordStartsKeepsOnce(s, returned);
    ApplyExecutionsEvolve(s.d, Starting(rows));
    forall e: ExecutionId, x: ExecutorId ensures TracedAt(t, e, x) {
      assert TracedAt(s, e, x) && OnceAt(s, e);
      if e in t.d.executions && t.d.executions[e].Status().InProgress? {
        StartedWasAccepted(s, e);
      }
      if AcceptedBy(s.pool.log, e, x) && !Active(s.d, e) {
        assert e in LoggedIds(s.pool.log);
        StaysInactive(s.d, t.d, e);
      }
    }
    forall e: ExecutionId ensures ReleasableAt(t, e) {
      assert ReleasableAt(s, e);
      if e in t.d.executions && t.d.executions[e].Status().InProgress? {
        StartedWasAccepted(s, e);
      }
      if e < s.d.nextId && !Active(s.d, e) {
        StaysInactive(s.d, t.d, e);
      }
      if e in LoggedIds(s.starting) && e !in StartedIds(s.d, rows) {
        NotStartedIsInactive(s, e);
      }
    }
  }

  // ---- Steps of the pool.

  lemma AcceptedByNext(log: seq<StartedExecution>, next: StartedExecution, e: ExecutionId, x: ExecutorId)
    ensures AcceptedBy(log + [next], e, x) <==> AcceptedBy(log, e, x) || (e == next.execution && x == next.executor)
  {
    if AcceptedBy(log, e, x) {
      var l :| l in log && l.execution == e && l.executor == x;
      assert l in log + [next];
    }
    assert next in log + [next];
  }

  lemma OfferKeepsTraced(s: State, r: Record, x: ExecutorId, handshake: bool, deadline: Time, offeredAt: Time)
    requires Traced(s) && CanStep(s, OfferOne(r, x, handshake, deadline, offeredAt))
    ensures Traced(Next(s, OfferOne(r, x, handshake, deadline, offeredAt)))
  {
    var t := Next(s, OfferOne(r, x, handshake, deadline, offeredAt));
    OfferKeepsOnce(s, r, x, handshake, deadline, offeredAt);
    assert OnceAt(s, r.execution) && r.execution in IdsOf(s.fetch.batch);
    var next := StartedExecution(r.execution, x, offeredAt);
    LoggedIdsNext(s.pool.log, next);
    forall e: ExecutionId, y: ExecutorId ensures TracedAt(t, e, y) {
      assert TracedAt(s, e, y);
      AcceptedByNext(s.pool.log, next, e, y);
      LoggedIfAccepted(s.pool.log, e, y);
    }
    forall e: ExecutionId ensures ReleasableAt(t, e) {
      assert ReleasableAt(s, e);
    }
  }

  lemma LoggedIfAccepted(log: seq<StartedExecution>, e: ExecutionId, x: ExecutorId)
    ensures AcceptedBy(log, e, x) ==> e in LoggedIds(log)
  {
  }

  lemma AcceptKeepsTraced(s: State, a: ExecutionId)
    requires Traced(s) && CanStep(s, AcceptOne(a))
    ensures Traced(Next(s, AcceptOne(a)))
  {
    var t := Next(s, AcceptOne(a));
    AcceptKeepsOnce(s, a);
    var next := StartedExecution(a, s.pool.held[a].executor, s.pool.held[a].state.offeredAt);
    assert OnceAt(s, a);
    LoggedIdsNext(s.pool.log, next);
    forall e: ExecutionId, y: ExecutorId ensures TracedAt(t, e, y) {
      assert TracedAt(s, e, y);
      AcceptedByNext(s.pool.log, next, e, y);
      LoggedIfAccepted(s.pool.log, e, y);
    }
    forall e: ExecutionId ensures ReleasableAt(t, e) {
      assert ReleasableAt(s, e);
    }
  }

  lemma RecordsOfNext(results: seq<Record>, n: nat, more: seq<Record>)
    requires n <= |results|
    ensures RecordsOf((results + more)[n..]) == RecordsOf(results[n..]) + RecordsOf(more)
    ensures RecordsOf(results + more) == RecordsOf(results) + RecordsOf(more)
  {
    assert (results + more)[n..] == results[n..] + more;
  }

  lemma ResultsOnceNext(results: seq<Record>, more: seq<Record>)
    requires ResultsOnce(results) && ResultsOnce(more)
    requires forall r :: r in more ==> r.execution !in IdsOf(RecordsOf(results))
    ensures ResultsOnce(results + more)
  {
    var all := results + more;
    forall i, k | 0 <= i < k < |all| ensures all[i].execution != all[k].execution {
      if i < |results| <= k {
        assert all[i] in RecordsOf(results) && all[k] in more;
      }
    }
  }

  /** Executions leave the pool without a result only if nobody waits for it. */
  lemma ReleaseKeepsTraced(s: State, t: State)
    requires Traced(s) && OnlyReleases(s, t)
    requires t.pool.results == s.pool.results && t.handled == s.handled && t.processing == s.processing
    requires t.scanned == s.scanned && t.cancels == s.cancels
    requires t.pool.live == s.pool.live && t.known == s.known && s.closing <= t.closing
    requires forall e :: e in s.pool.held && e !in t.pool.held && s.pool.held[e].state.Accepted? ==>
               s.pool.held[e].executor in t.closing || !Active(s.d, e)
    ensures Traced(t)
  {
    ReleaseKeepsOnce(s, t);
    forall e: ExecutionId, x: ExecutorId ensures TracedAt(t, e, x) {
      assert TracedAt(s, e, x);
    }
    forall e: ExecutionId ensures ReleasableAt(t, e) {
      assert ReleasableAt(s, e);
    }
  }

  lemma CancelKeepsTraced(s: State, ids: set<ExecutionId>)
    requires Traced(s) && CanStep(s, CancelInPool(ids))
    ensures Traced(Next(s, CancelInPool(ids)))
  {
    var t := Next(s, CancelInPool(ids));
    forall e | e in s.pool.held && e !in t.pool.held ensures !Active(s.d, e) {
      assert ReleasableAt(s, e);
    }
    ReleaseKeepsTraced(s, t);
  }

  /** Accepted executions leave the pool with a result, or with their executor. */
  ghost predicate Sends(s: State, t: State, more: seq<Record>, gone: set<ExecutorId>) {
    && OnlyReleases(s, t)
    && t.pool.results == s.pool.results + more && t.handled == s.handled && t.processing == s.processing
    && t.scanned == s.scanned && t.cancels == s.cancels && t.known == s.known
    && t.pool.live == s.pool.live - gone && t.closing == s.closing - gone
    && ResultsOnce(more)
    && (forall e :: e in t.pool.held ==> t.pool.held[e].executor !in gone)
    && (forall r :: r in more ==>
          r.execution in s.pool.held && s.pool.held[r.execution].state.Accepted? && r.execution !in t.pool.held)
    && (forall e :: e in s.pool.held && e !in t.pool.held && s.pool.held[e].state.Accepted? ==>
          e in IdsOf(RecordsOf(more)))
  }

  lemma QueuedNext(s: State, t: State, more: seq<Record>)
    requires s.handled <= |s.pool.results| && t.handled == s.handled && t.processing == s.processing
    requires t.pool.results == s.pool.results + more
    ensures Queued(t) == Queued(s) + IdsOf(RecordsOf(more))
    ensures IdsOf(RecordsOf(t.pool.results)) == IdsOf(RecordsOf(s.pool.results)) + IdsOf(RecordsOf(more))
  {
    RecordsOfNext(s.pool.results, s.handled, more);
  }

  lemma SendKeepsTraced(s: State, t: State, more: seq<Record>, gone: set<ExecutorId>)
    requires Traced(s) && Sends(s, t, more, gone)
    ensures Traced(t)
  {
    ReleaseKeepsOnce(s, t);
    QueuedNext(s, t, more);
    forall r | r in more ensures r.execution !in IdsOf(RecordsOf(s.pool.results)) {
      assert ReleasableAt(s, r.execution);
    }
    ResultsOnceNext(s.pool.results, more);
    forall e: ExecutionId, x: ExecutorId ensures TracedAt(t, e, x) {
      assert TracedAt(s, e, x);
    }
    forall e: ExecutionId ensures ReleasableAt(t, e) {
      assert ReleasableAt(s, e);
      if e in IdsOf(RecordsOf(more)) {
        assert TracedAt(s, e, s.pool.held[e].executor);
        LoggedIfAccepted(s.pool.log, e, s.pool.held[e].executor);
      }
    }
  }

  lemma CompleteKeepsTraced(s: State, c: ExecutionId)
    requires Traced(s) && CanStep(s, CompleteOne(c))
    ensures Traced(Next(s, CompleteOne(c)))
  {
    var t := Next(s, CompleteOne(c));
    assert ReleasableAt(s, c);
    var r := s.pool.held[c].record;
    if s.pool.held[c].state.Accepted? {
      assert r in [r] && r in RecordsOf([r]);
      SendKeepsTraced(s, t, [r], {});
    } else {
      assert s.pool.results + [] == s.pool.results;
      SendKeepsTraced(s, t, [], {});
    }
  }

  lemma DropKeepsTraced(s: State, x: ExecutorId, dropped: seq<Record>)
    requires Traced(s) && CanStep(s, DropOne(x, dropped))
    ensures Traced(Next(s, DropOne(x, dropped)))
  {
    var t := Next(s, DropOne(x, dropped));
    forall e | e in s.pool.held && e !in t.pool.held && s.pool.held[e].state.Accepted?
      ensures e in IdsOf(RecordsOf(dropped))
    {
      assert ReleasableAt(s, e);
      assert e in HeldBy(s.pool, x);
    }
    SendKeepsTraced(s, t, dropped, {x});
  }

  lemma TakenResults(results: seq<Record>, n: nat, count: nat)
    requires n + count <= |results|
    ensures IdsOf(RecordsOf(results[n..]))
         == IdsOf(RecordsOf(results[n..n + count])) + IdsOf(RecordsOf(results[n + count..]))
    ensures RecordsOf(results[n..n + count]) <= RecordsOf(results)
  {
    assert results[n..] == results[n..n + count] + results[n + count..];
    assert RecordsOf(results[n..]) == RecordsOf(results[n..n + count]) + RecordsOf(results[n + count..]);
  }

  lemma TakeResultsKeepsTraced(s: State, count: nat)
    requires Traced(s) && CanStep(s, TakeResults(count))
    ensures Traced(Next(s, TakeResults(count)))
  {
    var t := Next(s, TakeResults(count));
    ReleaseKeepsOnce(s, t);
    TakenResults(s.pool.results, s.handled, count);
    assert Queued(t) == Queued(s);
    forall e: ExecutionId, x: ExecutorId ensures TracedAt(t, e, x) {
      assert TracedAt(s, e, x);
    }
    forall e: ExecutionId ensures ReleasableAt(t, e) {
      assert ReleasableAt(s, e) && OnceAt(s, e);
      if e in IdsOf(t.processing) {
        assert e in IdsOf(RecordsOf(s.pool.results));
      }
    }
  }

  lemma ScanKeepsTraced(s: State, records: set<Record>)
    requires Traced(s) && CanStep(s, Scan(records))
    ensures Traced(Next(s, Scan(records)))
  {
    var t := Next(s, Scan(records));
    ReleaseKeepsOnce(s, t);
    forall e: ExecutionId, x: ExecutorId ensures TracedAt(t, e, x) {
      assert TracedAt(s, e, x);
    }
    forall e: ExecutionId ensures ReleasableAt(t, e) {
      assert ReleasableAt(s, e);
    }
  }

  lemma ConnectKeepsTraced(s: State, y: ExecutorId)
    requires Traced(s) && CanStep(s, Connect(y))
    ensures Traced(Next(s, Connect(y)))
  {
    var t := Next(s, Connect(y));
    ReleaseKeepsOnce(s, t);
    forall e: ExecutionId, x: ExecutorId ensures TracedAt(t, e, x) {
      assert TracedAt(s, e, x);
    }
    forall e: ExecutionId ensures ReleasableAt(t, e) {
      assert ReleasableAt(s, e);
    }
  }

  lemma TakeStartsKeepsTraced(s: State, count: nat)
    requires Traced(s) && CanStep(s, TakeStarts(count))
    ensures Traced(Next(s, TakeStarts(count)))
  {
    var t := Next(s, TakeStarts(count));
    TakeStartsKeepsOnce(s, count);
    forall e: ExecutionId, x: ExecutorId ensures TracedAt(t, e, x) {
      assert TracedAt(s, e, x);
    }
    forall e: ExecutionId ensures ReleasableAt(t, e) {
      assert ReleasableAt(s, e);
    }
  }

  lemma FinishStartsKeepsTraced(s: State)
    requires Traced(s) && CanStep(s, FinishStarts)
    ensures Traced(Next(s, FinishStarts))
  {
    var t := Next(s, FinishStarts);
    FinishStartsKeepsOnce(s);
    forall e: ExecutionId, x: ExecutorId ensures TracedAt(t, e, x) {
      assert TracedAt(s, e, x);
    }
    forall e: ExecutionId ensures ReleasableAt(t, e) {
      assert ReleasableAt(s, e) && OnceAt(s, e);
    }
  }

  /** Steps that change nothing the accounts depend on. */
  lemma QuietKeepsTraced(s: State, step: Step)
    requires Traced(s) && CanStep(s, step)
    requires step.Tick? || step.TakeTime? || step.EndOffer? || step.FetchBatch? || step.PurgeAccepted?
    ensures Traced(Next(s, step))
  {
    var t := Next(s, step);
    StepKeepsOnce(s, step);
    forall e: ExecutionId, x: ExecutorId ensures TracedAt(t, e, x) {
      assert TracedAt(s, e, x);
    }
    forall e: ExecutionId ensures ReleasableAt(t, e) {
      assert ReleasableAt(s, e);
    }
  }

  lemma ExecutorStepKeepsTraced(s: State, step: Step)
    requires Traced(s) && CanStep(s, step) && IsRelease(step)
    ensures Traced(Next(s, step))
  {
    match step
    case Connect(x) => ConnectKeepsTraced(s, x);
    case CompleteOne(e) => CompleteKeepsTraced(s, e);
    case DropOne(x, dropped) => DropKeepsTraced(s, x, dropped);
    case TakeResults(count) => TakeResultsKeepsTraced(s, count);
    case Scan(records) => ScanKeepsTraced(s, records);
    case CancelInPool(ids) => CancelKeepsTraced(s, ids);
    case Withdraw(_) => ReleaseKeepsTraced(s, Next(s, step));
    case BadTimestamp(_) => ReleaseKeepsTraced(s, Next(s, step));
  }

  lemma StepKeepsTraced(s: State, step: Step)
    requires Traced(s) && CanStep(s, step)
    ensures Traced(Next(s, step))
  {
    if IsRelease(step) {
      ExecutorStepKeepsTraced(s, step);
    } else if step.Tick? || step.TakeTime? || step.EndOffer? || step.FetchBatch? || step.PurgeAccepted? {
      QuietKeepsTraced(s, step);
    } else {
      match step
      case OfferOne(r, x, handshake, deadline, offeredAt) => OfferKeepsTraced(s, r, x, handshake, deadline, offeredAt);
      case AcceptOne(e) => AcceptKeepsTraced(s, e);
      case TakeStarts(count) => TakeStartsKeepsTraced(s, count);
      case RecordStarts(returned) => RecordStartsKeepsTraced(s, returned);
      case FinishStarts => FinishStartsKeepsTraced(s);
      case ApplyResults(tx, records, returned) => ApplyResultsKeepsTraced(s, tx, records, returned);
      case ApplyScanned(tx, records, returned) => ApplyScannedKeepsTraced(s, tx, records, returned);
      case OtherTransaction(tx) => OtherTransactionKeepsTraced(s, tx);
    }
  }

  lemma {:induction false} RunKeepsTraced(s: State, run: seq<Step>, t: State)
    requires Traced(s) && Reaches(s, run, t)
    ensures Traced(t)
    decreases |run|
  {
    if run != [] {
      StepKeepsTraced(s, run[0]);
      RunKeepsTraced(Next(s, run[0]), run[1..], t);
    }
  }

  lemma InitTraced()
    ensures Traced(INIT)
  {
  }

  /**
    No execution in progress is lost: in every reachable state, it is held by the executor it was started
    for, or its result is yet to be handled, or that executor is not in the pool anymore, or is about to
    be dropped from it.
   */
  lemma InProgressIsNotLost(run: seq<Step>, t: State, e: ExecutionId)
    requires Reaches(INIT, run, t)
    requires e in t.d.executions && t.d.executions[e].Status().InProgress?
    ensures t.d.executions[e].executor.Some? && t.handled <= |t.pool.results|
    ensures var x := t.d.executions[e].executor.value;
            || (x in t.pool.live && e in t.pool.held && t.pool.held[e].executor == x && t.pool.held[e].state.Accepted?)
            || e in Queued(t)
            || x !in t.pool.live
            || x in t.closing
  {
    InitTraced();
    RunKeepsTraced(INIT, run, t);
    assert ReleasableAt(t, e) && TracedAt(t, e, t.d.executions[e].executor.value);
  }

  /** Each execution has at most one result, and none while an executor still holds it. */
  lemma AtMostOneResult(run: seq<Step>, t: State, i: nat, k: nat)
    requires Reaches(INIT, run, t) && i < |t.pool.results| && k < |t.pool.results|
    ensures t.pool.results[i].execution == t.pool.results[k].execution ==> i == k
    ensures t.pool.results[i].execution !in t.pool.held
    ensures t.pool.results[i].execution in LoggedIds(t.pool.log)
  {
    InitTraced();
    RunKeepsTraced(INIT, run, t);
    var e := t.pool.results[i].execution;
    assert ReleasableAt(t, e);
    assert t.pool.results[i] in RecordsOf(t.pool.results) && e in IdsOf(RecordsOf(t.pool.results));
  }

  /** The execution is not held, and no result was sent for it since the first `n` ones. */
  ghost predicate NoMoreResults(s: State, n: nat, e: ExecutionId) {
    && e in LoggedIds(s.pool.log) && e !in s.pool.held && n <= |s.pool.results|
    && forall i :: n <= i < |s.pool.results| ==> s.pool.results[i].execution != e
  }

  lemma StaysReleased(s: State, step: Step, n: nat, e: ExecutionId)
    requires Traced(s) && CanStep(s, step) && NoMoreResults(s, n, e)
    ensures NoMoreResults(Next(s, step), n, e) && s.pool.results <= Next(s, step).pool.results
  {
    assert OnceAt(s, e);
    if step.CompleteOne? {
      assert ReleasableAt(s, step.e);
    } else if step.AcceptOne? {
      LoggedIdsNext(s.pool.log, StartedExecution(step.e, s.pool.held[step.e].executor, s.pool.held[step.e].state.offeredAt));
    } else if step.OfferOne? {
      assert step.r.execution in IdsOf(s.fetch.batch);
      LoggedIdsNext(s.pool.log, StartedExecution(step.r.execution, step.x, step.offeredAt));
    }
  }

  lemma {:induction false} RunStaysReleased(s: State, run: seq<Step>, t: State, n: nat, e: ExecutionId)
    requires Traced(s) && Reaches(s, run, t) && NoMoreResults(s, n, e)
    ensures NoMoreResults(t, n, e) && s.pool.results <= t.pool.results
    decreases |run|
  {
    if run != [] {
      StepKeepsTraced(s, run[0]);
      StaysReleased(s, run[0], n, e);
      RunStaysReleased(Next(s, run[0]), run[1..], t, n, e);
    }
  }

  /** An accepted execution that no executor holds is never held again, and no further result is sent for it. */
  lemma ReleasedForGood(before: seq<Step>, s: State, run: seq<Step>, t: State, e: ExecutionId)
    requires Reaches(INIT, before, s) && Reaches(s, run, t)
    requires e in LoggedIds(s.pool.log) && e !in s.pool.held
    ensures e !in t.pool.held && s.pool.results <= t.pool.results
    ensures forall i :: |s.pool.results| <= i < |t.pool.results| ==> t.pool.results[i].execution != e
  {
    InitTraced();
    RunKeepsTraced(INIT, before, s);
    RunStaysReleased(s, run, t, |s.pool.results|, e);
  }

  lemma CancelledIsReleased(s: State, step: Step, e: ExecutionId)
    requires Traced(s) && CanStep(s, step)
    requires (step.CancelInPool? && e in step.ids) || step == BadTimestamp(e)
    requires e in s.pool.held && s.pool.held[e].state.Accepted?
    ensures NoMoreResults(Next(s, step), 0, e)
  {
    assert ReleasableAt(s, e) && TracedAt(s, e, s.pool.held[e].executor);
    forall i | 0 <= i < |s.pool.results| ensures s.pool.results[i].execution != e {
      assert s.pool.results[i] in RecordsOf(s.pool.results);
    }
  }

  /**
    An acceptance that ends in the pool without a result, because the execution is cancelled there or its
    executor reports an invalid timestamp, never gets one: neither had it any before, nor does it later.
   */
  lemma CancelledHasNoResult(before: seq<Step>, s: State, step: Step, run: seq<Step>, t: State, e: ExecutionId)
    requires Reaches(INIT, before, s) && CanStep(s, step) && Reaches(Next(s, step), run, t)
    requires (step.CancelInPool? && e in step.ids) || step == BadTimestamp(e)
    requires e in s.pool.held && s.pool.held[e].state.Accepted?
    ensures e !in t.pool.held && forall i :: 0 <= i < |t.pool.results| ==> t.pool.results[i].execution != e
  {
    InitTraced();
    RunKeepsTraced(INIT, before, s);
    CancelledIsReleased(s, step, e);
    StepKeepsTraced(s, step);
    RunStaysReleased(Next(s, step), run, t, 0, e);
  }

  /** Executors that left the pool never come back. */
  lemma {:induction false} GoneStaysGone(s: State, run: seq<Step>, t: State, x: ExecutorId)
    requires Reaches(s, run, t) && x in s.known && x !in s.pool.live
    ensures x in t.known && x !in t.pool.live
    decreases |run|
  {
    if run != [] {
      GoneStaysGone(Next(s, run[0]), run[1..], t, x);
    }
  }

  /** Once the scan's call for an orphaned execution has committed, the execution is finished for good. */
  lemma OrphanIsFinished(s: State, tx: Transaction, records: set<Record>, returned: bool, e: ExecutionId,
                         run: seq<Step>, t: State)
    requires Traced(s) && CanStep(s, ApplyScanned(tx, records, returned)) && e in IdsOf(records)
    requires Reaches(Next(s, ApplyScanned(tx, records, returned)), run, t)
    ensures !Active(t.d, e)
  {
    var m := Next(s, ApplyScanned(tx, records, returned));
    ApplyScannedKeepsTraced(s, tx, records, returned);
    assert ReleasableAt(s, e) && e in IdsOf(s.scanned);
    CallFinishes(s.d, tx, records, e);
    ApplyExecutionsEvolve(s.d, tx);
    RunStaysInactive(m, run, t, e);
  }

  lemma StepEvolves(s: State, step: Step)
    requires WellFormed(s.d) && CanStep(s, step)
    ensures ExecutionsEvolve(s.d, Next(s, step).d) && WellFormed(Next(s, step).d)
  {
    if step.ApplyResults? || step.ApplyScanned? || step.OtherTransaction? {
      ApplyExecutionsEvolve(s.d, step.tx);
      ApplyWellFormed(s.d, step.tx);
    } else if step.RecordStarts? {
      ApplyExecutionsEvolve(s.d, Starting(StartRows(s.d, s.starting)));
      ApplyWellFormed(s.d, Starting(StartRows(s.d, s.starting)));
    } else {
      assert Next(s, step).d == s.d;
      forall e: ExecutionId ensures ExecutionEvolves(s.d, s.d, e) {
      }
    }
  }

  lemma {:induction false} RunStaysInactive(s: State, run: seq<Step>, t: State, e: ExecutionId)
    requires WellFormed(s.d) && Reaches(s, run, t) && e < s.d.nextId && !Active(s.d, e)
    ensures !Active(t.d, e)
    decreases |run|
  {
    if run != [] {
      StepEvolves(s, run[0]);
      StaysInactive(s.d, Next(s, run[0]).d, e);
      RunStaysInactive(Next(s, run[0]), run[1..], t, e);
    }
  }
}
