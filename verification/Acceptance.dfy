/** At most once: no interleaving lets two executors, or one executor twice, accept the same execution. */
module Acceptance {
  import opened Common
  import opened Tables
  import opened TableInvariants
  import opened TableRuns
  import opened Backend
  import opened PoolModel
  import opened Dispatch

  ghost predicate LoggedOnce(log: seq<StartedExecution>) {
    forall i, k :: 0 <= i < k < |log| ==> log[i].execution != log[k].execution
  }

  /**
    Why an execution cannot be accepted again. An accepted execution is remembered or not pending
    anymore, and in a batch only if it is still remembered, as one that was started before the batch was
    fetched is not in it.
   */
  predicate OnceAt(s: State, e: ExecutionId) {
    && (e in LoggedIds(s.pool.log) ==>
          && e < s.d.nextId
          && (e in s.pool.accepted || !ReadyOrScheduled(s.d, e))
          && (e in s.pool.held ==> s.pool.held[e].state.Accepted?)
          && (s.fetch.Fetched? && e in IdsOf(s.fetch.batch) ==>
                e in s.pool.accepted && (s.pool.accepted[e].Some? ==> s.fetch.at <= s.pool.accepted[e].value)))
    && (e in s.pool.held ==> e < s.d.nextId)
    && (s.fetch.Fetched? && e in IdsOf(s.fetch.batch) ==> e < s.d.nextId)
    && (e in s.pool.accepted && s.pool.accepted[e].Some? ==>
          e < s.d.nextId && !ReadyOrScheduled(s.d, e) && s.pool.accepted[e].value <= s.clock)
    && (e in LoggedIds(s.starting) ==>
          e in LoggedIds(s.pool.log) && (s.recorded.Some? ==> !ReadyOrScheduled(s.d, e)))
  }

  ghost predicate Once(s: State) {
    && WellFormed(s.d) && LoggedOnce(s.pool.log)
    && (!s.fetch.Idle? ==> s.fetch.at <= s.clock)
    && s.taken <= |s.pool.log| && (s.recorded.Some? ==> s.starting != [])
    && forall e: ExecutionId {:trigger OnceAt(s, e)} :: OnceAt(s, e)
  }

  lemma LoggedIdsNext(log: seq<StartedExecution>, next: StartedExecution)
    ensures LoggedIds(log + [next]) == LoggedIds(log) + {next.execution}
  {
    forall e | e in LoggedIds(log) ensures e in LoggedIds(log + [next]) {
      var l :| l in log && l.execution == e;
      assert l in log + [next];
    }
    assert next in log + [next];
  }

  lemma LoggedOnceNext(log: seq<StartedExecution>, next: StartedExecution)
    requires LoggedOnce(log) && next.execution !in LoggedIds(log)
    ensures LoggedOnce(log + [next])
  {
    forall i | 0 <= i < |log| ensures log[i].execution != next.execution {
      assert log[i] in log;
    }
  }

  lemma EvolvingKeepsOnceAt(s: State, t: Db, e: ExecutionId)
    requires OnceAt(s, e) && ExecutionsEvolve(s.d, t)
    ensures OnceAt(s.(d := t), e)
  {
    if e < s.d.nextId && !ReadyOrScheduled(s.d, e) {
      StaysNotPending(s.d, t, e);
    }
  }

  lemma EvolvingKeepsOnce(s: State, t: Db)
    requires Once(s) && WellFormed(t) && ExecutionsEvolve(s.d, t)
    ensures Once(s.(d := t))
  {
    forall e: ExecutionId ensures OnceAt(s.(d := t), e) {
      assert OnceAt(s, e);
      EvolvingKeepsOnceAt(s, t, e);
    }
  }

  /** Whether or not a call started them, executions that were to be started are not pending after it. */
  lemma StartedNotPending(d: Db, batch: seq<StartedExecution>, e: ExecutionId)
    requires e in LoggedIds(batch)
    ensures !ReadyOrScheduled(ExecutionsStarted(d, StartRows(d, batch)), e)
  {
    var l :| l in batch && l.execution == e;
    StartRowsStart(d, batch, e);
  }

  lemma RecordStartsKeepsOnce(s: State, returned: bool)
    requires Once(s) && CanStep(s, RecordStarts(returned))
    ensures Once(Next(s, RecordStarts(returned)))
  {
    var rows := StartRows(s.d, s.starting);
    var t := ExecutionsStarted(s.d, rows);
    StartedWellFormed(s.d, rows);
    ApplyExecutionsEvolve(s.d, Starting(rows));
    EvolvingKeepsOnce(s, t);
    forall e: ExecutionId ensures OnceAt(Next(s, RecordStarts(returned)), e) {
      assert OnceAt(s.(d := t), e);
      if e in LoggedIds(s.starting) {
        StartedNotPending(s.d, s.starting, e);
      }
    }
  }

  lemma TransactionKeepsOnce(s: State, tx: Transaction)
    requires Once(s) && Allowed(s.d, tx)
    ensures Once(s.(d := Apply(s.d, tx)))
  {
    ApplyWellFormed(s.d, tx);
    ApplyExecutionsEvolve(s.d, tx);
    EvolvingKeepsOnce(s, Apply(s.d, tx));
  }

  /** Forgetting accepted executions is safe: those forgotten were started before the batch was fetched. */
  lemma PurgeKeepsOnce(s: State)
    requires Once(s) && CanStep(s, PurgeAccepted)
    ensures Once(Next(s, PurgeAccepted))
  {
    forall e: ExecutionId ensures OnceAt(Next(s, PurgeAccepted), e) {
      assert OnceAt(s, e);
    }
  }

  lemma FetchKeepsOnce(s: State, batch: set<Record>)
    requires Once(s) && CanStep(s, FetchBatch(batch))
    ensures Once(Next(s, FetchBatch(batch)))
  {
    forall e: ExecutionId ensures OnceAt(Next(s, FetchBatch(batch)), e) {
      assert OnceAt(s, e);
    }
  }

  lemma OfferKeepsOnce(s: State, r: Record, x: ExecutorId, handshake: bool, deadline: Time, offeredAt: Time)
    requires Once(s) && CanStep(s, OfferOne(r, x, handshake, deadline, offeredAt))
    ensures Once(Next(s, OfferOne(r, x, handshake, deadline, offeredAt)))
  {
    var t := Next(s, OfferOne(r, x, handshake, deadline, offeredAt));
    assert OnceAt(s, r.execution) && r.execution in IdsOf(s.fetch.batch);
    var next := StartedExecution(r.execution, x, offeredAt);
    LoggedIdsNext(s.pool.log, next);
    if !handshake {
      LoggedOnceNext(s.pool.log, next);
    }
    forall e: ExecutionId ensures OnceAt(t, e) {
      assert OnceAt(s, e);
    }
  }

  lemma AcceptKeepsOnce(s: State, a: ExecutionId)
    requires Once(s) && CanStep(s, AcceptOne(a))
    ensures Once(Next(s, AcceptOne(a)))
  {
    var next := StartedExecution(a, s.pool.held[a].executor, s.pool.held[a].state.offeredAt);
    assert OnceAt(s, a);
    LoggedIdsNext(s.pool.log, next);
    LoggedOnceNext(s.pool.log, next);
    forall e: ExecutionId ensures OnceAt(Next(s, AcceptOne(a)), e) {
      assert OnceAt(s, e);
    }
  }

  lemma TakeStartsKeepsOnce(s: State, count: nat)
    requires Once(s) && CanStep(s, TakeStarts(count))
    ensures Once(Next(s, TakeStarts(count)))
  {
    var t := Next(s, TakeStarts(count));
    forall e: ExecutionId ensures OnceAt(t, e) {
      assert OnceAt(s, e);
      if e in LoggedIds(t.starting) {
        var l :| l in t.starting && l.execution == e;
        assert l in s.pool.log;
      }
    }
  }

  /** The time recorded for started executions is after any batch that still has them was fetched. */
  lemma FinishStartsKeepsOnce(s: State)
    requires Once(s) && CanStep(s, FinishStarts)
    ensures Once(Next(s, FinishStarts))
  {
    forall e: ExecutionId ensures OnceAt(Next(s, FinishStarts), e) {
      assert OnceAt(s, e);
    }
  }

  /** What the steps below have in common: they only take executions from executors. */
  predicate OnlyReleases(s: State, t: State) {
    && t.d == s.d && t.clock == s.clock && t.fetch == s.fetch && t.taken == s.taken
    && t.starting == s.starting && t.recorded == s.recorded
    && t.pool.log == s.pool.log && t.pool.accepted == s.pool.accepted
    && forall e :: e in t.pool.held ==> e in s.pool.held && t.pool.held[e] == s.pool.held[e]
  }

  lemma ReleaseKeepsOnce(s: State, t: State)
    requires Once(s) && OnlyReleases(s, t)
    ensures Once(t)
  {
    forall e: ExecutionId ensures OnceAt(t, e) {
      assert OnceAt(s, e);
    }
  }

  predicate IsRelease(step: Step) {
    step.Connect? || step.Withdraw? || step.CompleteOne? || step.BadTimestamp? || step.DropOne?
    || step.TakeResults? || step.Scan? || step.CancelInPool?
  }

  lemma ReleaseSteps(s: State, step: Step)
    requires CanStep(s, step) && IsRelease(step)
    ensures OnlyReleases(s, Next(s, step))
  {
  }

  lemma TimeKeepsOnce(s: State, step: Step)
    requires Once(s) && CanStep(s, step) && (step.Tick? || step.TakeTime? || step.EndOffer?)
    ensures Once(Next(s, step))
  {
    forall e: ExecutionId ensures OnceAt(Next(s, step), e) {
      assert OnceAt(s, e);
    }
  }

  lemma FramedKeepsOnce(s: State, t: State)
    requires Once(s) && t.d == s.d && t.pool == s.pool && t.clock == s.clock && t.fetch == s.fetch
    requires t.taken == s.taken && t.starting == s.starting && t.recorded == s.recorded
    ensures Once(t)
  {
    ReleaseKeepsOnce(s, t);
  }

  lemma TransactionStepKeepsOnce(s: State, step: Step)
    requires Once(s) && CanStep(s, step) && (step.ApplyResults? || step.ApplyScanned? || step.OtherTransaction?)
    ensures Once(Next(s, step))
  {
    TransactionKeepsOnce(s, step.tx);
    FramedKeepsOnce(s.(d := Apply(s.d, step.tx)), Next(s, step));
  }

  lemma PoolStepKeepsOnce(s: State, step: Step)
    requires Once(s) && CanStep(s, step) && (step.PurgeAccepted? || step.OfferOne? || step.AcceptOne? || step.FinishStarts?)
    ensures Once(Next(s, step))
  {
    match step
    case PurgeAccepted => PurgeKeepsOnce(s);
    case OfferOne(r, x, handshake, deadline, offeredAt) => OfferKeepsOnce(s, r, x, handshake, deadline, offeredAt);
    case AcceptOne(e) => AcceptKeepsOnce(s, e);
    case FinishStarts => FinishStartsKeepsOnce(s);
  }

  lemma StepKeepsOnce(s: State, step: Step)
    requires Once(s) && CanStep(s, step)
    ensures Once(Next(s, step))
  {
    if IsRelease(step) {
      ReleaseSteps(s, step);
      ReleaseKeepsOnce(s, Next(s, step));
    } else if step.ApplyResults? || step.ApplyScanned? || step.OtherTransaction? {
      TransactionStepKeepsOnce(s, step);
    } else if step.Tick? || step.TakeTime? || step.EndOffer? {
      TimeKeepsOnce(s, step);
    } else if step.FetchBatch? {
      FetchKeepsOnce(s, step.batch);
    } else if step.TakeStarts? {
      TakeStartsKeepsOnce(s, step.count);
    } else if step.RecordStarts? {
      RecordStartsKeepsOnce(s, step.returned);
    } else {
      PoolStepKeepsOnce(s, step);
    }
  }

  lemma {:induction false} RunKeepsOnce(s: State, run: seq<Step>, t: State)
    requires Once(s) && Reaches(s, run, t)
    ensures Once(t)
    decreases |run|
  {
    if run != [] {
      StepKeepsOnce(s, run[0]);
      RunKeepsOnce(Next(s, run[0]), run[1..], t);
    }
  }

  /**
    At-most-once acceptance, over all runs: however the loops, executors and transactions interleave,
    each execution is accepted by at most one executor, and only once.
   */
  lemma AcceptedAtMostOnce(run: seq<Step>, t: State, i: nat, k: nat)
    requires Reaches(INIT, run, t)
    requires i < |t.pool.log| && k < |t.pool.log| && t.pool.log[i].execution == t.pool.log[k].execution
    ensures i == k
  {
    assert Once(INIT);
    RunKeepsOnce(INIT, run, t);
  }
}
