/**
  The dispatch protocol: the server loops, the executor pool and the backend, in every interleaving.
  Each step is what one loop does while it holds the lock of the pool, or one transaction.
 */
module Dispatch {
  import opened Common
  import opened RetryBackoff
  import opened Tables
  import opened TableInvariants
  import opened TableRuns
  import opened Backend
  import opened PoolModel

  /** What the loop that offers ready executions is doing. */
  datatype Fetching =
    | Idle
    | Taken(at: Time)
    | Fetched(at: Time, batch: set<Record>)

  /**
    `known` are all executors that ever connected, `closing` those whose loop has ended but which are
    still in the pool. The starts loop has taken the first `taken` acceptances, `starting` are the ones
    it is working on, and `recorded` the result of its call. The events loop has taken the first
    `handled` results, and `processing` and `scanned` are the records the events and timeouts loops have
    yet to finish. `cancels` are executions that some loop is about to cancel in the pool.
   */
  datatype State = State(
    d: Db, pool: PoolView, clock: Time, known: set<ExecutorId>, closing: set<ExecutorId>,
    fetch: Fetching, taken: nat, starting: seq<StartedExecution>, recorded: Option<set<ExecutionId>>,
    handled: nat, processing: set<Record>, scanned: set<Record>, cancels: set<ExecutionId>)

  const INIT := State(EMPTY, EMPTY_POOL, 0, {}, {}, Idle, 0, [], None, 0, {}, {}, {})

  datatype Step =
    | Tick(now: Time)
    | Connect(x: ExecutorId)
    // The loop that offers ready executions.
    | TakeTime
    | FetchBatch(batch: set<Record>)
    | PurgeAccepted
    | OfferOne(r: Record, x: ExecutorId, handshake: bool, deadline: Time, offeredAt: Time)
    | EndOffer
    // The loops of the executors.
    | AcceptOne(e: ExecutionId)
    | Withdraw(e: ExecutionId)
    | CompleteOne(e: ExecutionId)
    | BadTimestamp(e: ExecutionId)
    | DropOne(x: ExecutorId, dropped: seq<Record>)
    // The loop that starts accepted executions.
    | TakeStarts(count: nat)
    | RecordStarts(returned: bool)
    | FinishStarts
    // The loops that handle results, timeouts and orphans.
    | TakeResults(count: nat)
    | ApplyResults(tx: Transaction, records: set<Record>, returned: bool)
    | Scan(records: set<Record>)
    | ApplyScanned(tx: Transaction, records: set<Record>, returned: bool)
    // Others.
    | CancelInPool(ids: set<ExecutionId>)
    | OtherTransaction(tx: Transaction)

  /** What a row of a stream says about an execution. */
  ghost predicate Describes(d: Db, r: Record) {
    && r.execution in d.executions && r.job == d.executions[r.execution].job
    && r.job in d.jobs && r.retry == d.jobs[r.job].definition.retry
    && r.attempt == Attempts(d, r.job)
  }

  /** The call a loop makes for records: it fails the executions, with or without a retry, or one loop succeeds them. */
  ghost predicate CallFor(tx: Transaction, records: set<Record>) {
    match tx
    case Finishing(rows, finish, _) =>
      && !finish.Cancellation?
      && rows.Keys == IdsOf(records)
    case Retrying(batch) =>
      && (forall r {:trigger Names(batch, r)} :: r in records ==> Names(batch, r))
      && (forall i :: 0 <= i < |batch| ==> FromRecords(records, batch[i]))
    case _ => false
  }

  ghost predicate Names(batch: seq<RetriedExecution>, r: Record) {
    exists i :: 0 <= i < |batch| && batch[i].execution == r.execution
  }

  ghost predicate FromRecords(records: set<Record>, entry: RetriedExecution) {
    exists r :: r in records && Retries(r, entry)
  }

  /** Executions are retried up to the number of retries of their job. */
  predicate Retries(r: Record, entry: RetriedExecution) {
    entry.execution == r.execution && entry.job == r.job && r.attempt <= r.retry.retries
  }

  ghost predicate CanStep(s: State, step: Step) {
    match step
    case Tick(now) => s.clock <= now
    case Connect(x) => x !in s.known
    case TakeTime => !s.fetch.Fetched?
    case FetchBatch(batch) =>
      s.fetch.Taken? && forall r :: r in batch ==> Describes(s.d, r) && ReadyOrScheduled(s.d, r.execution)
    case PurgeAccepted => s.fetch.Fetched?
    case OfferOne(r, x, handshake, deadline, offeredAt) =>
      && s.fetch.Fetched? && r in s.fetch.batch && x in s.pool.live
      && r.execution !in s.pool.held && r.execution !in s.pool.accepted
    case EndOffer => s.fetch.Fetched?
    case AcceptOne(e) => e in s.pool.held && s.pool.held[e].state.Offered? && s.pool.held[e].executor !in s.closing
    case Withdraw(e) => e in s.pool.held && s.pool.held[e].state.Offered?
    case CompleteOne(e) => e in s.pool.held && s.pool.held[e].executor !in s.closing
    case BadTimestamp(e) =>
      e in s.pool.held && s.pool.held[e].state.Accepted? && s.pool.held[e].executor !in s.closing
    case DropOne(x, dropped) => x in s.pool.live && AssignedTo(s.pool, x, dropped)
    case TakeStarts(count) => s.starting == [] && s.taken + count <= |s.pool.log|
    case RecordStarts(_) => s.starting != [] && s.recorded.None?
    case FinishStarts => s.recorded.Some?
    case TakeResults(count) => s.processing == {} && s.handled + count <= |s.pool.results|
    case ApplyResults(tx, records, _) => records <= s.processing && CallFor(tx, records) && Allowed(s.d, tx)
    case Scan(records) =>
      && s.scanned == {}
      && forall r :: r in records ==> Describes(s.d, r) && s.d.executions[r.execution].Status().InProgress?
    case ApplyScanned(tx, records, _) => records <= s.scanned && CallFor(tx, records) && Allowed(s.d, tx)
    case CancelInPool(ids) => ids <= s.cancels
    case OtherTransaction(tx) => !tx.Starting? && !tx.Finishing? && !tx.Retrying? && Allowed(s.d, tx)
  }

  function Next(s: State, step: Step): State
    requires CanStep(s, step)
  {
    match step
    case Tick(now) => s.(clock := now)
    case Connect(x) => s.(known := s.known + {x}, pool := s.pool.(live := s.pool.live + {x}))
    case TakeTime => s.(fetch := Taken(s.clock))
    case FetchBatch(batch) => s.(fetch := Fetched(s.fetch.at, batch))
    case PurgeAccepted => s.(pool := Purge(s.pool, s.fetch.at))
    case OfferOne(r, x, handshake, deadline, offeredAt) =>
      s.(pool := Offer(s.pool, r, x, handshake, deadline, offeredAt))
    case EndOffer => s.(fetch := Idle)
    case AcceptOne(e) => s.(pool := AcceptOffer(s.pool, e))
    case Withdraw(e) => s.(pool := Release(s.pool, {e}))
    case CompleteOne(e) => s.(pool := Complete(s.pool, e))
    // The execution is removed before the timestamp is found to be invalid, the executor is dropped afterwards.
    case BadTimestamp(e) =>
      s.(pool := Release(s.pool, {e}), closing := s.closing + {s.pool.held[e].executor})
    case DropOne(x, dropped) => s.(pool := Drop(s.pool, x, dropped), closing := s.closing - {x})
    case TakeStarts(count) => s.(starting := s.pool.log[s.taken..s.taken + count], taken := s.taken + count)
    // A call that seems to have failed may have been committed, and is repeated.
    case RecordStarts(returned) =>
      var rows := StartRows(s.d, s.starting);
      s.(d := ExecutionsStarted(s.d, rows), recorded := if returned then Some(StartedIds(s.d, rows)) else None)
    case FinishStarts =>
      var ids := LoggedIds(s.starting);
      s.(pool := MarkStarted(s.pool, ids, s.clock), starting := [], recorded := None,
         cancels := s.cancels + (ids - s.recorded.value))
    case TakeResults(count) =>
      s.(processing := RecordsOf(s.pool.results[s.handled..s.handled + count]), handled := s.handled + count)
    case ApplyResults(tx, records, returned) =>
      s.(d := Apply(s.d, tx), processing := if returned then s.processing - records else s.processing)
    case Scan(records) => s.(scanned := records)
    case ApplyScanned(tx, records, returned) =>
      s.(d := Apply(s.d, tx), scanned := if returned then s.scanned - records else s.scanned,
         cancels := if returned then s.cancels + IdsOf(records) else s.cancels)
    case CancelInPool(ids) => s.(pool := Release(s.pool, ids))
    case OtherTransaction(tx) =>
      s.(d := Apply(s.d, tx),
         cancels := s.cancels + if tx.Cancelling? then CancelledRows(s.d, tx.jobs, tx.at).Keys else {})
  }

  ghost predicate Reaches(s: State, run: seq<Step>, t: State)
    decreases |run|
  {
    if run == [] then t == s else CanStep(s, run[0]) && Reaches(Next(s, run[0]), run[1..], t)
  }

  /** One more step of a run. */
  lemma {:induction false} Extend(s: State, run: seq<Step>, m: State, step: Step)
    requires Reaches(s, run, m) && CanStep(m, step)
    ensures Reaches(s, run + [step], Next(m, step))
    decreases |run|
  {
    if run == [] {
      assert Reaches(Next(m, step), [], Next(m, step));
      assert (run + [step])[1..] == [];
    } else {
      Extend(Next(s, run[0]), run[1..], m, step);
      assert (run + [step])[1..] == run[1..] + [step];
    }
  }
}
