/**
  The executor pool as the rest of the server sees it: who holds which execution, which executions were
  accepted, and everything that was ever sent on its two channels.
 */
module PoolModel {
  import opened Common
  import opened RetryBackoff
  import opened Tables
  import opened Backend

  /** What the pool remembers of an execution, for deciding about retries. */
  datatype Record = Record(execution: ExecutionId, job: JobId, retry: RetryPolicy, attempt: nat)

  datatype HoldState = Offered(deadline: Time, offeredAt: Time) | Accepted

  datatype Holding = Holding(executor: ExecutorId, record: Record, state: HoldState)

  /**
    `accepted` has the time an accepted execution was started in the backend, if it was.
    `log` holds all that was sent to be started, one entry for each acceptance,
    and `results` the records of all executions whose result was sent.
   */
  datatype PoolView = PoolView(
    live: set<ExecutorId>, held: map<ExecutionId, Holding>, accepted: map<ExecutionId, Option<Time>>,
    log: seq<StartedExecution>, results: seq<Record>)

  const EMPTY_POOL := PoolView({}, map[], map[], [], [])

  function LoggedIds(log: seq<StartedExecution>): set<ExecutionId> { set s | s in log :: s.execution }

  function RecordsOf(records: seq<Record>): set<Record> { set r | r in records }

  function IdsOf(records: set<Record>): set<ExecutionId> { set r | r in records :: r.execution }

  /** Forgets executions that were started before the ready executions were fetched. */
  function Purge(v: PoolView, fetchedAt: Time): PoolView {
    v.(accepted := map e | e in v.accepted && (v.accepted[e].Some? ==> v.accepted[e].value >= fetchedAt) :: v.accepted[e])
  }

  /** Executors without the handshake accept every execution sent to them. */
  function Offer(v: PoolView, r: Record, x: ExecutorId, handshake: bool, deadline: Time, now: Time): PoolView {
    if handshake then v.(held := v.held[r.execution := Holding(x, r, Offered(deadline, now))])
    else
      v.(held := v.held[r.execution := Holding(x, r, Accepted)],
         accepted := v.accepted[r.execution := None],
         log := v.log + [StartedExecution(r.execution, x, now)])
  }

  /** The execution is considered started at the time it was offered. */
  function AcceptOffer(v: PoolView, e: ExecutionId): PoolView
    requires e in v.held && v.held[e].state.Offered?
  {
    v.(held := v.held[e := v.held[e].(state := Accepted)],
       accepted := v.accepted[e := None],
       log := v.log + [StartedExecution(e, v.held[e].executor, v.held[e].state.offeredAt)])
  }

  /** Takes executions from their executors, without a result. */
  function Release(v: PoolView, ids: set<ExecutionId>): PoolView { v.(held := v.held - ids) }

  /** An executor reports a result, which is ignored unless it accepted the execution. */
  function Complete(v: PoolView, e: ExecutionId): PoolView
    requires e in v.held
  {
    if v.held[e].state.Accepted?
    then v.(held := v.held - {e}, results := v.results + [v.held[e].record])
    else v.(held := v.held - {e})
  }

  function HeldBy(v: PoolView, x: ExecutorId): set<ExecutionId> { set e | e in v.held && v.held[e].executor == x }

  /** `records` lists the executions that the executor has accepted. */
  ghost predicate AssignedTo(v: PoolView, x: ExecutorId, records: seq<Record>) {
    && (forall r :: r in records ==> r.execution in HeldBy(v, x) && v.held[r.execution] == Holding(x, r, Accepted))
    && (forall e :: e in HeldBy(v, x) && v.held[e].state.Accepted? ==> v.held[e].record in records)
    && (forall i, k :: 0 <= i < k < |records| ==> records[i].execution != records[k].execution)
  }

  /** Drops an executor, the executions it accepted are sent as results. */
  function Drop(v: PoolView, x: ExecutorId, dropped: seq<Record>): PoolView {
    v.(live := v.live - {x}, held := v.held - HeldBy(v, x), results := v.results + dropped)
  }

  function MarkStarted(v: PoolView, ids: set<ExecutionId>, now: Time): PoolView {
    v.(accepted := map e | e in v.accepted :: if e in ids then Some(now) else v.accepted[e])
  }

  /** Offered executions, and those accepted but not yet started: they are still pending in the backend. */
  function InFlight(v: PoolView): set<ExecutionId> {
    (set e | e in v.held && v.held[e].state.Offered?) + (set e | e in v.accepted && v.accepted[e].None?)
  }
}
