/**
  The executor pool: an in-memory allocator whose state is changed in place by messages, expiry,
  cancellation and disconnects. Every method keeps the pool valid, and changes what the rest of the
  server sees of it by one operation of the pool model.
 */
module ExecutorPools {
  import opened Common
  import opened RetryBackoff
  import opened Tables
  import opened Backend
  import opened ReadyStream
  import opened PoolModel
  import opened PoolState
  import opened Offering

  const OFFER_TIMEOUT: Duration := 30 * NANOS_PER_SEC
  const MIN_REJECTION_BACKOFF: Duration := NANOS_PER_SEC
  const MAX_REJECTION_BACKOFF: Duration := 30 * NANOS_PER_SEC

  /** One second after the first rejection in a row, and twice as long after each further one. */
  function RejectionBackoff(rejections: nat): Duration {
    Min(SaturatingMul(MIN_REJECTION_BACKOFF, Min(Pow2(rejections), U32_MAX)), MAX_REJECTION_BACKOFF)
  }

  /** Saturation never shows: one second, doubled for each rejection before, and 30 seconds after the fifth. */
  lemma RejectionBackoffDoubles(rejections: nat)
    ensures RejectionBackoff(rejections) == Min(1_000_000_000 * Pow2(rejections), 30_000_000_000)
    ensures RejectionBackoff(0) == 1_000_000_000
    ensures RejectionBackoff(rejections + 1)
         == if 2 * RejectionBackoff(rejections) <= 30_000_000_000 then 2 * RejectionBackoff(rejections) else 30_000_000_000
  {
    RejectionBackoffIs(rejections);
    RejectionBackoffIs(rejections + 1);
    RejectionBackoffIs(0);
    assert Pow2(rejections + 1) == 2 * Pow2(rejections);
  }

  lemma RejectionBackoffIs(rejections: nat)
    ensures RejectionBackoff(rejections) == Min(1_000_000_000 * Pow2(rejections), 30_000_000_000)
  {
    if Pow2(rejections) <= U32_MAX {
      assert MIN_REJECTION_BACKOFF * Pow2(rejections) <= MIN_REJECTION_BACKOFF * U32_MAX;
    }
  }

  function QueueAccepted(q: JobQueue): JobQueue { q.(consecutiveRejections := 0, backoffUntil := None) }

  function QueueRejected(q: JobQueue, now: Time): JobQueue {
    q.(consecutiveRejections := Min(q.consecutiveRejections + 1, U32_MAX),
       backoffUntil := Some(now + RejectionBackoff(q.consecutiveRejections)))
  }

  /** After a rejection nothing is offered to the queue until its backoff ends, and the next one is longer. */
  lemma RejectedColumns(q: JobQueue, now: Time, later: Time)
    ensures var rejected := QueueRejected(q, now);
            && rejected.backoffUntil == Some(now + RejectionBackoff(q.consecutiveRejections))
            && rejected.executions == q.executions
            && rejected.jobType == q.jobType && rejected.maxExecutions == q.maxExecutions
            && (q.consecutiveRejections < U32_MAX ==> rejected.consecutiveRejections == q.consecutiveRejections + 1)
            && (now <= later < now + 1_000_000_000 ==> !rejected.HasCapacity(later))
            && (later >= now + 30_000_000_000 ==> (rejected.HasCapacity(later) <==> |q.executions| < q.maxExecutions))
  {
    RejectionBackoffDoubles(q.consecutiveRejections);
  }

  datatype ExecutionResult = Success(output: string) | Failure(reason: string)

  datatype ExecutorEvent =
    | JobTypesAdded(jobTypes: set<string>)
    | ExecutionFinished(record: Record, result: ExecutionResult, at: Time)
    | ExecutorDisconnected(executor: Executor)

  /** The executions whose results an event carries. */
  function ResultsIn(event: ExecutorEvent): seq<Record> {
    match event
    case JobTypesAdded(_) => []
    case ExecutionFinished(record, _, _) => [record]
    case ExecutorDisconnected(executor) => Assigned(executor.queues)
  }

  function ResultsOf(events: seq<ExecutorEvent>): seq<Record> {
    if events == [] then [] else ResultsOf(events[..|events| - 1]) + ResultsIn(events[|events| - 1])
  }

  lemma ResultsNext(events: seq<ExecutorEvent>, event: ExecutorEvent)
    ensures ResultsOf(events + [event]) == ResultsOf(events) + ResultsIn(event)
  {
    assert (events + [event])[..|events|] == events;
  }

  lemma NoResults(events: seq<ExecutorEvent>, jobTypes: set<string>)
    ensures ResultsOf(events + [JobTypesAdded(jobTypes)]) == ResultsOf(events)
  {
    ResultsNext(events, JobTypesAdded(jobTypes));
  }

  function JobTypesOf(queues: seq<(string, nat)>): set<string> { set q | q in queues :: q.0 }

  /** Job types are announced unless there are none. */
  function Announced(jobTypes: set<string>): seq<ExecutorEvent> {
    if jobTypes == {} then [] else [JobTypesAdded(jobTypes)]
  }

  lemma AnnouncedTypes(queues: seq<(string, nat)>)
    ensures Announced(JobTypesOf(queues)) == if queues == [] then [] else [JobTypesAdded(set q | q in queues :: q.0)]
  {
    if queues != [] {
      assert queues[0] in queues && queues[0].0 in JobTypesOf(queues);
    }
    assert JobTypesOf(queues) == set q | q in queues :: q.0;
  }

  function Ids(ids: seq<ExecutionId>): set<ExecutionId> { set e | e in ids }

  /** An execution given to an executor. */
  datatype Assignment = Assignment(record: Record, executor: ExecutorId, handshake: bool)

  function OfferAll(v: PoolView, offers: seq<Assignment>, deadline: Time, at: Time): PoolView {
    if offers == [] then v
    else
      var last := offers[|offers| - 1];
      Offer(OfferAll(v, offers[..|offers| - 1], deadline, at), last.record, last.executor, last.handshake, deadline, at)
  }

  function OfferedIds(offers: seq<Assignment>): set<ExecutionId> { set o | o in offers :: o.record.execution }

  function Indices(n: nat): (s: seq<nat>)
    ensures |s| == n && forall i :: 0 <= i < n ==> s[i] == i
  {
    seq(n, (i: nat) => i)
  }

  /** The executor is sent the execution, which is the last one of its queue then. */
  function OfferedTo(executors: seq<Executor>, i: nat, j: nat, record: Record, deadline: Time, at: Time): seq<Executor>
    requires i < |executors| && j < |executors[i].queues|
  {
    var ex, q := executors[i], executors[i].queues[j];
    var state := if ex.handshake then Offered(deadline, at) else Accepted;
    WithQueue(executors[i := Send(ex, ExecutionReady(record))], i, j,
              q.(executions := q.executions + [ExecutorExecution(record, state)]))
  }

  /** An execution becomes accepted, and its queue is not backed off anymore. */
  function AcceptedAt(executors: seq<Executor>, i: nat, j: nat, k: nat): seq<Executor>
    requires i < |executors| && j < |executors[i].queues| && k < |executors[i].queues[j].executions|
  {
    var q := executors[i].queues[j];
    WithQueue(executors, i, j, QueueAccepted(q.(executions := q.executions[k := q.executions[k].(state := Accepted)])))
  }

  /** The executor is told that an execution is cancelled, which leaves its queue. */
  function CancelledAt(executors: seq<Executor>, i: nat, j: nat, k: nat): seq<Executor>
    requires i < |executors| && j < |executors[i].queues| && k < |executors[i].queues[j].executions|
  {
    var q := executors[i].queues[j];
    var removed := WithQueue(executors, i, j, q.(executions := SwapRemove(q.executions, k)));
    removed[i := Send(removed[i], ExecutionCancelled(q.executions[k].record.execution))]
  }

  function Cancellations(executions: seq<ExecutorExecution>): (messages: seq<ServerMessage>)
    ensures |messages| == |executions|
    ensures forall n :: 0 <= n < |messages| ==> messages[n] == ExecutionCancelled(executions[n].record.execution)
  {
    seq(|executions|, n requires 0 <= n < |executions| => ExecutionCancelled(executions[n].record.execution))
  }

  function SendAll(ex: Executor, messages: seq<ServerMessage>): Executor {
    if ex.connected then ex.(messages := ex.messages + messages) else ex
  }

  lemma SendNothing(ex: Executor)
    ensures SendAll(ex, []) == ex
  {
    assert ex.messages + [] == ex.messages;
  }

  lemma SendAllNext(ex: Executor, messages: seq<ServerMessage>, next: ServerMessage)
    ensures SendAll(ex, messages + [next]) == Send(SendAll(ex, messages), next)
  {
    assert ex.messages + (messages + [next]) == (ex.messages + messages) + [next];
  }

  /** The executor was told of the first executions. */
  ghost predicate SentUpTo(before: seq<Executor>, i: nat, executions: seq<ExecutorExecution>, n: nat, executors: seq<Executor>) {
    i < |before| && n <= |executions| && executors == before[i := SendAll(before[i], Cancellations(executions[..n]))]
  }

  lemma NothingSent(before: seq<Executor>, i: nat, executions: seq<ExecutorExecution>)
    requires i < |before|
    ensures SentUpTo(before, i, executions, 0, before)
  {
    assert Cancellations(executions[..0]) == [];
    SendNothing(before[i]);
  }

  lemma SentNext(before: seq<Executor>, i: nat, executions: seq<ExecutorExecution>, n: nat, executors: seq<Executor>)
    requires SentUpTo(before, i, executions, n, executors) && n < |executions|
    ensures i < |executors|
    ensures SentUpTo(before, i, executions, n + 1,
                     executors[i := Send(executors[i], ExecutionCancelled(executions[n].record.execution))])
  {
    var next := ExecutionCancelled(executions[n].record.execution);
    assert Cancellations(executions[..n + 1]) == Cancellations(executions[..n]) + [next];
    SendAllNext(before[i], Cancellations(executions[..n]), next);
  }

  /** The messages an executor is sent for offers: each execution that is offered to it, in order. */
  function SentTo(offers: seq<Assignment>, x: ExecutorId): seq<ServerMessage> {
    if offers == [] then []
    else
      var last := offers[|offers| - 1];
      SentTo(offers[..|offers| - 1], x) + if last.executor == x then [ExecutionReady(last.record)] else []
  }

  predicate IsSent(was: Executor, ex: Executor, offers: seq<Assignment>) {
    ex.id == was.id && ex.connected == was.connected && ex.messages == was.messages + SentTo(offers, was.id)
  }

  /** Each executor is sent exactly the offers made to it. */
  predicate AreSent(before: seq<Executor>, executors: seq<Executor>, offers: seq<Assignment>) {
    |executors| == |before| && forall i :: 0 <= i < |before| ==> IsSent(before[i], executors[i], offers)
  }

  lemma NothingIsSent(executors: seq<Executor>)
    ensures AreSent(executors, executors, [])
  {
    forall i | 0 <= i < |executors| ensures IsSent(executors[i], executors[i], []) {
      assert executors[i].messages + [] == executors[i].messages;
    }
  }

  lemma {:induction false} SentToBoth(a: seq<Assignment>, b: seq<Assignment>, x: ExecutorId)
    ensures SentTo(a + b, x) == SentTo(a, x) + SentTo(b, x)
  {
    if b == [] {
      assert a + b == a;
    } else {
      var n := |b| - 1;
      SentToBoth(a, b[..n], x);
      assert (a + b)[..|a| + n] == a + b[..n];
      ConcatAssociates(SentTo(a, x), SentTo(b[..n], x), if b[n].executor == x then [ExecutionReady(b[n].record)] else []);
    }
  }

  lemma SentInTurn(before: seq<Executor>, was: seq<Executor>, executors: seq<Executor>, a: seq<Assignment>, b: seq<Assignment>)
    requires AreSent(before, was, a) && AreSent(was, executors, b)
    ensures AreSent(before, executors, a + b)
  {
    forall i | 0 <= i < |before| ensures IsSent(before[i], executors[i], a + b) {
      assert IsSent(before[i], was[i], a) && IsSent(was[i], executors[i], b);
      SentToBoth(a, b, before[i].id);
      ConcatAssociates(before[i].messages, SentTo(a, before[i].id), SentTo(b, before[i].id));
    }
  }

  lemma SentToOne(before: seq<Executor>, executors: seq<Executor>, i: nat, to: Assignment)
    requires |executors| == |before| && i < |before| && to.executor == before[i].id
    requires forall k :: 0 <= k < |before| && k != i ==> executors[k] == before[k] && before[k].id != before[i].id
    requires executors[i].id == before[i].id && executors[i].connected == before[i].connected
    requires executors[i].messages == before[i].messages + [ExecutionReady(to.record)]
    ensures AreSent(before, executors, [to])
  {
    assert [to][..0] == [];
    forall k | 0 <= k < |before| ensures IsSent(before[k], executors[k], [to]) {
      assert SentTo([to], before[k].id) == if k == i then [ExecutionReady(to.record)] else [];
      assert before[k].messages + [] == before[k].messages;
    }
  }

  /** Free capacity for a type is a queue for it that can be reached, with room and no backoff. */
  lemma FreeIfRoom(executors: seq<Executor>, jobType: string, now: Time)
    ensures Free(executors, jobType, now) > 0 <==>
              exists i, j :: 0 <= i < |executors| && 0 <= j < |executors[i].queues|
                && executors[i].connected && executors[i].queues[j].jobType == jobType
                && |executors[i].queues[j].executions| < executors[i].queues[j].maxExecutions
                && (executors[i].queues[j].backoffUntil.Some? ==> executors[i].queues[j].backoffUntil.value <= now)
  {
    if i, j :| 0 <= i < |executors| && 0 <= j < |executors[i].queues|
               && executors[i].connected && executors[i].queues[j].jobType == jobType
               && |executors[i].queues[j].executions| < executors[i].queues[j].maxExecutions
               && (executors[i].queues[j].backoffUntil.Some? ==> executors[i].queues[j].backoffUntil.value <= now) {
      RoomIsFree(executors, i, j, jobType, now);
    } else {
      forall i | 0 <= i < |executors| ensures FreeAt(executors[i], jobType, now) == 0 {
        if executors[i].connected {
          NoneSuitable(executors[i].queues, jobType, now);
        }
      }
      NoneFree(executors, jobType, now);
    }
  }

  /** What offering changes: one message, and one execution at the end of one queue. */
  lemma OfferedColumns(executors: seq<Executor>, i: nat, j: nat, record: Record, deadline: Time, at: Time)
    requires i < |executors| && j < |executors[i].queues| && executors[i].connected
    ensures var was, after := executors[i], OfferedTo(executors, i, j, record, deadline, at);
            && |after| == |executors| && (forall k :: 0 <= k < |executors| && k != i ==> after[k] == executors[k])
            && after[i].messages == was.messages + [ExecutionReady(record)]
            && after[i] == was.(messages := after[i].messages, queues := after[i].queues)
            && after[i].queues == was.queues[j := was.queues[j].(
                 executions := was.queues[j].executions
                   + [ExecutorExecution(record, if was.handshake then Offered(deadline, at) else Accepted)])]
  {
  }

  /** A random order of the executors. */
  method Shuffle(n: nat) returns (order: seq<nat>)
    ensures multiset(order) == multiset(Indices(n))
  {
    order := Indices(n);
    for i := 0 to n
      invariant |order| == n && multiset(order) == multiset(Indices(n))
    {
      var k :| i <= k < n;
      order := order[i := order[k]][k := order[i]];
    }
  }

  lemma ShuffledIndex(order: seq<nat>, n: nat, i: nat)
    requires multiset(order) == multiset(Indices(n))
    ensures i in order <==> i < n
  {
    assert i in order <==> i in multiset(order);
    assert i in Indices(n) <==> i in multiset(Indices(n));
    assert i < n ==> Indices(n)[i] == i;
  }

  class ExecutorPool {
    var executors: seq<Executor>
    var acceptedExecutions: map<ExecutionId, Option<Time>>
    /** All that was sent on the two channels. */
    var accepted: seq<StartedExecution>
    var events: seq<ExecutorEvent>

    ghost predicate Valid()
      reads this
    {
      PoolValid(executors)
    }

    ghost function View(): PoolView
      reads this
      requires Valid()
    {
      PoolView(Live(executors), Held(executors), acceptedExecutions, accepted, ResultsOf(events))
    }

    constructor ()
      ensures Valid() && View() == EMPTY_POOL
    {
      executors, acceptedExecutions, accepted, events := [], map[], [], [];
    }

    /** New executors have a fresh random id. */
    method AddExecutor(id: ExecutorId)
      requires Valid() && id !in View().live
      modifies this
      ensures Valid() && View() == old(View()).(live := old(View()).live + {id})
      ensures executors == old(executors) + [Executor(id, [], false, false, true, [])]
    {
      var ex := Executor(id, [], false, false, true, []);
      AddedExecutorValid(executors, ex);
      executors := executors + [ex];
    }

    /** The pool is saturated if no queue at all has room. */
    method HasCapacity(now: Time) returns (result: bool)
      ensures result <==> AnyCapacity(executors, now)
    {
      result := false;
      for i := 0 to |executors|
        invariant result <==> exists m, n :: 0 <= m < i && 0 <= n < |executors[m].queues| && executors[m].queues[n].HasCapacity(now)
      {
        for j := 0 to |executors[i].queues|
          invariant result <==> || (exists m, n :: 0 <= m < i && 0 <= n < |executors[m].queues| && executors[m].queues[n].HasCapacity(now))
                                || (exists n :: 0 <= n < j && executors[i].queues[n].HasCapacity(now))
        {
          if executors[i].queues[j].HasCapacity(now) {
            result := true;
          }
        }
      }
    }

    method ExecutorExists(id: ExecutorId) returns (found: Option<nat>)
      ensures found.Some? ==> found.value < |executors| && executors[found.value].id == id
      ensures found.None? <==> id !in Live(executors)
    {
      for i := 0 to |executors|
        invariant forall k :: 0 <= k < i ==> executors[k].id != id
      {
        if executors[i].id == id {
          return Some(i);
        }
      }
      return None;
    }

    /** The first queue of an executor that can be offered an execution of the type. */
    method FindSuitable(i: nat, jobType: string, now: Time) returns (found: Option<nat>)
      requires i < |executors|
      ensures found.Some? ==> found.value < |executors[i].queues| && Suitable(executors[i].queues[found.value], jobType, now)
      ensures found.None? ==> FreeOf(executors[i].queues, jobType, now) == 0
    {
      for j := 0 to |executors[i].queues|
        invariant forall k :: 0 <= k < j ==> !Suitable(executors[i].queues[k], jobType, now)
      {
        if Suitable(executors[i].queues[j], jobType, now) {
          return Some(j);
        }
      }
      NoneSuitable(executors[i].queues, jobType, now);
      return None;
    }

    /** Sends an execution to an executor and puts it in one of its queues. */
    method OfferAt(i: nat, j: nat, r: ReadyExecution, now: Time, systemNow: Time)
      requires Valid() && i < |executors| && j < |executors[i].queues| && executors[i].connected
      requires Suitable(executors[i].queues[j], r.jobType, now)
      requires r.execution !in View().held
      modifies this
      ensures Valid()
      ensures View() == Offer(old(View()), RecordOf(r), old(executors[i].id), old(executors[i].handshake), now + OFFER_TIMEOUT, systemNow)
      ensures forall jobType: string ::
                Free(executors, jobType, now) == old(Free(executors, jobType, now)) - if jobType == r.jobType then 1 else 0
      // The executor is sent the execution, which is the last one of its queue: it has 30 seconds to answer, or
      // has accepted it at once. Nothing else changes in the pool, and nobody else is sent anything.
      ensures |executors| == |old(executors)| && forall k :: 0 <= k < |executors| && k != i ==> executors[k] == old(executors[k])
      ensures executors[i].messages == old(executors[i].messages) + [ExecutionReady(RecordOf(r))]
      ensures executors[i] == old(executors[i]).(messages := executors[i].messages, queues := executors[i].queues)
      ensures executors[i].queues == old(executors[i].queues)[j := old(executors[i].queues[j]).(
                executions := old(executors[i].queues[j].executions) + [ExecutorExecution(RecordOf(r),
                  if old(executors[i].handshake) then Offered(now + 30_000_000_000, systemNow) else Accepted)])]
      ensures accepted == old(accepted) + if old(executors[i].handshake) then []
                                          else [StartedExecution(r.execution, old(executors[i].id), systemNow)]
    {
      OfferedColumns(executors, i, j, RecordOf(r), now + OFFER_TIMEOUT, systemNow);
      OfferInQueue(i, j, r, now, systemNow);
    }

    method OfferInQueue(i: nat, j: nat, r: ReadyExecution, now: Time, systemNow: Time)
      requires Valid() && i < |executors| && j < |executors[i].queues| && executors[i].connected
      requires Suitable(executors[i].queues[j], r.jobType, now)
      requires r.execution !in View().held
      modifies this
      ensures Valid()
      ensures View() == Offer(old(View()), RecordOf(r), old(executors[i].id), old(executors[i].handshake), now + OFFER_TIMEOUT, systemNow)
      ensures forall jobType: string ::
                Free(executors, jobType, now) == old(Free(executors, jobType, now)) - if jobType == r.jobType then 1 else 0
      ensures executors == OfferedTo(old(executors), i, j, RecordOf(r), now + OFFER_TIMEOUT, systemNow)
      ensures accepted == old(accepted) + if old(executors[i].handshake) then []
                                          else [StartedExecution(r.execution, old(executors[i].id), systemNow)]
    {
      var x, handshake := executors[i].id, executors[i].handshake;
      SendExecution(i, j, r, now, systemNow);
      AcceptAtOnce(r.execution, x, handshake, systemNow);
    }

    /** Executors without the handshake accept every execution sent to them. */
    method AcceptAtOnce(e: ExecutionId, x: ExecutorId, handshake: bool, at: Time)
      requires Valid()
      modifies this`acceptedExecutions, this`accepted
      ensures Valid()
      ensures View() == if handshake then old(View())
                        else old(View()).(accepted := old(View()).accepted[e := None],
                                          log := old(View()).log + [StartedExecution(e, x, at)])
      ensures accepted == old(accepted) + if handshake then [] else [StartedExecution(e, x, at)]
    {
      if !handshake {
        SendAccepted(e, x, at);
      }
    }

    /** An accepted execution is sent to be started. */
    method SendAccepted(e: ExecutionId, x: ExecutorId, at: Time)
      requires Valid()
      modifies this`acceptedExecutions, this`accepted
      ensures Valid()
      ensures View() == old(View()).(accepted := old(View()).accepted[e := None],
                                     log := old(View()).log + [StartedExecution(e, x, at)])
      ensures accepted == old(accepted) + [StartedExecution(e, x, at)]
    {
      acceptedExecutions := acceptedExecutions[e := None];
      accepted := accepted + [StartedExecution(e, x, at)];
    }

    method SendExecution(i: nat, j: nat, r: ReadyExecution, now: Time, systemNow: Time)
      requires Valid() && i < |executors| && j < |executors[i].queues| && executors[i].connected
      requires Suitable(executors[i].queues[j], r.jobType, now) && r.execution !in View().held
      modifies this`executors
      ensures executors == OfferedTo(old(executors), i, j, RecordOf(r), now + OFFER_TIMEOUT, systemNow)
      ensures Valid()
      ensures var state := if old(executors[i].handshake) then Offered(now + OFFER_TIMEOUT, systemNow) else Accepted;
              View() == old(View()).(held := old(View()).held[r.execution := Holding(old(executors[i].id), RecordOf(r), state)])
      ensures forall jobType: string ::
                Free(executors, jobType, now) == old(Free(executors, jobType, now)) - if jobType == r.jobType then 1 else 0
    {
      var record := RecordOf(r);
      var ex := executors[i];
      var state := if ex.handshake then Offered(now + OFFER_TIMEOUT, systemNow) else Accepted;
      var q := ex.queues[j].(executions := ex.queues[j].executions + [ExecutorExecution(record, state)]);
      OfferedValid(executors, i, j, record, now + OFFER_TIMEOUT, systemNow);
      OfferedFree(executors, i, j, record, now + OFFER_TIMEOUT, systemNow, now);
      executors := WithQueue(executors[i := Send(ex, ExecutionReady(record))], i, j, q);
    }

    /**
      Offers an execution to one of the executors that can be reached and have a queue for its type with room
      and no backoff, if there are any.
     */
    method OfferToSome(r: ReadyExecution, now: Time, systemNow: Time) returns (offered: bool, ghost to: Assignment)
      requires Valid() && r.execution !in View().held
      modifies this
      ensures Valid()
      ensures offered <==> old(Free(executors, r.jobType, now)) > 0
      ensures offered <==>
                exists i, j :: 0 <= i < |old(executors)| && 0 <= j < |old(executors)[i].queues|
                  && old(executors)[i].connected && old(executors)[i].queues[j].jobType == r.jobType
                  && |old(executors)[i].queues[j].executions| < old(executors)[i].queues[j].maxExecutions
                  && (old(executors)[i].queues[j].backoffUntil.Some? ==>
                        old(executors)[i].queues[j].backoffUntil.value <= now)
      ensures if offered
              then && to.record == RecordOf(r) && to.executor in old(View()).live
                   && View() == Offer(old(View()), to.record, to.executor, to.handshake, now + OFFER_TIMEOUT, systemNow)
              else View() == old(View())
      ensures AreSent(old(executors), executors, if offered then [to] else [])
      ensures forall jobType: string ::
                Free(executors, jobType, now)
                == old(Free(executors, jobType, now)) - if offered && jobType == r.jobType then 1 else 0
    {
      FreeIfRoom(executors, r.jobType, now);
      offered, to := OfferShuffled(r, now, systemNow);
    }

    /** The first of the shuffled executors that has capacity and can be reached. */
    method OfferShuffled(r: ReadyExecution, now: Time, systemNow: Time) returns (offered: bool, ghost to: Assignment)
      requires Valid() && r.execution !in View().held
      modifies this
      ensures Valid()
      ensures offered <==> old(Free(executors, r.jobType, now)) > 0
      ensures if offered
              then && to.record == RecordOf(r) && to.executor in old(View()).live
                   && View() == Offer(old(View()), to.record, to.executor, to.handshake, now + OFFER_TIMEOUT, systemNow)
              else View() == old(View())
      ensures AreSent(old(executors), executors, if offered then [to] else [])
      ensures forall jobType: string ::
                Free(executors, jobType, now)
                == old(Free(executors, jobType, now)) - if offered && jobType == r.jobType then 1 else 0
    {
      var order := Shuffle(|executors|);
      for n := 0 to |order|
        invariant executors == old(executors) && acceptedExecutions == old(acceptedExecutions)
        invariant accepted == old(accepted) && events == old(events)
        invariant forall m :: 0 <= m < n ==> order[m] < |executors| && FreeAt(executors[order[m]], r.jobType, now) == 0
      {
        ShuffledIndex(order, |executors|, order[n]);
        var i := order[n];
        var suitable := FindSuitable(i, r.jobType, now);
        if suitable.Some? && executors[i].connected {
          to := OfferTo(i, suitable.value, r, now, systemNow);
          return true, to;
        }
      }
      forall i | 0 <= i < |executors| ensures FreeAt(executors[i], r.jobType, now) == 0 {
        ShuffledIndex(order, |executors|, i);
        var m :| 0 <= m < |order| && order[m] == i;
      }
      NoneFree(executors, r.jobType, now);
      NothingIsSent(executors);
      return false, Assignment(RecordOf(r), 0, false);
    }

    method OfferTo(i: nat, j: nat, r: ReadyExecution, now: Time, systemNow: Time) returns (ghost to: Assignment)
      requires Valid() && i < |executors| && j < |executors[i].queues| && executors[i].connected
      requires Suitable(executors[i].queues[j], r.jobType, now) && r.execution !in View().held
      modifies this
      ensures Valid() && old(Free(executors, r.jobType, now)) > 0
      ensures to == Assignment(RecordOf(r), old(executors[i].id), old(executors[i].handshake)) && to.executor in old(View()).live
      ensures View() == Offer(old(View()), to.record, to.executor, to.handshake, now + OFFER_TIMEOUT, systemNow)
      ensures AreSent(old(executors), executors, [to])
      ensures forall jobType: string ::
                Free(executors, jobType, now) == old(Free(executors, jobType, now)) - if jobType == r.jobType then 1 else 0
    {
      to := Assignment(RecordOf(r), executors[i].id, executors[i].handshake);
      RoomIsFree(executors, i, j, r.jobType, now);
      ghost var before := executors;
      OfferAt(i, j, r, now, systemNow);
      SentToOne(before, executors, i, to);
    }

    /**
      Tries to offer ready executions, which were fetched from the backend after `fetchedAt`.
      Whatever the order of the executors, those offered are the ones chosen by job type and capacity.
     */
    method TryOffer(batch: seq<ReadyExecution>, fetchedAt: Time, now: Time, systemNow: Time)
      returns (offeredCount: nat, notOffered: seq<ExecutionId>, ghost offers: seq<Assignment>)
      requires Valid()
      requires DistinctIds(batch)
      modifies this
      ensures Valid()
      ensures OfferedFrom(old(View()), batch, fetchedAt, offers, now + OFFER_TIMEOUT, systemNow, View())
      ensures ChosenSoFar(batch, HeldIds(Purge(old(View()), fetchedAt)), FreeMap(old(executors), now), old(View()).live,
                          offers, notOffered, FreeMap(executors, now))
      ensures offeredCount == |offers| && offeredCount + |notOffered| == |batch|
      ensures AreSent(old(executors), executors, offers)
    {
      ghost var held := HeldIds(Purge(View(), fetchedAt));
      NothingChosenYet(held, executors, now, View().live);
      if batch == [] {
        assert OfferedIds([]) == {};
        NothingIsSent(executors);
        return 0, [], [];
      }
      PurgeStarted(fetchedAt);
      HeldExecutionIdsAre(executors);
      offeredCount, notOffered, offers := OfferEach(batch, HeldExecutionIds(executors) + acceptedExecutions.Keys, now, systemNow);
      OfferedAreNotPurged(Purge(old(View()), fetchedAt), offers, now + OFFER_TIMEOUT, systemNow, fetchedAt);
      CountsAddUp(batch, held, FreeMap(old(executors), now), old(View()).live, offers, notOffered, FreeMap(executors, now));
    }

    /** Executions that were started before the ready ones were fetched are not returned by the backend anymore. */
    method PurgeStarted(fetchedAt: Time)
      requires Valid()
      modifies this`acceptedExecutions
      ensures Valid() && View() == Purge(old(View()), fetchedAt)
    {
      acceptedExecutions := map e | e in acceptedExecutions
        && (acceptedExecutions[e].Some? ==> acceptedExecutions[e].value >= fetchedAt) :: acceptedExecutions[e];
    }

    /** Offers one execution of the batch, if nobody holds it. */
    method OfferOne(batch: seq<ReadyExecution>, i: nat, heldExecutionIds: set<ExecutionId>, now: Time, systemNow: Time,
                    ghost v: PoolView, ghost free: string -> nat, ghost before: seq<Executor>,
                    ghost offersBefore: seq<Assignment>, offeredCountBefore: nat, notOfferedBefore: seq<ExecutionId>)
      returns (offeredCount: nat, notOffered: seq<ExecutionId>, ghost offers: seq<Assignment>)
      requires Valid() && i < |batch| && offeredCountBefore == |offersBefore|
      requires DistinctIds(batch)
      requires ChosenSoFar(batch[..i], heldExecutionIds, free, v.live, offersBefore, notOfferedBefore, FreeMap(executors, now))
      requires OfferedSoFar(v, heldExecutionIds, offersBefore, now + OFFER_TIMEOUT, systemNow, View())
      requires AreSent(before, executors, offersBefore)
      modifies this
      ensures Valid() && offeredCount == |offers|
      ensures ChosenSoFar(batch[..i + 1], heldExecutionIds, free, v.live, offers, notOffered, FreeMap(executors, now))
      ensures OfferedSoFar(v, heldExecutionIds, offers, now + OFFER_TIMEOUT, systemNow, View())
      ensures AreSent(before, executors, offers)
    {
      ghost var view, left, was := View(), FreeMap(executors, now), executors;
      NotHeldYet(batch, i, heldExecutionIds, free, v, offersBefore, notOfferedBefore, left, now + OFFER_TIMEOUT, systemNow, view);
      var offered;
      ghost var to;
      offered, to := OfferUnheld(batch[i], heldExecutionIds, now, systemNow);
      OneNext(batch, i, heldExecutionIds, free, v, now + OFFER_TIMEOUT, systemNow, offersBefore, notOfferedBefore,
              left, view, offered, to, FreeMap(executors, now), View());
      OneSent(before, was, executors, offersBefore, offered, to);
      offeredCount := if offered then offeredCountBefore + 1 else offeredCountBefore;
      notOffered := if offered then notOfferedBefore else notOfferedBefore + [batch[i].execution];
      offers := if offered then offersBefore + [to] else offersBefore;
    }

    method OfferUnheld(r: ReadyExecution, heldExecutionIds: set<ExecutionId>, now: Time, systemNow: Time)
      returns (offered: bool, ghost to: Assignment)
      requires Valid() && (r.execution !in heldExecutionIds ==> r.execution !in View().held)
      modifies this
      ensures Valid()
      ensures offered <==> r.execution !in heldExecutionIds && old(Free(executors, r.jobType, now)) > 0
      ensures if offered
              then && to.record == RecordOf(r) && to.executor in old(View()).live
                   && View() == Offer(old(View()), to.record, to.executor, to.handshake, now + OFFER_TIMEOUT, systemNow)
              else View() == old(View())
      ensures AreSent(old(executors), executors, if offered then [to] else [])
      ensures forall jobType: string ::
                Free(executors, jobType, now)
                == old(Free(executors, jobType, now)) - if offered && jobType == r.jobType then 1 else 0
    {
      offered, to := false, Assignment(RecordOf(r), 0, false);
      if r.execution !in heldExecutionIds {
        offered, to := OfferToSome(r, now, systemNow);
      } else {
        NothingIsSent(executors);
      }
    }

    method OfferEach(batch: seq<ReadyExecution>, heldExecutionIds: set<ExecutionId>, now: Time, systemNow: Time)
      returns (offeredCount: nat, notOffered: seq<ExecutionId>, ghost offers: seq<Assignment>)
      requires Valid() && heldExecutionIds == HeldIds(View())
      requires DistinctIds(batch)
      modifies this
      ensures Valid()
      ensures ChosenSoFar(batch, heldExecutionIds, FreeMap(old(executors), now), old(View()).live,
                          offers, notOffered, FreeMap(executors, now))
      ensures OfferedSoFar(old(View()), heldExecutionIds, offers, now + OFFER_TIMEOUT, systemNow, View())
      ensures offeredCount == |offers| && AreSent(old(executors), executors, offers)
    {
      ghost var free := FreeMap(executors, now);
      ghost var v := View();
      NothingChosenYet(heldExecutionIds, executors, now, v.live);
      NothingOfferedYet(v, now + OFFER_TIMEOUT, systemNow);
      assert batch[..0] == [];
      offeredCount, notOffered, offers := OfferLoop(batch, heldExecutionIds, now, systemNow, v, free);
      assert batch[..|batch|] == batch;
    }

    method OfferLoop(batch: seq<ReadyExecution>, heldExecutionIds: set<ExecutionId>, now: Time, systemNow: Time,
                     ghost v: PoolView, ghost free: string -> nat)
      returns (offeredCount: nat, notOffered: seq<ExecutionId>, ghost offers: seq<Assignment>)
      requires Valid()
      requires DistinctIds(batch)
      requires ChosenSoFar(batch[..0], heldExecutionIds, free, v.live, [], [], FreeMap(executors, now))
      requires OfferedSoFar(v, heldExecutionIds, [], now + OFFER_TIMEOUT, systemNow, View())
      modifies this
      ensures Valid() && offeredCount == |offers| && AreSent(old(executors), executors, offers)
      ensures ChosenSoFar(batch[..|batch|], heldExecutionIds, free, v.live, offers, notOffered, FreeMap(executors, now))
      ensures OfferedSoFar(v, heldExecutionIds, offers, now + OFFER_TIMEOUT, systemNow, View())
    {
      offeredCount, notOffered, offers := 0, [], [];
      ghost var before := executors;
      NothingIsSent(executors);
      for i := 0 to |batch|
        invariant Valid() && offeredCount == |offers| && AreSent(before, executors, offers)
        invariant ChosenSoFar(batch[..i], heldExecutionIds, free, v.live, offers, notOffered, FreeMap(executors, now))
        invariant OfferedSoFar(v, heldExecutionIds, offers, now + OFFER_TIMEOUT, systemNow, View())
      {
        offeredCount, notOffered, offers :=
          OfferOne(batch, i, heldExecutionIds, now, systemNow, v, free, before, offers, offeredCount, notOffered);
      }
    }

    // ---- Messages of an executor, and other events of its loop.

    method FindExecution(i: nat, e: ExecutionId) returns (found: Option<(nat, nat)>)
      requires i < |executors|
      ensures found.Some? ==> HeldAt(executors[i], found.value.0, found.value.1, e)
      ensures found.None? ==> forall j: nat, k: nat :: !HeldAt(executors[i], j, k, e)
    {
      var ex := executors[i];
      for j := 0 to |ex.queues|
        invariant forall m: nat, k: nat :: m < j ==> !HeldAt(ex, m, k, e)
      {
        for k := 0 to |ex.queues[j].executions|
          invariant forall m: nat :: m < k ==> !HeldAt(ex, j, m, e)
        {
          if ex.queues[j].executions[k].record.execution == e {
            return Some((j, k));
          }
        }
      }
      return None;
    }

    /** The executor holds the execution. */
    ghost predicate Holds(i: nat, e: ExecutionId)
      reads this
      requires Valid() && i < |executors|
    {
      e in View().held && View().held[e].executor == executors[i].id
    }

    method RemoveAt(i: nat, j: nat, k: nat) returns (execution: ExecutorExecution)
      requires Valid() && i < |executors| && j < |executors[i].queues| && k < |executors[i].queues[j].executions|
      modifies this`executors
      ensures execution == old(executors[i].queues[j].executions[k])
      ensures executors == WithQueue(old(executors), i, j,
                             old(executors[i].queues[j]).(executions := SwapRemove(old(executors[i].queues[j].executions), k)))
      ensures Valid() && View() == Release(old(View()), {execution.record.execution})
    {
      var q := executors[i].queues[j];
      execution := q.executions[k];
      var rest := q.(executions := SwapRemove(q.executions, k));
      QueueIsValid(executors, i, j);
      RemovedValid(executors, i, j, k, rest);
      executors := WithQueue(executors, i, j, rest);
    }

    method SendCancelled(i: nat, e: ExecutionId)
      requires Valid() && i < |executors|
      modifies this`executors
      ensures executors == old(executors)[i := Send(old(executors[i]), ExecutionCancelled(e))]
      ensures Valid() && View() == old(View())
    {
      SentValid(executors, i, ExecutionCancelled(e));
      executors := executors[i := Send(executors[i], ExecutionCancelled(e))];
    }

    /** Removes an executor, the executions it accepted are sent as its results. */
    method DropExecutor(i: nat)
      requires Valid() && i < |executors|
      modifies this`executors, this`events
      ensures Valid()
      ensures AssignedTo(old(View()), old(executors[i].id), Assigned(old(executors[i].queues)))
      ensures View() == Drop(old(View()), old(executors[i].id), Assigned(old(executors[i].queues)))
      ensures executors == SwapRemove(old(executors), i) && events == old(events) + [ExecutorDisconnected(old(executors[i]))]
    {
      DroppedValid(executors, i);
      DroppedAssigned(executors, i, View());
      DroppedView(executors, acceptedExecutions, accepted, events, i);
      events := events + [ExecutorDisconnected(executors[i])];
      executors := SwapRemove(executors, i);
    }

    /** Finds the executor of a message, which is dropped if it cannot be reached. */
    method Receive(x: ExecutorId) returns (found: Option<nat>, ghost dropped: seq<Record>)
      requires Valid()
      modifies this`executors, this`events
      ensures Valid()
      ensures found.Some? ==> executors == old(executors) && View() == old(View()) && found.value < |executors|
                              && executors[found.value].id == x && executors[found.value].connected
      ensures x !in old(View()).live ==> found.None? && View() == old(View())
      ensures found.None? && x in old(View()).live ==>
                && (exists i :: 0 <= i < |old(executors)| && old(executors)[i].id == x && !old(executors)[i].connected)
                && AssignedTo(old(View()), x, dropped) && View() == Drop(old(View()), x, dropped)
    {
      dropped := [];
      found := ExecutorExists(x);
      if found.Some? && !executors[found.value].connected {
        dropped := Assigned(executors[found.value].queues);
        DropExecutor(found.value);
        found := None;
      }
    }

    /** The executor is initialized once, until then it has no queues. */
    method Capabilities(i: nat, handshake: bool, queues: Option<seq<(string, nat)>>) returns (closed: bool)
      requires Valid() && i < |executors|
      modifies this`executors, this`events
      ensures Valid()
      ensures closed <==> old(executors[i].initialized) || queues.None?
      ensures closed ==>
                && View() == Drop(old(View()), old(executors[i].id), Assigned(old(executors[i].queues)))
                && events == old(events) + [ExecutorDisconnected(old(executors[i]))]
      ensures !closed ==>
                && View() == old(View())
                && events == old(events) + (if queues.value == [] then [] else [JobTypesAdded(set q | q in queues.value :: q.0)])
                && executors == old(executors)[i := old(executors[i]).(queues := NewQueues(queues.value),
                                                                       initialized := true, handshake := handshake)]
                && |executors[i].queues| == |queues.value|
                && forall j {:trigger executors[i].queues[j]} :: 0 <= j < |queues.value| ==>
                     var q := executors[i].queues[j];
                     && q.jobType == queues.value[j].0 && q.maxExecutions == queues.value[j].1
                     && q.executions == [] && q.backoffUntil.None? && q.consecutiveRejections == 0
    {
      if executors[i].initialized || queues.None? {
        DropExecutor(i);
        return true;
      }
      AnnouncedTypes(queues.value);
      StartQueues(i, handshake, queues.value);
      return false;
    }

    method StartQueues(i: nat, handshake: bool, queues: seq<(string, nat)>)
      requires Valid() && i < |executors| && !executors[i].initialized
      modifies this`executors, this`events
      ensures Valid() && View() == old(View()) && events == old(events) + Announced(JobTypesOf(queues))
      ensures executors == old(executors)[i := old(executors[i]).(queues := NewQueues(queues),
                                                                  initialized := true, handshake := handshake)]
    {
      UninitializedIsEmpty(executors, i);
      SendJobTypes(JobTypesOf(queues));
      Initialize(i, handshake, NewQueues(queues));
    }

    method SendJobTypes(jobTypes: set<string>)
      requires Valid()
      modifies this`events
      ensures Valid() && View() == old(View()) && events == old(events) + Announced(jobTypes)
    {
      if jobTypes != {} {
        NoResults(events, jobTypes);
        events := events + [JobTypesAdded(jobTypes)];
      }
    }

    method Initialize(i: nat, handshake: bool, jobQueues: seq<JobQueue>)
      requires Valid() && i < |executors| && executors[i].queues == []
      requires forall j :: 0 <= j < |jobQueues| ==> jobQueues[j].executions == []
      modifies this`executors
      ensures executors == old(executors)[i := old(executors[i]).(queues := jobQueues, initialized := true, handshake := handshake)]
      ensures Valid() && View() == old(View())
    {
      var ex := executors[i].(queues := jobQueues, initialized := true, handshake := handshake);
      InitializedValid(executors, i, ex);
      executors := executors[i := ex];
    }

    /** An executor accepts an offer, unless it was withdrawn: then the executor is told not to run it. */
    method ExecutionAccepted(i: nat, e: ExecutionId, shuttingDown: bool) returns (ghost at: Option<(nat, nat)>)
      requires Valid() && i < |executors|
      modifies this`executors, this`acceptedExecutions, this`accepted
      ensures Valid()
      ensures at.Some? <==> old(Holds(i, e)) && old(View()).held[e].state.Offered?
      ensures View() == if at.None? then old(View())
                        else if shuttingDown then Release(old(View()), {e})
                        else AcceptOffer(old(View()), e)
      ensures at.Some? && !shuttingDown ==>
                && HeldAt(old(executors[i]), at.value.0, at.value.1, e)
                && executors == AcceptedAt(old(executors), i, at.value.0, at.value.1)
      ensures at.Some? && !shuttingDown ==>
                && old(executors[i].queues[at.value.0].executions[at.value.1]).state.Offered?
                && accepted == old(accepted) + [StartedExecution(e, old(executors[i].id),
                                 old(executors[i].queues[at.value.0].executions[at.value.1]).state.offeredAt)]
      ensures at.None? || shuttingDown ==> accepted == old(accepted)
      ensures at.Some? && shuttingDown ==>
                && HeldAt(old(executors[i]), at.value.0, at.value.1, e)
                && executors == CancelledAt(old(executors), i, at.value.0, at.value.1)
      ensures at.None? ==>
                executors == if old(Holds(i, e)) then old(executors)
                             else old(executors)[i := Send(old(executors[i]), ExecutionCancelled(e))]
    {
      at := None;
      var found := FindExecution(i, e);
      if found.None? {
        NotFoundIsNotHeld(executors, i, e);
        SendCancelled(i, e);
        return;
      }
      var j, k := found.value.0, found.value.1;
      HeldAtIs(executors, i, j, k);
      if executors[i].queues[j].executions[k].state.Accepted? {
        return;
      }
      at := found;
      if shuttingDown {
        CancelAt(i, j, k);
      } else {
        AcceptAt(i, j, k, e);
      }
    }

    /** The offer is accepted, and the execution sent to be started. */
    method AcceptAt(i: nat, j: nat, k: nat, e: ExecutionId)
      requires Valid() && i < |executors| && HeldAt(executors[i], j, k, e)
      requires var execution := executors[i].queues[j].executions[k];
               && execution.state.Offered?
               && e in View().held && View().held[e] == Holding(executors[i].id, execution.record, execution.state)
      modifies this`executors, this`acceptedExecutions, this`accepted
      ensures executors == AcceptedAt(old(executors), i, j, k)
      ensures Valid() && View() == AcceptOffer(old(View()), e)
      ensures accepted == old(accepted) + [StartedExecution(e, old(executors[i].id),
                                                            old(executors[i].queues[j].executions[k]).state.offeredAt)]
    {
      var execution := executors[i].queues[j].executions[k];
      MarkAccepted(i, j, k);
      SendAccepted(e, executors[i].id, execution.state.offeredAt);
    }

    method MarkAccepted(i: nat, j: nat, k: nat)
      requires Valid() && i < |executors| && j < |executors[i].queues| && k < |executors[i].queues[j].executions|
      modifies this`executors
      ensures executors == AcceptedAt(old(executors), i, j, k)
      ensures Valid()
      ensures var r := old(executors[i].queues[j].executions[k].record);
              View() == old(View()).(held := old(View()).held[r.execution := Holding(old(executors[i].id), r, Accepted)])
    {
      var q := executors[i].queues[j];
      var changed := QueueAccepted(q.(executions := q.executions[k := q.executions[k].(state := Accepted)]));
      QueueIsValid(executors, i, j);
      ChangedValid(executors, i, j, k, Accepted, changed);
      executors := WithQueue(executors, i, j, changed);
    }

    method CancelAt(i: nat, j: nat, k: nat)
      requires Valid() && i < |executors| && j < |executors[i].queues| && k < |executors[i].queues[j].executions|
      modifies this`executors
      ensures executors == CancelledAt(old(executors), i, j, k)
      ensures Valid() && View() == Release(old(View()), {old(executors[i].queues[j].executions[k].record.execution)})
    {
      var execution := RemoveAt(i, j, k);
      SendCancelled(i, execution.record.execution);
    }

    /** An executor rejects an offer, its queue is not offered executions for a while. */
    method ExecutionRejected(i: nat, e: ExecutionId, now: Time) returns (ghost at: Option<(nat, nat)>)
      requires Valid() && i < |executors|
      modifies this`executors
      ensures Valid()
      ensures at.Some? <==> old(Holds(i, e)) && old(View()).held[e].state.Offered?
      ensures View() == if at.Some? then Release(old(View()), {e}) else old(View())
      ensures at.None? ==> executors == old(executors)
      ensures at.Some? ==>
                && HeldAt(old(executors[i]), at.value.0, at.value.1, e)
                && var q := old(executors)[i].queues[at.value.0];
                   executors == WithQueue(old(executors), i, at.value.0,
                     QueueRejected(q.(executions := SwapRemove(q.executions, at.value.1)), now))
    {
      at := None;
      var found := FindExecution(i, e);
      if found.None? {
        NotFoundIsNotHeld(executors, i, e);
        return;
      }
      var j, k := found.value.0, found.value.1;
      HeldAtIs(executors, i, j, k);
      var q := executors[i].queues[j];
      if q.executions[k].state.Accepted? {
        return;
      }
      at := found;
      var changed := QueueRejected(q.(executions := SwapRemove(q.executions, k)), now);
      QueueIsValid(executors, i, j);
      RemovedValid(executors, i, j, k, changed);
      executors := WithQueue(executors, i, j, changed);
    }

    /**
      An executor reports a result, `timestamp` being `None` if it is invalid. The execution is removed
      before that is noticed, and the executor's loop ends then.
     */
    method ExecutionCompleted(i: nat, e: ExecutionId, result: ExecutionResult, timestamp: Option<Time>, now: Time)
      returns (closed: bool)
      requires Valid() && i < |executors|
      modifies this`executors, this`events
      ensures Valid()
      ensures closed <==> old(Holds(i, e)) && old(View()).held[e].state.Accepted? && timestamp.None?
      ensures !old(Holds(i, e)) ==> View() == old(View()) && events == old(events)
      ensures old(Holds(i, e)) ==> View() == if closed then Release(old(View()), {e}) else Complete(old(View()), e)
      ensures old(Holds(i, e)) && old(View()).held[e].state.Accepted? && timestamp.Some? ==>
                events == old(events) + [ExecutionFinished(old(View()).held[e].record, result, Min(timestamp.value, now))]
    {
      var found := FindExecution(i, e);
      if found.None? {
        NotFoundIsNotHeld(executors, i, e);
        return false;
      }
      HeldAtIs(executors, i, found.value.0, found.value.1);
      var execution := RemoveAt(i, found.value.0, found.value.1);
      if execution.state.Offered? {
        return false;
      }
      if timestamp.None? {
        return true;
      }
      var event := ExecutionFinished(execution.record, result, Min(timestamp.value, now));
      ResultsNext(events, event);
      events := events + [event];
      return false;
    }

    // ---- Cancelling, and recording starts.

    /** Takes executions from whichever executors hold them, and tells these, once each, not to run them. */
    method CancelExecutionIds(ids: seq<ExecutionId>)
      requires Valid()
      modifies this`executors
      ensures Valid() && View() == Release(old(View()), Ids(ids))
      ensures AreTold(old(executors), executors, old(View()), ids)
    {
      ghost var v, before := View(), executors;
      ReleaseNone(v);
      assert ids[..0] == [];
      NobodyIsTold(executors, v);
      for n := 0 to |ids|
        invariant Valid() && View() == Release(v, Ids(ids[..n])) && AreTold(before, executors, v, ids[..n])
      {
        ghost var was := executors;
        var found := CancelOne(ids[n]);
        if found.Some? {
          CancelledIsTold(before, was, v, ids, n, found.value.0, found.value.1, found.value.2);
        } else {
          UnheldIsNotTold(before, was, v, ids, n);
        }
        IdsNext(ids, n);
        ReleaseMore(v, Ids(ids[..n]), ids[n]);
      }
      assert ids[..|ids|] == ids;
    }

    method CancelOne(e: ExecutionId) returns (found: Option<(nat, nat, nat)>)
      requires Valid()
      modifies this`executors
      ensures Valid() && View() == Release(old(View()), {e})
      ensures found.Some? <==> e in old(View()).held
      ensures found.None? ==> executors == old(executors)
      ensures found.Some? ==>
                && found.value.0 < |old(executors)| && HeldAt(old(executors)[found.value.0], found.value.1, found.value.2, e)
                && executors == CancelledAt(old(executors), found.value.0, found.value.1, found.value.2)
    {
      found := FindHolder(e);
      if found.Some? {
        HeldAtIs(executors, found.value.0, found.value.1, found.value.2);
        CancelAt(found.value.0, found.value.1, found.value.2);
      } else {
        assert View().held - {e} == View().held;
      }
    }

    method FindHolder(e: ExecutionId) returns (found: Option<(nat, nat, nat)>)
      requires Valid()
      ensures found.Some? ==> found.value.0 < |executors| && HeldAt(executors[found.value.0], found.value.1, found.value.2, e)
      ensures found.None? ==> e !in View().held
    {
      for i := 0 to |executors|
        invariant forall n: nat, j: nat, k: nat :: n < i ==> !HeldAt(executors[n], j, k, e)
      {
        var at := FindExecution(i, e);
        if at.Some? {
          return Some((i, at.value.0, at.value.1));
        }
      }
      if e in View().held {
        var i, j, k := HeldIsSomewhere(executors, e);
      }
      return None;
    }

    method AcceptedExecutionsStarted(ids: seq<ExecutionId>, now: Time)
      requires Valid()
      modifies this`acceptedExecutions
      ensures Valid() && View() == MarkStarted(old(View()), Ids(ids), now)
      ensures acceptedExecutions.Keys == old(acceptedExecutions).Keys
      ensures forall e :: e in acceptedExecutions ==>
                acceptedExecutions[e] == if e in ids then Some(now) else old(acceptedExecutions)[e]
    {
      for n := 0 to |ids|
        invariant acceptedExecutions == MarkStarted(old(View()), Ids(ids[..n]), now).accepted
      {
        if ids[n] in acceptedExecutions {
          acceptedExecutions := acceptedExecutions[ids[n] := Some(now)];
        }
        IdsNext(ids, n);
      }
      assert ids[..|ids|] == ids;
    }

    /** Whether any of the executions is still waiting to be started. */
    method StartPending(ids: seq<ExecutionId>) returns (pending: bool)
      requires Valid()
      ensures pending <==> exists e :: e in ids && e in View().accepted && View().accepted[e].None?
    {
      for n := 0 to |ids|
        invariant forall m :: 0 <= m < n ==> !(ids[m] in acceptedExecutions && acceptedExecutions[ids[m]].None?)
      {
        if ids[n] in acceptedExecutions && acceptedExecutions[ids[n]].None? {
          assert ids[n] in ids;
          return true;
        }
      }
      return false;
    }

    /** Forgets accepted executions that could not be started, so that they can be offered again. */
    method AcceptedExecutionsNotStarted(ids: seq<ExecutionId>)
      requires Valid()
      modifies this`acceptedExecutions
      ensures Valid() && View() == old(View()).(accepted := old(acceptedExecutions) - Ids(ids))
    {
      for n := 0 to |ids|
        invariant acceptedExecutions == old(acceptedExecutions) - Ids(ids[..n])
      {
        acceptedExecutions := acceptedExecutions - {ids[n]};
        IdsNext(ids, n);
      }
      assert ids[..|ids|] == ids;
    }

    /** Executions that are offered, or were accepted but not yet started: these must not be fetched again. */
    method InFlightExecutionIds() returns (ids: set<ExecutionId>)
      requires Valid()
      ensures ids == InFlight(View())
      ensures forall e :: e in ids <==>
                || (e in View().held && View().held[e].state.Offered?)
                || (e in acceptedExecutions && acceptedExecutions[e].None?)
    {
      OfferedExecutionIdsAre(executors);
      ids := OfferedExecutionIds(executors) + set e | e in acceptedExecutions && acceptedExecutions[e].None?;
    }

    /** Withdraws the offers of one queue, expired ones count as a rejection. */
    method WithdrawQueue(i: nat, j: nat, expiredAt: Option<Time>, now: Time) returns (withdrawn: nat, ghost gone: set<ExecutionId>)
      requires Valid() && i < |executors| && j < |executors[i].queues|
      modifies this`executors
      ensures Valid()
      ensures executors == WithdrawnAt(old(executors), i, j, expiredAt, now)
      ensures View() == Release(old(View()), gone) && gone <= WithdrawnIds(old(View()), old(executors[i].id), expiredAt)
      ensures withdrawn == |Removed(old(executors[i].queues[j].executions), expiredAt)|
    {
      var removed;
      removed, gone := RetainQueue(i, j, expiredAt, now);
      SendCancellations(i, removed);
      return |removed|, gone;
    }

    method RetainQueue(i: nat, j: nat, expiredAt: Option<Time>, now: Time)
      returns (removed: seq<ExecutorExecution>, ghost gone: set<ExecutionId>)
      requires Valid() && i < |executors| && j < |executors[i].queues|
      modifies this`executors
      ensures Valid()
      ensures executors == WithQueue(old(executors), i, j, WithdrawnQueue(old(executors[i].queues[j]), expiredAt, now))
      ensures View() == Release(old(View()), gone) && gone <= WithdrawnIds(old(View()), old(executors[i].id), expiredAt)
      ensures removed == Removed(old(executors[i].queues[j].executions), expiredAt)
    {
      var q := executors[i].queues[j];
      removed := Removed(q.executions, expiredAt);
      QueueIsValid(executors, i, j);
      WithdrawnAreHeld(executors, i, j, expiredAt, View());
      gone := ExecutionsIn(multiset(AsHoldings(executors[i].id, removed)));
      var retained := q.(executions := Retained(q.executions, expiredAt));
      var changed := if |removed| > 0 && expiredAt.Some? then QueueRejected(retained, now) else retained;
      RetainedValid(executors, i, j, expiredAt, changed);
      executors := WithQueue(executors, i, j, changed);
    }

    method SendCancellations(i: nat, executions: seq<ExecutorExecution>)
      requires Valid() && i < |executors|
      modifies this`executors
      ensures Valid() && View() == old(View())
      ensures executors == old(executors)[i := SendAll(old(executors[i]), Cancellations(executions))]
    {
      ghost var v, before := View(), executors;
      NothingSent(before, i, executions);
      for n := 0 to |executions|
        invariant Valid() && View() == v && SentUpTo(before, i, executions, n, executors)
      {
        SentNext(before, i, executions, n, executors);
        SendCancelled(i, executions[n].record.execution);
      }
      assert executions[..|executions|] == executions;
    }

    /**
      Withdraws the offers that an executor has not answered, only expired ones if a time is given, tells it so
      and counts them. What it accepted stays, as do the other executors.
     */
    method WithdrawOffers(i: nat, expiredAt: Option<Time>, now: Time) returns (withdrawnCount: nat)
      requires Valid() && i < |executors|
      modifies this`executors
      ensures Valid()
      ensures View() == Release(old(View()), WithdrawnIds(old(View()), old(executors[i].id), expiredAt))
      ensures withdrawnCount == |AllRemoved(old(executors[i].queues), expiredAt)|
      ensures executors == old(executors)[i := WithdrawnFrom(old(executors[i]), expiredAt, now)]
    {
      ghost var v, x, gone := View(), executors[i].id, Ids([]);
      withdrawnCount, gone := WithdrawQueues(i, expiredAt, now);
      NoneLeft(executors, i, expiredAt, View());
      AllWithdrawn(v, x, expiredAt, gone);
    }

    method WithdrawQueues(i: nat, expiredAt: Option<Time>, now: Time) returns (withdrawnCount: nat, ghost gone: set<ExecutionId>)
      requires Valid() && i < |executors|
      modifies this`executors
      ensures Valid()
      ensures View() == Release(old(View()), gone) && gone <= WithdrawnIds(old(View()), old(executors[i].id), expiredAt)
      ensures withdrawnCount == |AllRemoved(old(executors[i].queues), expiredAt)|
      ensures executors == old(executors)[i := WithdrawnFrom(old(executors[i]), expiredAt, now)]
    {
      ghost var v, before := View(), executors;
      var queueCount := |executors[i].queues|;
      withdrawnCount, gone := 0, Ids([]);
      ReleaseNone(v);
      WithdrawalBegins(before, i, expiredAt, now);
      for j := 0 to queueCount
        invariant Valid() && WithdrawnUpTo(before, i, j, expiredAt, now, executors)
        invariant View() == Release(v, gone) && gone <= WithdrawnIds(v, before[i].id, expiredAt)
        invariant withdrawnCount == |AllRemoved(before[i].queues[..j], expiredAt)|
      {
        var count;
        ghost var more;
        WithdrawalNext(before, i, j, expiredAt, now, executors);
        count, more := WithdrawQueue(i, j, expiredAt, now);
        WithdrawnNext(v, before[i].id, expiredAt, gone, more);
        gone := gone + more;
        withdrawnCount := withdrawnCount + count;
      }
      WithdrawalEnds(before, i, expiredAt, now, executors);
    }

    /**
      One pass over the stream of ready executions, which ends early if the executors are saturated. It does
      what offering the first `count` batches as one would do, which is what offering all of them would do.
     */
    method OfferPass(batches: seq<seq<ReadyExecution>>, fetchedAt: Time, now: Time, systemNow: Time)
      returns (ignored: seq<ExecutionId>, saturated: bool, ghost count: nat, ghost offers: seq<Assignment>)
      requires Valid() && DistinctIds(Concat(batches))
      modifies this
      ensures Valid() && count <= |batches|
      ensures PassSoFar(batches, count, old(View()), FreeMap(old(executors), now), fetchedAt, now, systemNow,
                        offers, ignored, FreeMap(executors, now), View())
      ensures Offers(Chosen(Concat(batches), HeldIds(Purge(old(View()), fetchedAt)), FreeMap(old(executors), now)),
                     offers, old(View()).live)
      ensures if saturated then !AnyCapacity(executors, now) && count > 0
              else count == |batches| && (count > 0 ==> AnyCapacity(executors, now))
      ensures |offers| + |ignored| == |Concat(batches[..count])|
      ensures AreSent(old(executors), executors, offers)
    {
      ghost var v, free := View(), FreeMap(executors, now);
      ignored, saturated, count, offers := OfferBatches(batches, fetchedAt, now, systemNow);
      if saturated {
        PassStops(batches, count, v, free, fetchedAt, now, systemNow, offers, ignored, executors, View());
      } else {
        PassEnds(batches, v, free, fetchedAt, now, systemNow, offers, ignored, FreeMap(executors, now), View());
      }
    }

    method OfferBatches(batches: seq<seq<ReadyExecution>>, fetchedAt: Time, now: Time, systemNow: Time)
      returns (ignored: seq<ExecutionId>, saturated: bool, ghost count: nat, ghost offers: seq<Assignment>)
      requires Valid() && DistinctIds(Concat(batches))
      modifies this
      ensures Valid() && count <= |batches|
      ensures PassSoFar(batches, count, old(View()), FreeMap(old(executors), now), fetchedAt, now, systemNow,
                        offers, ignored, FreeMap(executors, now), View())
      ensures if saturated then !AnyCapacity(executors, now) && count > 0
              else count == |batches| && (count > 0 ==> AnyCapacity(executors, now))
      ensures AreSent(old(executors), executors, offers)
    {
      ghost var v, free, before := View(), FreeMap(executors, now), executors;
      NothingIsSent(executors);
      ignored, offers := [], [];
      PassBegins(batches, v, executors, fetchedAt, now, systemNow);
      for n := 0 to |batches|
        invariant n > 0 ==> AnyCapacity(executors, now)
        invariant Valid() && AreSent(before, executors, offers)
        invariant PassSoFar(batches, n, v, free, fetchedAt, now, systemNow, offers, ignored, FreeMap(executors, now), View())
      {
        ignored, offers := OfferBatch(batches, n, fetchedAt, now, systemNow, v, free, before, offers, ignored);
        var capacity := HasCapacity(now);
        if !capacity {
          return ignored, true, n + 1, offers;
        }
      }
      return ignored, false, |batches|, offers;
    }

    method OfferBatch(batches: seq<seq<ReadyExecution>>, n: nat, fetchedAt: Time, now: Time, systemNow: Time,
                      ghost v: PoolView, ghost free: string -> nat, ghost before: seq<Executor>,
                      ghost offersBefore: seq<Assignment>, ignoredBefore: seq<ExecutionId>)
      returns (ignored: seq<ExecutionId>, ghost offers: seq<Assignment>)
      requires Valid() && n < |batches| && DistinctIds(Concat(batches))
      requires PassSoFar(batches, n, v, free, fetchedAt, now, systemNow, offersBefore, ignoredBefore,
                         FreeMap(executors, now), View())
      requires AreSent(before, executors, offersBefore)
      modifies this
      ensures Valid()
      ensures PassSoFar(batches, n + 1, v, free, fetchedAt, now, systemNow, offers, ignored, FreeMap(executors, now), View())
      ensures AreSent(before, executors, offers)
    {
      ghost var view, left, was := View(), FreeMap(executors, now), executors;
      BatchOf(batches, n);
      var offeredCount, notOffered;
      ghost var more;
      offeredCount, notOffered, more := TryOffer(batches[n], fetchedAt, now, systemNow);
      PassNext(batches, n, v, free, fetchedAt, now, systemNow, offersBefore, ignoredBefore, left, view,
               more, notOffered, FreeMap(executors, now), View());
      SentInTurn(before, was, executors, offersBefore, more);
      ignored := ignoredBefore + notOffered;
      offers := offersBefore + more;
    }
  }

  /** What has been chosen from a part of a batch, and the capacity that is left. */
  ghost predicate ChosenSoFar(batch: seq<ReadyExecution>, held: set<ExecutionId>, free: string -> nat, live: set<ExecutorId>,
                              offers: seq<Assignment>, notOffered: seq<ExecutionId>, left: string -> nat) {
    && Offers(Chosen(batch, held, free), offers, live)
    && notOffered == NotChosen(batch, held, free)
    && IsLeft(batch, held, free, left)
  }

  lemma NothingChosenYet(held: set<ExecutionId>, executors: seq<Executor>, now: Time, live: set<ExecutorId>)
    ensures ChosenSoFar([], held, FreeMap(executors, now), live, [], [], FreeMap(executors, now))
  {
  }

  lemma NothingOfferedYet(v: PoolView, deadline: Time, at: Time)
    ensures OfferedSoFar(v, HeldIds(v), [], deadline, at, v)
  {
    assert OfferedIds([]) == {};
  }

  lemma CountsAddUp(batch: seq<ReadyExecution>, held: set<ExecutionId>, free: string -> nat, live: set<ExecutorId>,
                    offers: seq<Assignment>, notOffered: seq<ExecutionId>, left: string -> nat)
    requires ChosenSoFar(batch, held, free, live, offers, notOffered, left)
    ensures |offers| + |notOffered| == |batch|
  {
    ChosenOrNot(batch, held, free);
  }

  /** What the offers so far have changed. */
  ghost predicate OfferedSoFar(v: PoolView, held: set<ExecutionId>, offers: seq<Assignment>, deadline: Time, at: Time,
                               view: PoolView) {
    && view == OfferAll(v, offers, deadline, at) && view.live == v.live
    && HeldIds(view) == held + OfferedIds(offers)
  }

  lemma ChosenNext(batch: seq<ReadyExecution>, i: nat, held: set<ExecutionId>, free: string -> nat, live: set<ExecutorId>,
                   offers: seq<Assignment>, notOffered: seq<ExecutionId>, left: string -> nat, to: Assignment, next: string -> nat)
    requires i < |batch| && ChosenSoFar(batch[..i], held, free, live, offers, notOffered, left)
    requires batch[i].execution !in held && left(batch[i].jobType) > 0
    requires to.record == RecordOf(batch[i]) && to.executor in live
    requires forall jobType: string :: next(jobType) == left(jobType) - if jobType == batch[i].jobType then 1 else 0
    ensures ChosenSoFar(batch[..i + 1], held, free, live, offers + [to], notOffered, next)
  {
    assert left(batch[i].jobType) == Max(0, free(batch[i].jobType) - Demand(batch[..i], held, batch[i].jobType));
    BatchNext(batch, i, held, free);
    LeftNext(batch, i, held, free, left, next, true);
    OffersNext(Chosen(batch[..i], held, free), offers, live, batch[i], to);
  }

  lemma OffersNext(chosen: seq<ReadyExecution>, offers: seq<Assignment>, live: set<ExecutorId>, r: ReadyExecution, to: Assignment)
    requires Offers(chosen, offers, live) && to.record == RecordOf(r) && to.executor in live
    ensures Offers(chosen + [r], offers + [to], live)
  {
  }

  lemma NotChosenNext(batch: seq<ReadyExecution>, i: nat, held: set<ExecutionId>, free: string -> nat, live: set<ExecutorId>,
                      offers: seq<Assignment>, notOffered: seq<ExecutionId>, left: string -> nat, next: string -> nat)
    requires i < |batch| && ChosenSoFar(batch[..i], held, free, live, offers, notOffered, left)
    requires batch[i].execution in held || left(batch[i].jobType) == 0
    requires forall jobType: string :: next(jobType) == left(jobType)
    ensures ChosenSoFar(batch[..i + 1], held, free, live, offers, notOffered + [batch[i].execution], next)
  {
    assert left(batch[i].jobType) == Max(0, free(batch[i].jobType) - Demand(batch[..i], held, batch[i].jobType));
    BatchNext(batch, i, held, free);
    LeftNext(batch, i, held, free, left, next, false);
  }

  lemma NotHeldYet(batch: seq<ReadyExecution>, i: nat, held: set<ExecutionId>, free: string -> nat, v: PoolView,
                   offers: seq<Assignment>, notOffered: seq<ExecutionId>, left: string -> nat,
                   deadline: Time, at: Time, view: PoolView)
    requires i < |batch| && DistinctIds(batch) && ChosenSoFar(batch[..i], held, free, v.live, offers, notOffered, left)
    requires OfferedSoFar(v, held, offers, deadline, at, view)
    ensures batch[i].execution !in held ==> batch[i].execution !in view.held
  {
    NotOfferedYet(batch, i, held, free, offers, v.live);
    assert batch[i].execution in view.held ==> batch[i].execution in HeldIds(view);
  }

  lemma OneSent(before: seq<Executor>, was: seq<Executor>, executors: seq<Executor>, offers: seq<Assignment>,
                offered: bool, to: Assignment)
    requires AreSent(before, was, offers) && AreSent(was, executors, if offered then [to] else [])
    ensures AreSent(before, executors, if offered then offers + [to] else offers)
  {
    SentInTurn(before, was, executors, offers, if offered then [to] else []);
    assert offers + [] == offers;
  }

  /** One more execution of a batch, offered or not. */
  lemma OneNext(batch: seq<ReadyExecution>, i: nat, held: set<ExecutionId>, free: string -> nat, v: PoolView,
                deadline: Time, at: Time, offers: seq<Assignment>, notOffered: seq<ExecutionId>,
                left: string -> nat, view: PoolView, offered: bool, to: Assignment, next: string -> nat, after: PoolView)
    requires i < |batch| && ChosenSoFar(batch[..i], held, free, v.live, offers, notOffered, left)
    requires OfferedSoFar(v, held, offers, deadline, at, view)
    requires offered <==> batch[i].execution !in held && left(batch[i].jobType) > 0
    requires if offered
             then && to.record == RecordOf(batch[i]) && to.executor in v.live
                  && after == Offer(view, to.record, to.executor, to.handshake, deadline, at)
             else after == view
    requires forall jobType: string ::
               next(jobType) == left(jobType) - if offered && jobType == batch[i].jobType then 1 else 0
    ensures var moreOffers := if offered then offers + [to] else offers;
            var more := if offered then notOffered else notOffered + [batch[i].execution];
            && ChosenSoFar(batch[..i + 1], held, free, v.live, moreOffers, more, next)
            && OfferedSoFar(v, held, moreOffers, deadline, at, after)
  {
    if offered {
      ChosenNext(batch, i, held, free, v.live, offers, notOffered, left, to, next);
      OfferedNext(v, held, offers, deadline, at, view, to);
    } else {
      NotChosenNext(batch, i, held, free, v.live, offers, notOffered, left, next);
    }
  }

  lemma OfferedNext(v: PoolView, held: set<ExecutionId>, offers: seq<Assignment>, deadline: Time, at: Time,
                    view: PoolView, to: Assignment)
    requires OfferedSoFar(v, held, offers, deadline, at, view)
    ensures OfferedSoFar(v, held, offers + [to], deadline, at, Offer(view, to.record, to.executor, to.handshake, deadline, at))
  {
    OfferedIdsNext(offers, to);
    assert (offers + [to])[..|offers|] == offers;
    assert HeldIds(Offer(view, to.record, to.executor, to.handshake, deadline, at)) == HeldIds(view) + {to.record.execution};
  }

  function HeldIds(v: PoolView): set<ExecutionId> { v.held.Keys + v.accepted.Keys }

  /** The executions that executors hold. */
  function HeldExecutionIds(executors: seq<Executor>): set<ExecutionId> {
    set i, j, k | 0 <= i < |executors| && 0 <= j < |executors[i].queues| && 0 <= k < |executors[i].queues[j].executions|
      :: executors[i].queues[j].executions[k].record.execution
  }

  lemma HeldExecutionIdsAre(executors: seq<Executor>)
    requires PoolValid(executors)
    ensures HeldExecutionIds(executors) == Held(executors).Keys
  {
    forall e ensures e in HeldExecutionIds(executors) <==> e in Held(executors) {
      if e in HeldExecutionIds(executors) {
        var i, j, k :| 0 <= i < |executors| && 0 <= j < |executors[i].queues| && 0 <= k < |executors[i].queues[j].executions|
          && executors[i].queues[j].executions[k].record.execution == e;
        HeldAtIs(executors, i, j, k);
      }
      if e in Held(executors) {
        var i, j, k := HeldIsSomewhere(executors, e);
      }
    }
  }

  /** The offers are those of the chosen executions, in order. */
  ghost predicate Offers(chosen: seq<ReadyExecution>, offers: seq<Assignment>, live: set<ExecutorId>) {
    && |offers| == |chosen|
    && forall m :: 0 <= m < |chosen| ==> offers[m].record == RecordOf(chosen[m]) && offers[m].executor in live
  }

  lemma BatchNext(batch: seq<ReadyExecution>, i: nat, held: set<ExecutionId>, free: string -> nat)
    requires i < |batch|
    ensures Chosen(batch[..i + 1], held, free)
         == Chosen(batch[..i], held, free) + if IsChosen(batch, held, free, i) then [batch[i]] else []
    ensures NotChosen(batch[..i + 1], held, free)
         == NotChosen(batch[..i], held, free) + if IsChosen(batch, held, free, i) then [] else [batch[i].execution]
  {
    assert batch[..i + 1] == batch[..i] + [batch[i]];
    ChosenAppend(batch[..i], batch[i], held, free);
  }

  lemma LeftNext(batch: seq<ReadyExecution>, i: nat, held: set<ExecutionId>, free: string -> nat,
                 left: string -> nat, next: string -> nat, offered: bool)
    requires i < |batch| && IsLeft(batch[..i], held, free, left)
    requires offered <==> batch[i].execution !in held && left(batch[i].jobType) > 0
    requires forall jobType: string :: next(jobType) == left(jobType) - if offered && jobType == batch[i].jobType then 1 else 0
    ensures IsLeft(batch[..i + 1], held, free, next)
  {
    assert batch[..i + 1] == batch[..i] + [batch[i]];
    forall jobType: string ensures next(jobType) == Max(0, free(jobType) - Demand(batch[..i + 1], held, jobType)) {
      DemandAppend(batch[..i], batch[i], held, jobType);
      assert left(jobType) == Max(0, free(jobType) - Demand(batch[..i], held, jobType));
    }
  }

  lemma NotOfferedYet(batch: seq<ReadyExecution>, i: nat, held: set<ExecutionId>, free: string -> nat,
                      offers: seq<Assignment>, live: set<ExecutorId>)
    requires i < |batch| && Offers(Chosen(batch[..i], held, free), offers, live)
    requires DistinctIds(batch)
    ensures batch[i].execution !in OfferedIds(offers)
  {
    var chosen := Chosen(batch[..i], held, free);
    forall o | o in offers ensures o.record.execution != batch[i].execution {
      var m :| 0 <= m < |offers| && offers[m] == o;
      ChosenFromBatch(batch[..i], held, free, chosen[m]);
    }
  }

  lemma OfferedIdsNext(offers: seq<Assignment>, next: Assignment)
    ensures OfferedIds(offers + [next]) == OfferedIds(offers) + {next.record.execution}
  {
    forall e | e in OfferedIds(offers) ensures e in OfferedIds(offers + [next]) {
      var o :| o in offers && o.record.execution == e;
      assert o in offers + [next];
    }
    assert next in offers + [next];
  }

  lemma IdsNext(ids: seq<ExecutionId>, n: nat)
    requires n < |ids|
    ensures Ids(ids[..n + 1]) == Ids(ids[..n]) + {ids[n]}
  {
    assert ids[..n + 1] == ids[..n] + [ids[n]];
  }

  lemma ReleaseNone(v: PoolView)
    ensures Release(v, Ids([])) == v
  {
    assert v.held - Ids([]) == v.held;
  }

  lemma ReleaseMore(v: PoolView, ids: set<ExecutionId>, e: ExecutionId)
    ensures Release(Release(v, ids), {e}) == Release(v, ids + {e})
  {
    assert v.held - ids - {e} == v.held - (ids + {e});
  }

  /** What an executor is told when executions are cancelled: that those it holds are, once each. */
  function CancelledFor(v: PoolView, x: ExecutorId, ids: seq<ExecutionId>): seq<ServerMessage> {
    if ids == [] then []
    else
      var n := |ids| - 1;
      CancelledFor(v, x, ids[..n])
      + if ids[n] in HeldBy(v, x) && ids[n] !in ids[..n] then [ExecutionCancelled(ids[n])] else []
  }

  predicate IsTold(was: Executor, ex: Executor, v: PoolView, ids: seq<ExecutionId>) {
    && ex.id == was.id && ex.connected == was.connected
    && ex.messages == if was.connected then was.messages + CancelledFor(v, was.id, ids) else was.messages
  }

  predicate AreTold(before: seq<Executor>, executors: seq<Executor>, v: PoolView, ids: seq<ExecutionId>) {
    && |executors| == |before|
    && forall i :: 0 <= i < |before| ==> IsTold(before[i], executors[i], v, ids)
  }

  lemma NobodyIsTold(executors: seq<Executor>, v: PoolView)
    ensures AreTold(executors, executors, v, [])
  {
    forall i | 0 <= i < |executors| ensures IsTold(executors[i], executors[i], v, []) {
      assert executors[i].messages + [] == executors[i].messages;
    }
  }

  lemma CancelledForNext(v: PoolView, x: ExecutorId, ids: seq<ExecutionId>, n: nat)
    requires n < |ids|
    ensures CancelledFor(v, x, ids[..n + 1])
         == CancelledFor(v, x, ids[..n])
            + if ids[n] in HeldBy(v, x) && ids[n] !in ids[..n] then [ExecutionCancelled(ids[n])] else []
  {
    assert ids[..n + 1][..n] == ids[..n];
  }

  lemma TellOne(was: Executor, ex: Executor, v: PoolView, ids: seq<ExecutionId>, n: nat, after: Executor)
    requires n < |ids| && IsTold(was, ex, v, ids[..n])
    requires after.id == ex.id && after.connected == ex.connected
    requires after.messages == if ex.connected && ids[n] in HeldBy(v, was.id) && ids[n] !in ids[..n]
                               then ex.messages + [ExecutionCancelled(ids[n])] else ex.messages
    ensures IsTold(was, after, v, ids[..n + 1])
  {
    CancelledForNext(v, was.id, ids, n);
    ConcatAssociates(was.messages, CancelledFor(v, was.id, ids[..n]), [ExecutionCancelled(ids[n])]);
  }

  lemma UnheldIsNotTold(before: seq<Executor>, executors: seq<Executor>, v: PoolView, ids: seq<ExecutionId>, n: nat)
    requires n < |ids| && AreTold(before, executors, v, ids[..n]) && ids[n] !in Release(v, Ids(ids[..n])).held
    ensures AreTold(before, executors, v, ids[..n + 1])
  {
    forall i | 0 <= i < |before| ensures IsTold(before[i], executors[i], v, ids[..n + 1]) {
      TellOne(before[i], executors[i], v, ids, n, executors[i]);
    }
  }

  lemma CancelledIsTold(before: seq<Executor>, executors: seq<Executor>, v: PoolView, ids: seq<ExecutionId>, n: nat,
                        i: nat, j: nat, k: nat)
    requires n < |ids| && AreTold(before, executors, v, ids[..n]) && PoolValid(executors)
    requires i < |executors| && HeldAt(executors[i], j, k, ids[n]) && Held(executors) == Release(v, Ids(ids[..n])).held
    ensures AreTold(before, CancelledAt(executors, i, j, k), v, ids[..n + 1])
  {
    HeldAtIs(executors, i, j, k);
    var after := CancelledAt(executors, i, j, k);
    forall m | 0 <= m < |before| ensures IsTold(before[m], after[m], v, ids[..n + 1]) {
      TellOne(before[m], executors[m], v, ids, n, after[m]);
    }
  }

  /** The offers of executions that somebody made, by executor. */
  function OfferedExecutionIds(executors: seq<Executor>): set<ExecutionId> {
    set i, j, k | 0 <= i < |executors| && 0 <= j < |executors[i].queues| && 0 <= k < |executors[i].queues[j].executions|
                  && executors[i].queues[j].executions[k].state.Offered?
      :: executors[i].queues[j].executions[k].record.execution
  }

  lemma OfferedExecutionIdsAre(executors: seq<Executor>)
    requires PoolValid(executors)
    ensures OfferedExecutionIds(executors) == set e | e in Held(executors) && Held(executors)[e].state.Offered?
  {
    forall e ensures e in OfferedExecutionIds(executors) <==> e in Held(executors) && Held(executors)[e].state.Offered? {
      if e in OfferedExecutionIds(executors) {
        var i, j, k :| 0 <= i < |executors| && 0 <= j < |executors[i].queues| && 0 <= k < |executors[i].queues[j].executions|
          && executors[i].queues[j].executions[k].state.Offered?
          && executors[i].queues[j].executions[k].record.execution == e;
        HeldAtIs(executors, i, j, k);
      }
      if e in Held(executors) {
        var i, j, k := HeldIsSomewhere(executors, e);
      }
    }
  }

  // ---- Withdrawing offers.

  function WithdrawnIds(v: PoolView, x: ExecutorId, expiredAt: Option<Time>): set<ExecutionId> {
    set e | e in v.held && v.held[e].executor == x && Withdrawn(v.held[e].state, expiredAt)
  }

  /** What an executor still holds after withdrawing its offers, or only the expired ones. */
  lemma StillHeld(v: PoolView, x: ExecutorId, expiredAt: Option<Time>, e: ExecutionId)
    ensures e in Release(v, WithdrawnIds(v, x, expiredAt)).held <==>
              && e in v.held
              && (v.held[e].executor != x || v.held[e].state.Accepted?
                  || (expiredAt.Some? && v.held[e].state.deadline > expiredAt.value))
  {
  }

  predicate NoneWithdrawn(q: JobQueue, expiredAt: Option<Time>) {
    forall k :: 0 <= k < |q.executions| ==> !Withdrawn(q.executions[k].state, expiredAt)
  }

  /** What is left of a queue, expired offers count as one rejection. */
  function WithdrawnQueue(q: JobQueue, expiredAt: Option<Time>, now: Time): (r: JobQueue)
    ensures NoneWithdrawn(r, expiredAt)
  {
    var retained := q.(executions := Retained(q.executions, expiredAt));
    if Removed(q.executions, expiredAt) != [] && expiredAt.Some? then QueueRejected(retained, now) else retained
  }

  function WithdrawnQueues(queues: seq<JobQueue>, expiredAt: Option<Time>, now: Time): (r: seq<JobQueue>)
    ensures |r| == |queues|
    ensures forall j :: 0 <= j < |r| ==> r[j] == WithdrawnQueue(queues[j], expiredAt, now)
  {
    seq(|queues|, j requires 0 <= j < |queues| => WithdrawnQueue(queues[j], expiredAt, now))
  }

  /** The offers that are withdrawn from the queues, in order. */
  function AllRemoved(queues: seq<JobQueue>, expiredAt: Option<Time>): seq<ExecutorExecution> {
    if queues == [] then []
    else AllRemoved(queues[..|queues| - 1], expiredAt) + Removed(queues[|queues| - 1].executions, expiredAt)
  }

  function WithdrawnAt(executors: seq<Executor>, i: nat, j: nat, expiredAt: Option<Time>, now: Time): seq<Executor>
    requires i < |executors| && j < |executors[i].queues|
  {
    var q := executors[i].queues[j];
    var left := WithQueue(executors, i, j, WithdrawnQueue(q, expiredAt, now));
    left[i := SendAll(left[i], Cancellations(Removed(q.executions, expiredAt)))]
  }

  /** The executor is told of every offer that is withdrawn from its queues. */
  function WithdrawnFrom(ex: Executor, expiredAt: Option<Time>, now: Time): Executor {
    SendAll(ex.(queues := WithdrawnQueues(ex.queues, expiredAt, now)), Cancellations(AllRemoved(ex.queues, expiredAt)))
  }

  /** The offers of the first queues are withdrawn. */
  ghost predicate WithdrawnUpTo(before: seq<Executor>, i: nat, j: nat, expiredAt: Option<Time>, now: Time,
                                executors: seq<Executor>)
    requires i < |before| && j <= |before[i].queues|
  {
    var ex := before[i];
    var queues := WithdrawnQueues(ex.queues[..j], expiredAt, now) + ex.queues[j..];
    executors == before[i := SendAll(ex.(queues := queues), Cancellations(AllRemoved(ex.queues[..j], expiredAt)))]
  }

  lemma WithdrawalBegins(before: seq<Executor>, i: nat, expiredAt: Option<Time>, now: Time)
    requires i < |before|
    ensures WithdrawnUpTo(before, i, 0, expiredAt, now, before)
    ensures AllRemoved(before[i].queues[..0], expiredAt) == []
  {
    var ex := before[i];
    assert ex.queues[..0] == [] && WithdrawnQueues([], expiredAt, now) + ex.queues[0..] == ex.queues;
    SendNothing(ex);
    assert Cancellations([]) == [];
  }

  lemma RemovedNext(queues: seq<JobQueue>, j: nat, expiredAt: Option<Time>)
    requires j < |queues|
    ensures AllRemoved(queues[..j + 1], expiredAt)
         == AllRemoved(queues[..j], expiredAt) + Removed(queues[j].executions, expiredAt)
  {
    assert queues[..j + 1][..j] == queues[..j];
  }

  lemma WithdrawnQueuesNext(queues: seq<JobQueue>, j: nat, expiredAt: Option<Time>, now: Time)
    requires j < |queues|
    ensures (WithdrawnQueues(queues[..j], expiredAt, now) + queues[j..])[j] == queues[j]
    ensures (WithdrawnQueues(queues[..j], expiredAt, now) + queues[j..])[j := WithdrawnQueue(queues[j], expiredAt, now)]
         == WithdrawnQueues(queues[..j + 1], expiredAt, now) + queues[j + 1..]
  {
  }

  lemma CancellationsConcat(a: seq<ExecutorExecution>, b: seq<ExecutorExecution>, ex: Executor)
    ensures SendAll(SendAll(ex, Cancellations(a)), Cancellations(b)) == SendAll(ex, Cancellations(a + b))
  {
    assert Cancellations(a + b) == Cancellations(a) + Cancellations(b);
    ConcatAssociates(ex.messages, Cancellations(a), Cancellations(b));
  }

  lemma WithdrawalNext(before: seq<Executor>, i: nat, j: nat, expiredAt: Option<Time>, now: Time, executors: seq<Executor>)
    requires i < |before| && j < |before[i].queues| && WithdrawnUpTo(before, i, j, expiredAt, now, executors)
    ensures executors[i].id == before[i].id && j < |executors[i].queues| && executors[i].queues[j] == before[i].queues[j]
    ensures WithdrawnUpTo(before, i, j + 1, expiredAt, now, WithdrawnAt(executors, i, j, expiredAt, now))
    ensures |AllRemoved(before[i].queues[..j + 1], expiredAt)|
         == |AllRemoved(before[i].queues[..j], expiredAt)| + |Removed(before[i].queues[j].executions, expiredAt)|
  {
    var queues := before[i].queues;
    RemovedNext(queues, j, expiredAt);
    WithdrawnQueuesNext(queues, j, expiredAt, now);
    var left := before[i].(queues := WithdrawnQueues(queues[..j + 1], expiredAt, now) + queues[j + 1..]);
    CancellationsConcat(AllRemoved(queues[..j], expiredAt), Removed(queues[j].executions, expiredAt), left);
  }

  lemma WithdrawalEnds(before: seq<Executor>, i: nat, expiredAt: Option<Time>, now: Time, executors: seq<Executor>)
    requires i < |before| && WithdrawnUpTo(before, i, |before[i].queues|, expiredAt, now, executors)
    ensures executors == before[i := WithdrawnFrom(before[i], expiredAt, now)]
    ensures AllRemoved(before[i].queues[..|before[i].queues|], expiredAt) == AllRemoved(before[i].queues, expiredAt)
  {
    var queues := before[i].queues;
    assert queues[..|queues|] == queues && queues[|queues|..] == [];
    assert WithdrawnQueues(queues, expiredAt, now) + [] == WithdrawnQueues(queues, expiredAt, now);
  }

  /** What is withdrawn from a queue: offers, only those whose deadline has passed if a time is given. */
  lemma {:induction false} RemovedAre(executions: seq<ExecutorExecution>, expiredAt: Option<Time>, execution: ExecutorExecution)
    ensures execution in Removed(executions, expiredAt) <==>
              && execution in executions && execution.state.Offered?
              && (expiredAt.Some? ==> execution.state.deadline <= expiredAt.value)
    ensures execution in Retained(executions, expiredAt) <==>
              execution in executions
              && (execution.state.Accepted? || (expiredAt.Some? && execution.state.deadline > expiredAt.value))
    ensures |Removed(executions, expiredAt)| + |Retained(executions, expiredAt)| == |executions|
  {
    if executions != [] {
      var n := |executions| - 1;
      RemovedAre(executions[..n], expiredAt, execution);
      assert executions == executions[..n] + [executions[n]];
    }
  }

  predicate InQueues(queues: seq<JobQueue>, execution: ExecutorExecution) {
    exists j :: 0 <= j < |queues| && execution in queues[j].executions
  }

  lemma InQueuesNext(queues: seq<JobQueue>, execution: ExecutorExecution)
    requires queues != []
    ensures InQueues(queues, execution) <==>
              InQueues(queues[..|queues| - 1], execution) || execution in queues[|queues| - 1].executions
  {
    var n := |queues| - 1;
    if InQueues(queues[..n], execution) {
      var j :| 0 <= j < n && execution in queues[..n][j].executions;
      assert execution in queues[j].executions;
    }
    if InQueues(queues, execution) {
      var j :| 0 <= j < |queues| && execution in queues[j].executions;
      assert j < n ==> execution in queues[..n][j].executions;
    }
  }

  /** The executions for which withdrawing sends a message: all offers, or those whose deadline has passed. */
  lemma {:induction false} AllRemovedAre(queues: seq<JobQueue>, expiredAt: Option<Time>, execution: ExecutorExecution)
    ensures execution in AllRemoved(queues, expiredAt) <==>
              && execution.state.Offered? && (expiredAt.Some? ==> execution.state.deadline <= expiredAt.value)
              && InQueues(queues, execution)
  {
    if queues != [] {
      AllRemovedAre(queues[..|queues| - 1], expiredAt, execution);
      RemovedAre(queues[|queues| - 1].executions, expiredAt, execution);
      InQueuesNext(queues, execution);
    }
  }

  /** What withdrawing changes in a queue: it keeps the others, and is backed off if offers of it expired. */
  lemma WithdrawnColumns(was: JobQueue, expiredAt: Option<Time>, now: Time)
    ensures var q := WithdrawnQueue(was, expiredAt, now);
            && q.jobType == was.jobType && q.maxExecutions == was.maxExecutions
            && q.executions == Retained(was.executions, expiredAt)
            && (if expiredAt.Some? && |q.executions| < |was.executions|
                then && q.backoffUntil == Some(now + RejectionBackoff(was.consecutiveRejections))
                     && q.consecutiveRejections == Min(was.consecutiveRejections + 1, U32_MAX)
                else q.backoffUntil == was.backoffUntil && q.consecutiveRejections == was.consecutiveRejections)
  {
    RemovedAre(was.executions, expiredAt, ExecutorExecution(Record(0, 0, RetryPolicy(0, 0, None, Fixed), 0), Accepted));
  }

  /** And in an executor: a message for each offer, if it can be sent, and its queues. */
  lemma WithdrawnMessages(ex: Executor, expiredAt: Option<Time>, now: Time)
    ensures var after, removed := WithdrawnFrom(ex, expiredAt, now), AllRemoved(ex.queues, expiredAt);
            && after == ex.(queues := after.queues, messages := after.messages)
            && |after.queues| == |ex.queues|
            && (forall j :: 0 <= j < |ex.queues| ==> after.queues[j] == WithdrawnQueue(ex.queues[j], expiredAt, now))
            && (!ex.connected ==> after.messages == ex.messages)
            && (ex.connected ==>
                  && |after.messages| == |ex.messages| + |removed|
                  && (forall n :: 0 <= n < |ex.messages| ==> after.messages[n] == ex.messages[n])
                  && forall n :: 0 <= n < |removed| ==>
                       after.messages[|ex.messages| + n] == ExecutionCancelled(removed[n].record.execution))
  {
  }

  /** What accepting changes: the state of the execution, and its queue is not backed off anymore. */
  lemma AcceptedColumns(executors: seq<Executor>, i: nat, j: nat, k: nat)
    requires i < |executors| && j < |executors[i].queues| && k < |executors[i].queues[j].executions|
    ensures var was, after := executors[i], AcceptedAt(executors, i, j, k);
            && |after| == |executors| && (forall n :: 0 <= n < |executors| && n != i ==> after[n] == executors[n])
            && after[i] == was.(queues := after[i].queues)
            && after[i].queues == was.queues[j := was.queues[j].(
                 executions := was.queues[j].executions[k := was.queues[j].executions[k].(state := Accepted)],
                 consecutiveRejections := 0, backoffUntil := None)]
  {
  }

  /** What cancelling changes: the execution is gone from its queue, and the executor is told so if it can be. */
  lemma CancelledColumns(executors: seq<Executor>, i: nat, j: nat, k: nat)
    requires i < |executors| && j < |executors[i].queues| && k < |executors[i].queues[j].executions|
    ensures var was, after := executors[i], CancelledAt(executors, i, j, k);
            var executions := was.queues[j].executions;
            && |after| == |executors| && (forall n :: 0 <= n < |executors| && n != i ==> after[n] == executors[n])
            && after[i].messages == was.messages + (if was.connected then [ExecutionCancelled(executions[k].record.execution)] else [])
            && after[i] == was.(messages := after[i].messages, queues := after[i].queues)
            && after[i].queues == was.queues[j := was.queues[j].(executions := after[i].queues[j].executions)]
            && |after[i].queues[j].executions| == |executions| - 1
            && forall n :: 0 <= n < |executions| - 1 ==>
                 after[i].queues[j].executions[n] == if n == k then executions[|executions| - 1] else executions[n]
  {
    assert executors[i].messages + [] == executors[i].messages;
  }

  lemma WithdrawnAreHeld(executors: seq<Executor>, i: nat, j: nat, expiredAt: Option<Time>, v: PoolView)
    requires PoolValid(executors) && i < |executors| && j < |executors[i].queues| && v.held == Held(executors)
    ensures var removed := Removed(executors[i].queues[j].executions, expiredAt);
            ExecutionsIn(multiset(AsHoldings(executors[i].id, removed))) <= WithdrawnIds(v, executors[i].id, expiredAt)
  {
    var executions := executors[i].queues[j].executions;
    var s := AsHoldings(executors[i].id, Removed(executions, expiredAt));
    forall h: Holding | h in multiset(s) ensures h.record.execution in WithdrawnIds(v, executors[i].id, expiredAt) {
      assert h in s;
      var n :| 0 <= n < |s| && s[n] == h;
      var k :| 0 <= k < |executions| && executions[k] == Removed(executions, expiredAt)[n];
      HeldAtIs(executors, i, j, k);
    }
  }

  lemma ReleaseBoth(v: PoolView, a: set<ExecutionId>, b: set<ExecutionId>)
    ensures Release(Release(v, a), b) == Release(v, a + b)
  {
    assert v.held - a - b == v.held - (a + b);
  }

  lemma NoneLeft(executors: seq<Executor>, i: nat, expiredAt: Option<Time>, v: PoolView)
    requires PoolValid(executors) && i < |executors| && v.held == Held(executors)
    requires forall j :: 0 <= j < |executors[i].queues| ==> NoneWithdrawn(executors[i].queues[j], expiredAt)
    ensures WithdrawnIds(v, executors[i].id, expiredAt) == {}
  {
    forall e | e in Held(executors) && Held(executors)[e].executor == executors[i].id
      ensures !Withdrawn(Held(executors)[e].state, expiredAt)
    {
      var n, j, k := HeldIsSomewhere(executors, e);
      assert n == i;
      assert NoneWithdrawn(executors[i].queues[j], expiredAt);
    }
  }

  lemma AllWithdrawn(v: PoolView, x: ExecutorId, expiredAt: Option<Time>, gone: set<ExecutionId>)
    requires gone <= WithdrawnIds(v, x, expiredAt) && WithdrawnIds(Release(v, gone), x, expiredAt) == {}
    ensures gone == WithdrawnIds(v, x, expiredAt)
  {
    var all := WithdrawnIds(v, x, expiredAt);
    assert WithdrawnIds(Release(v, gone), x, expiredAt) == all - gone;
    forall e | e in all ensures e in gone {
      assert e !in all - gone;
    }
  }

  lemma WithdrawnNext(v: PoolView, x: ExecutorId, expiredAt: Option<Time>, gone: set<ExecutionId>, more: set<ExecutionId>)
    requires gone <= WithdrawnIds(v, x, expiredAt) && more <= WithdrawnIds(Release(v, gone), x, expiredAt)
    ensures Release(Release(v, gone), more) == Release(v, gone + more)
    ensures gone + more <= WithdrawnIds(v, x, expiredAt)
  {
    ReleaseBoth(v, gone, more);
  }

  // ---- A pass over several batches.

  /** What offering a batch changes: an empty one nothing, otherwise executions that were started before are forgotten. */
  ghost predicate OfferedFrom(v: PoolView, batch: seq<ReadyExecution>, fetchedAt: Time, offers: seq<Assignment>,
                              deadline: Time, at: Time, view: PoolView) {
    && view == (if batch == [] then v else OfferAll(Purge(v, fetchedAt), offers, deadline, at))
    && view.live == v.live
    && HeldIds(Purge(view, fetchedAt)) == HeldIds(Purge(v, fetchedAt)) + OfferedIds(offers)
  }

  /** The first `n` batches have been offered, as if they were one. */
  ghost predicate PassSoFar(batches: seq<seq<ReadyExecution>>, n: nat, v: PoolView, free: string -> nat,
                            fetchedAt: Time, now: Time, at: Time, offers: seq<Assignment>, ignored: seq<ExecutionId>,
                            left: string -> nat, view: PoolView)
    requires n <= |batches|
  {
    && ChosenSoFar(Concat(batches[..n]), HeldIds(Purge(v, fetchedAt)), free, v.live, offers, ignored, left)
    && OfferedFrom(v, Concat(batches[..n]), fetchedAt, offers, now + OFFER_TIMEOUT, at, view)
  }

  lemma PassBegins(batches: seq<seq<ReadyExecution>>, v: PoolView, executors: seq<Executor>,
                   fetchedAt: Time, now: Time, at: Time)
    ensures PassSoFar(batches, 0, v, FreeMap(executors, now), fetchedAt, now, at, [], [], FreeMap(executors, now), v)
  {
    assert batches[..0] == [] && OfferedIds([]) == {};
    NothingChosenYet(HeldIds(Purge(v, fetchedAt)), executors, now, v.live);
  }

  /** The first batches are the beginning of all of them. */
  lemma {:induction false} ConcatPrefix(batches: seq<seq<ReadyExecution>>, n: nat) returns (rest: seq<ReadyExecution>)
    requires n <= |batches|
    ensures Concat(batches) == Concat(batches[..n]) + rest
    decreases |batches|
  {
    if n == |batches| {
      assert batches[..n] == batches;
      rest := [];
    } else {
      var before := batches[..|batches| - 1];
      var r := ConcatPrefix(before, n);
      assert before[..n] == batches[..n];
      rest := r + batches[|batches| - 1];
    }
  }

  lemma ConcatOne(batches: seq<seq<ReadyExecution>>, n: nat)
    requires n < |batches|
    ensures Concat(batches[..n + 1]) == Concat(batches[..n]) + batches[n]
  {
    assert batches[..n + 1][..n] == batches[..n];
  }

  /** A part of a sequence without duplicates has none either, and none of what comes before it. */
  lemma DistinctPart(all: seq<ReadyExecution>, before: seq<ReadyExecution>, batch: seq<ReadyExecution>, rest: seq<ReadyExecution>)
    requires all == (before + batch) + rest
    requires DistinctIds(all)
    ensures DistinctIds(batch)
    ensures forall r, i :: r in before && 0 <= i < |batch| ==> r.execution != batch[i].execution
  {
    forall i, k | 0 <= i < k < |batch| ensures batch[i].execution != batch[k].execution {
      assert all[|before| + i] == batch[i] && all[|before| + k] == batch[k];
    }
    forall r, i | r in before && 0 <= i < |batch| ensures r.execution != batch[i].execution {
      var m :| 0 <= m < |before| && before[m] == r;
      assert all[m] == r && all[|before| + i] == batch[i];
    }
  }

  /** A batch has no execution twice, and none of the batches before it. */
  lemma BatchOf(batches: seq<seq<ReadyExecution>>, n: nat)
    requires n < |batches|
    requires DistinctIds(Concat(batches))
    ensures Concat(batches[..n + 1]) == Concat(batches[..n]) + batches[n]
    ensures DistinctIds(batches[n])
    ensures forall r, i :: r in Concat(batches[..n]) && 0 <= i < |batches[n]| ==> r.execution != batches[n][i].execution
  {
    ConcatOne(batches, n);
    var rest := ConcatPrefix(batches, n + 1);
    DistinctPart(Concat(batches), Concat(batches[..n]), batches[n], rest);
  }

  lemma OffersAreChosen(batch: seq<ReadyExecution>, held: set<ExecutionId>, free: string -> nat,
                        offers: seq<Assignment>, live: set<ExecutorId>, e: ExecutionId)
    requires Offers(Chosen(batch, held, free), offers, live) && e in OfferedIds(offers)
    ensures exists r :: r in batch && r.execution == e
  {
    var o :| o in offers && o.record.execution == e;
    var m :| 0 <= m < |offers| && offers[m] == o;
    var chosen := Chosen(batch, held, free);
    ChosenFromBatch(batch, held, free, chosen[m]);
  }

  lemma LeftAfterBoth(a: seq<ReadyExecution>, b: seq<ReadyExecution>, held: set<ExecutionId>, more: set<ExecutionId>,
                      free: string -> nat, left: string -> nat, next: string -> nat)
    requires IsLeft(a, held, free, left) && IsLeft(b, held + more, left, next)
    requires forall i :: 0 <= i < |b| ==> b[i].execution !in more
    ensures IsLeft(a + b, held, free, next)
  {
    forall jobType: string ensures next(jobType) == Max(0, free(jobType) - Demand(a + b, held, jobType)) {
      DemandConcat(a, b, held, jobType);
      UnheldSame(b, held, more);
      assert left(jobType) == Max(0, free(jobType) - Demand(a, held, jobType));
      assert next(jobType) == Max(0, left(jobType) - Demand(b, held + more, jobType));
    }
  }

  lemma OffersConcat(a: seq<ReadyExecution>, b: seq<ReadyExecution>, offers: seq<Assignment>, more: seq<Assignment>,
                     live: set<ExecutorId>)
    requires Offers(a, offers, live) && Offers(b, more, live)
    ensures Offers(a + b, offers + more, live)
  {
  }

  lemma {:induction false} OfferedIdsConcat(a: seq<Assignment>, b: seq<Assignment>)
    ensures OfferedIds(a + b) == OfferedIds(a) + OfferedIds(b)
  {
    if b == [] {
      assert a + b == a;
    } else {
      var n := |b| - 1;
      OfferedIdsConcat(a, b[..n]);
      OfferedIdsNext(a + b[..n], b[n]);
      OfferedIdsNext(b[..n], b[n]);
      assert b == b[..n] + [b[n]] && a + b == (a + b[..n]) + [b[n]];
    }
  }

  lemma OfferedBefore(a: seq<ReadyExecution>, b: seq<ReadyExecution>, held: set<ExecutionId>, free: string -> nat,
                      live: set<ExecutorId>, offers: seq<Assignment>)
    requires Offers(Chosen(a, held, free), offers, live)
    requires forall r, i :: r in a && 0 <= i < |b| ==> r.execution != b[i].execution
    ensures forall i :: 0 <= i < |b| ==> b[i].execution !in OfferedIds(offers)
  {
    forall i | 0 <= i < |b| ensures b[i].execution !in OfferedIds(offers) {
      if b[i].execution in OfferedIds(offers) {
        OffersAreChosen(a, held, free, offers, live, b[i].execution);
      }
    }
  }

  lemma ChosenFromBoth(a: seq<ReadyExecution>, b: seq<ReadyExecution>, held: set<ExecutionId>, free: string -> nat,
                       live: set<ExecutorId>, offers: seq<Assignment>, ignored: seq<ExecutionId>, left: string -> nat,
                       more: seq<Assignment>, notOffered: seq<ExecutionId>, next: string -> nat)
    requires ChosenSoFar(a, held, free, live, offers, ignored, left)
    requires ChosenSoFar(b, held + OfferedIds(offers), left, live, more, notOffered, next)
    requires forall r, i :: r in a && 0 <= i < |b| ==> r.execution != b[i].execution
    ensures ChosenSoFar(a + b, held, free, live, offers + more, ignored + notOffered, next)
  {
    OfferedBefore(a, b, held, free, live, offers);
    ChosenSame(b, held, OfferedIds(offers), left, left);
    ChosenConcat(a, b, held, free, left);
    OffersConcat(Chosen(a, held, free), Chosen(b, held, left), offers, more, live);
    LeftAfterBoth(a, b, held, OfferedIds(offers), free, left, next);
  }

  lemma {:induction false} OfferAllConcat(v: PoolView, offers: seq<Assignment>, more: seq<Assignment>, deadline: Time, at: Time)
    ensures OfferAll(v, offers + more, deadline, at) == OfferAll(OfferAll(v, offers, deadline, at), more, deadline, at)
  {
    if more == [] {
      assert offers + more == offers;
    } else {
      var n := |more| - 1;
      OfferAllConcat(v, offers, more[..n], deadline, at);
      assert (offers + more)[..|offers| + n] == offers + more[..n];
    }
  }

  lemma OfferedFromBoth(v: PoolView, a: seq<ReadyExecution>, b: seq<ReadyExecution>, fetchedAt: Time,
                        offers: seq<Assignment>, more: seq<Assignment>, deadline: Time, at: Time,
                        view: PoolView, after: PoolView)
    requires OfferedFrom(v, a, fetchedAt, offers, deadline, at, view) && (a == [] ==> offers == [])
    requires OfferedFrom(view, b, fetchedAt, more, deadline, at, after) && (b == [] ==> more == [])
    ensures OfferedFrom(v, a + b, fetchedAt, offers + more, deadline, at, after)
  {
    OfferedIdsConcat(offers, more);
    if b == [] {
      assert a + b == a && offers + more == offers;
    } else if a == [] {
      assert a + b == b && offers + more == more;
    } else {
      OfferedAreNotPurged(Purge(v, fetchedAt), offers, deadline, at, fetchedAt);
      OfferAllConcat(Purge(v, fetchedAt), offers, more, deadline, at);
    }
  }

  lemma PassNext(batches: seq<seq<ReadyExecution>>, n: nat, v: PoolView, free: string -> nat,
                 fetchedAt: Time, now: Time, at: Time, offers: seq<Assignment>, ignored: seq<ExecutionId>,
                 left: string -> nat, view: PoolView,
                 more: seq<Assignment>, notOffered: seq<ExecutionId>, next: string -> nat, after: PoolView)
    requires n < |batches| && Concat(batches[..n + 1]) == Concat(batches[..n]) + batches[n]
    requires forall r, i :: r in Concat(batches[..n]) && 0 <= i < |batches[n]| ==> r.execution != batches[n][i].execution
    requires PassSoFar(batches, n, v, free, fetchedAt, now, at, offers, ignored, left, view)
    requires ChosenSoFar(batches[n], HeldIds(Purge(view, fetchedAt)), left, v.live, more, notOffered, next)
    requires OfferedFrom(view, batches[n], fetchedAt, more, now + OFFER_TIMEOUT, at, after)
    ensures PassSoFar(batches, n + 1, v, free, fetchedAt, now, at, offers + more, ignored + notOffered, next, after)
  {
    var a, held := Concat(batches[..n]), HeldIds(Purge(v, fetchedAt));
    ChosenFromBoth(a, batches[n], held, free, v.live, offers, ignored, left, more, notOffered, next);
    OfferedFromBoth(v, a, batches[n], fetchedAt, offers, more, now + OFFER_TIMEOUT, at, view, after);
  }

  /** Every execution of the batches is either offered or ignored, and never both. */
  lemma OfferedOrIgnored(batch: seq<ReadyExecution>, held: set<ExecutionId>, free: string -> nat, live: set<ExecutorId>,
                         offers: seq<Assignment>, i: nat)
    requires Offers(Chosen(batch, held, free), offers, live) && DistinctIds(batch) && i < |batch|
    ensures batch[i].execution in OfferedIds(offers) <==> IsChosen(batch, held, free, i)
    ensures batch[i].execution in NotChosen(batch, held, free) <==> !IsChosen(batch, held, free, i)
  {
    var chosen := Chosen(batch, held, free);
    ChosenExactly(batch, held, free, i);
    if batch[i] in chosen {
      var m :| 0 <= m < |chosen| && chosen[m] == batch[i];
      assert offers[m] in offers;
    }
    if batch[i].execution in OfferedIds(offers) {
      var o :| o in offers && o.record.execution == batch[i].execution;
      var m :| 0 <= m < |offers| && offers[m] == o;
      ChosenFromBatch(batch, held, free, chosen[m]);
      assert chosen[m] == batch[i];
    }
  }

  lemma PassEnds(batches: seq<seq<ReadyExecution>>, v: PoolView, free: string -> nat, fetchedAt: Time, now: Time, at: Time,
                 offers: seq<Assignment>, ignored: seq<ExecutionId>, left: string -> nat, view: PoolView)
    requires PassSoFar(batches, |batches|, v, free, fetchedAt, now, at, offers, ignored, left, view)
    ensures Offers(Chosen(Concat(batches), HeldIds(Purge(v, fetchedAt)), free), offers, v.live)
    ensures |offers| + |ignored| == |Concat(batches[..|batches|])|
  {
    assert batches[..|batches|] == batches;
    ChosenOrNot(Concat(batches), HeldIds(Purge(v, fetchedAt)), free);
  }

  /** Stopping at a saturated pool loses nothing. */
  lemma PassStops(batches: seq<seq<ReadyExecution>>, n: nat, v: PoolView, free: string -> nat,
                  fetchedAt: Time, now: Time, at: Time, offers: seq<Assignment>, ignored: seq<ExecutionId>,
                  executors: seq<Executor>, view: PoolView)
    requires n <= |batches| && !AnyCapacity(executors, now)
    requires PassSoFar(batches, n, v, free, fetchedAt, now, at, offers, ignored, FreeMap(executors, now), view)
    ensures Offers(Chosen(Concat(batches), HeldIds(Purge(v, fetchedAt)), free), offers, v.live)
    ensures |offers| + |ignored| == |Concat(batches[..n])|
  {
    var rest := ConcatPrefix(batches, n);
    var held, left := HeldIds(Purge(v, fetchedAt)), FreeMap(executors, now);
    forall jobType: string ensures left(jobType) == 0 {
      SaturatedIsFull(executors, jobType, now);
    }
    ChosenConcat(Concat(batches[..n]), rest, held, free, left);
    NothingChosen(rest, held, left);
    ChosenOrNot(Concat(batches[..n]), held, free);
  }

  /** Executions accepted while offering are not started yet, so they are not forgotten. */
  lemma {:induction false} OfferedAreNotPurged(v: PoolView, offers: seq<Assignment>, deadline: Time, at: Time, fetchedAt: Time)
    requires Purge(v, fetchedAt) == v
    ensures Purge(OfferAll(v, offers, deadline, at), fetchedAt) == OfferAll(v, offers, deadline, at)
  {
    if offers != [] {
      OfferedAreNotPurged(v, offers[..|offers| - 1], deadline, at, fetchedAt);
    }
  }

  function NewQueues(queues: seq<(string, nat)>): (r: seq<JobQueue>)
    ensures |r| == |queues|
    ensures forall j :: 0 <= j < |r| ==> r[j] == JobQueue(queues[j].0, [], queues[j].1, None, 0)
  {
    seq(|queues|, (j: nat) requires j < |queues| => JobQueue(queues[j].0, [], queues[j].1, None, 0))
  }

  lemma QueueIsValid(executors: seq<Executor>, i: nat, j: nat)
    requires PoolValid(executors) && i < |executors| && j < |executors[i].queues|
    ensures |executors[i].queues[j].executions| <= executors[i].queues[j].maxExecutions
  {
    assert ExecutorValid(executors[i]);
  }

  lemma NotFoundIsNotHeld(executors: seq<Executor>, i: nat, e: ExecutionId)
    requires PoolValid(executors) && i < |executors| && forall j: nat, k: nat :: !HeldAt(executors[i], j, k, e)
    ensures !(e in Held(executors) && Held(executors)[e].executor == executors[i].id)
  {
    if e in Held(executors) && Held(executors)[e].executor == executors[i].id {
      var n, j, k := HeldIsSomewhere(executors, e);
    }
  }

  lemma DroppedAssigned(executors: seq<Executor>, i: nat, v: PoolView)
    requires PoolValid(executors) && i < |executors| && v.held == Held(executors)
    ensures AssignedTo(v, executors[i].id, Assigned(executors[i].queues))
  {
    var records := Assigned(executors[i].queues);
    forall r | r in records
      ensures r.execution in HeldBy(v, executors[i].id) && v.held[r.execution] == Holding(executors[i].id, r, Accepted)
    {
      AssignedIsHeld(executors, i, r);
    }
    forall e | e in HeldBy(v, executors[i].id) && v.held[e].state.Accepted? ensures v.held[e].record in records {
      AssignedIsHeld(executors, i, v.held[e].record);
    }
    forall m, n | 0 <= m < n < |records| ensures records[m].execution != records[n].execution {
      AssignedOnce(executors, i, m, n);
      AssignedIsHeld(executors, i, records[m]);
      AssignedIsHeld(executors, i, records[n]);
    }
  }

  lemma DroppedView(executors: seq<Executor>, acceptedExecutions: map<ExecutionId, Option<Time>>,
                    accepted: seq<StartedExecution>, events: seq<ExecutorEvent>, i: nat)
    requires PoolValid(executors) && i < |executors|
    ensures PoolValid(SwapRemove(executors, i))
    ensures var v := PoolView(Live(executors), Held(executors), acceptedExecutions, accepted, ResultsOf(events));
            var rest := SwapRemove(executors, i);
            PoolView(Live(rest), Held(rest), acceptedExecutions, accepted, ResultsOf(events + [ExecutorDisconnected(executors[i])]))
            == Drop(v, executors[i].id, Assigned(executors[i].queues))
  {
    DroppedValid(executors, i);
    ResultsNext(events, ExecutorDisconnected(executors[i]));
    var v := PoolView(Live(executors), Held(executors), acceptedExecutions, accepted, ResultsOf(events));
    assert HeldBy(v, executors[i].id) == HeldFor(executors, executors[i].id);
  }

  lemma UninitializedIsEmpty(executors: seq<Executor>, i: nat)
    requires PoolValid(executors) && i < |executors| && !executors[i].initialized
    ensures executors[i].queues == []
  {
    assert ExecutorValid(executors[i]);
  }

  /** An executor that had no queues loses no executions when it gets empty ones. */
  lemma InitializedValid(executors: seq<Executor>, i: nat, ex: Executor)
    requires PoolValid(executors) && i < |executors| && executors[i].queues == []
    requires ex.id == executors[i].id && ex.initialized
    requires forall j :: 0 <= j < |ex.queues| ==> ex.queues[j].executions == []
    ensures PoolValid(executors[i := ex]) && Held(executors[i := ex]) == Held(executors)
    ensures Live(executors[i := ex]) == Live(executors)
  {
    InitializedHoldings(executors, i, ex);
    ReplacedExecutor(executors, i, ex);
  }

  lemma InitializedHoldings(executors: seq<Executor>, i: nat, ex: Executor)
    requires i < |executors| && executors[i].queues == []
    requires forall j :: 0 <= j < |ex.queues| ==> ex.queues[j].executions == []
    ensures Holdings(executors[i := ex]) == Holdings(executors)
  {
    EmptyQueues(ex.id, ex.queues);
    ExecutorsUpdate(executors, i, ex);
    CancelSum(Holdings(executors[i := ex]), Holdings(executors), multiset{});
  }

  lemma {:induction false} EmptyQueues(x: ExecutorId, queues: seq<JobQueue>)
    requires forall j :: 0 <= j < |queues| ==> queues[j].executions == []
    ensures QueuesHoldings(x, queues) == multiset{}
  {
    if queues != [] {
      EmptyQueues(x, queues[..|queues| - 1]);
    }
  }

  lemma AddedExecutorHoldings(executors: seq<Executor>, ex: Executor)
    requires ex.queues == []
    ensures Holdings(executors + [ex]) == Holdings(executors)
    ensures Live(executors + [ex]) == Live(executors) + {ex.id}
  {
    var more := executors + [ex];
    assert more[..|executors|] == executors;
    assert more[|executors|].id in Live(more);
    assert forall i :: 0 <= i < |executors| ==> more[i].id in Live(more);
  }

  lemma AddedExecutorValid(executors: seq<Executor>, ex: Executor)
    requires PoolValid(executors) && ex.id !in Live(executors) && ex.queues == []
    ensures PoolValid(executors + [ex]) && Held(executors + [ex]) == Held(executors)
    ensures Live(executors + [ex]) == Live(executors) + {ex.id}
  {
    AddedExecutorHoldings(executors, ex);
    assert forall i :: 0 <= i < |executors| ==> executors[i].id in Live(executors);
  }

  lemma OfferedValid(executors: seq<Executor>, i: nat, j: nat, record: Record, deadline: Time, at: Time)
    requires PoolValid(executors) && i < |executors| && j < |executors[i].queues|
    requires |executors[i].queues[j].executions| < executors[i].queues[j].maxExecutions
    requires record.execution !in Held(executors)
    ensures var after := OfferedTo(executors, i, j, record, deadline, at);
            var state := if executors[i].handshake then Offered(deadline, at) else Accepted;
            && PoolValid(after) && Live(after) == Live(executors)
            && Held(after) == Held(executors)[record.execution := Holding(executors[i].id, record, state)]
  {
    var was := executors[i].queues[j];
    var execution := ExecutorExecution(record, if executors[i].handshake then Offered(deadline, at) else Accepted);
    SentValid(executors, i, ExecutionReady(record));
    AddedToQueueValid(executors[i := Send(executors[i], ExecutionReady(record))], i, j, execution,
                      was.(executions := was.executions + [execution]));
  }

  /** An offered execution takes up one place for its type. */
  lemma OfferedFree(executors: seq<Executor>, i: nat, j: nat, record: Record, deadline: Time, at: Time, now: Time)
    requires i < |executors| && j < |executors[i].queues| && executors[i].connected && executors[i].queues[j].HasCapacity(now)
    ensures forall jobType: string ::
              Free(OfferedTo(executors, i, j, record, deadline, at), jobType, now)
              == Free(executors, jobType, now) - if jobType == executors[i].queues[j].jobType then 1 else 0
  {
    forall jobType: string
      ensures Free(OfferedTo(executors, i, j, record, deadline, at), jobType, now)
           == Free(executors, jobType, now) - if jobType == executors[i].queues[j].jobType then 1 else 0
    {
      OfferedFreeOf(executors, i, j, record, deadline, at, jobType, now);
    }
  }

  lemma OfferedFreeOf(executors: seq<Executor>, i: nat, j: nat, record: Record, deadline: Time, at: Time,
                      jobType: string, now: Time)
    requires i < |executors| && j < |executors[i].queues| && executors[i].connected && executors[i].queues[j].HasCapacity(now)
    ensures Free(OfferedTo(executors, i, j, record, deadline, at), jobType, now)
         == Free(executors, jobType, now) - if jobType == executors[i].queues[j].jobType then 1 else 0
  {
    var ex := executors[i];
    var state := if ex.handshake then Offered(deadline, at) else Accepted;
    var q := ex.queues[j].(executions := ex.queues[j].executions + [ExecutorExecution(record, state)]);
    var changed := Send(ex, ExecutionReady(record)).(queues := ex.queues[j := q]);
    FreeUpdate(executors, i, changed, jobType, now);
    FreeOfUpdate(ex.queues, j, q, jobType, now);
    assert OfferedTo(executors, i, j, record, deadline, at) == executors[i := changed];
  }
}
