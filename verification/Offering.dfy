/** What one pass of offering ready executions achieves, whichever executors are tried first. */
module Offering {
  import opened Common
  import opened Tables
  import opened Backend
  import opened ReadyStream
  import Keyset
  import opened PoolModel
  import opened PoolState

  // ---- Free capacity.

  /** How many more executions of a type a queue can be offered. */
  function FreeIn(q: JobQueue, jobType: string, now: Time): nat {
    if q.jobType == jobType && q.HasCapacity(now) then q.maxExecutions - |q.executions| else 0
  }

  function FreeOf(queues: seq<JobQueue>, jobType: string, now: Time): nat {
    if queues == [] then 0
    else FreeOf(queues[..|queues| - 1], jobType, now) + FreeIn(queues[|queues| - 1], jobType, now)
  }

  function FreeAt(ex: Executor, jobType: string, now: Time): nat {
    if ex.connected then FreeOf(ex.queues, jobType, now) else 0
  }

  /** The free capacity for a job type on all executors that can be reached. */
  function Free(executors: seq<Executor>, jobType: string, now: Time): nat {
    if executors == [] then 0
    else Free(executors[..|executors| - 1], jobType, now) + FreeAt(executors[|executors| - 1], jobType, now)
  }

  function FreeMap(executors: seq<Executor>, now: Time): string -> nat {
    (jobType: string) => Free(executors, jobType, now)
  }

  lemma {:induction false} FreeOfUpdate(queues: seq<JobQueue>, j: nat, q: JobQueue, jobType: string, now: Time)
    requires j < |queues|
    ensures FreeOf(queues[j := q], jobType, now) + FreeIn(queues[j], jobType, now)
         == FreeOf(queues, jobType, now) + FreeIn(q, jobType, now)
  {
    var n := |queues| - 1;
    if j < n {
      FreeOfUpdate(queues[..n], j, q, jobType, now);
      assert queues[j := q][..n] == queues[..n][j := q];
    } else {
      assert queues[j := q][..n] == queues[..n];
    }
  }

  lemma {:induction false} FreeUpdate(executors: seq<Executor>, i: nat, ex: Executor, jobType: string, now: Time)
    requires i < |executors|
    ensures Free(executors[i := ex], jobType, now) + FreeAt(executors[i], jobType, now)
         == Free(executors, jobType, now) + FreeAt(ex, jobType, now)
  {
    var n := |executors| - 1;
    if i < n {
      FreeUpdate(executors[..n], i, ex, jobType, now);
      assert executors[i := ex][..n] == executors[..n][i := ex];
    } else {
      assert executors[i := ex][..n] == executors[..n];
    }
  }

  lemma {:induction false} FreeOfAtLeast(queues: seq<JobQueue>, j: nat, jobType: string, now: Time)
    requires j < |queues|
    ensures FreeIn(queues[j], jobType, now) <= FreeOf(queues, jobType, now)
  {
    if j < |queues| - 1 {
      FreeOfAtLeast(queues[..|queues| - 1], j, jobType, now);
    }
  }

  lemma {:induction false} FreeAtLeast(executors: seq<Executor>, i: nat, jobType: string, now: Time)
    requires i < |executors|
    ensures FreeAt(executors[i], jobType, now) <= Free(executors, jobType, now)
  {
    if i < |executors| - 1 {
      FreeAtLeast(executors[..|executors| - 1], i, jobType, now);
    }
  }

  predicate Suitable(q: JobQueue, jobType: string, now: Time) { q.HasCapacity(now) && q.jobType == jobType }

  lemma {:induction false} NoneSuitable(queues: seq<JobQueue>, jobType: string, now: Time)
    requires forall j :: 0 <= j < |queues| ==> !Suitable(queues[j], jobType, now)
    ensures FreeOf(queues, jobType, now) == 0
  {
    if queues != [] {
      NoneSuitable(queues[..|queues| - 1], jobType, now);
    }
  }

  lemma {:induction false} NoneFree(executors: seq<Executor>, jobType: string, now: Time)
    requires forall i :: 0 <= i < |executors| ==> FreeAt(executors[i], jobType, now) == 0
    ensures Free(executors, jobType, now) == 0
  {
    if executors != [] {
      NoneFree(executors[..|executors| - 1], jobType, now);
    }
  }

  /** There is free capacity for a type if an executor that can be reached has a queue for it with room and no backoff. */
  lemma RoomIsFree(executors: seq<Executor>, i: nat, j: nat, jobType: string, now: Time)
    requires i < |executors| && j < |executors[i].queues| && executors[i].connected
    requires executors[i].queues[j].jobType == jobType
    requires |executors[i].queues[j].executions| < executors[i].queues[j].maxExecutions
    requires executors[i].queues[j].backoffUntil.Some? ==> executors[i].queues[j].backoffUntil.value <= now
    ensures Free(executors, jobType, now) > 0
  {
    FreeOfAtLeast(executors[i].queues, j, jobType, now);
    FreeAtLeast(executors, i, jobType, now);
  }

  ghost predicate AnyCapacity(executors: seq<Executor>, now: Time) {
    exists i, j :: 0 <= i < |executors| && 0 <= j < |executors[i].queues| && executors[i].queues[j].HasCapacity(now)
  }

  /** Saturated executors have no free capacity for any type. */
  lemma SaturatedIsFull(executors: seq<Executor>, jobType: string, now: Time)
    requires !AnyCapacity(executors, now)
    ensures Free(executors, jobType, now) == 0
  {
    forall i | 0 <= i < |executors| ensures FreeAt(executors[i], jobType, now) == 0 {
      NoneSuitable(executors[i].queues, jobType, now);
    }
    NoneFree(executors, jobType, now);
  }

  // ---- The executions that are offered.

  function RecordOf(r: ReadyExecution): Record { Record(r.execution, r.job, r.retry, r.attempt) }

  /** No execution is in a batch twice. */
  predicate DistinctIds(batch: seq<ReadyExecution>) {
    forall i, k :: 0 <= i < k < |batch| ==> batch[i].execution != batch[k].execution
  }

  function Unheld(batch: seq<ReadyExecution>, held: set<ExecutionId>): seq<ReadyExecution> {
    if batch == [] then []
    else
      var last := batch[|batch| - 1];
      Unheld(batch[..|batch| - 1], held) + if last.execution in held then [] else [last]
  }

  function OfType(batch: seq<ReadyExecution>, jobType: string): seq<ReadyExecution> {
    if batch == [] then []
    else
      var last := batch[|batch| - 1];
      OfType(batch[..|batch| - 1], jobType) + if last.jobType == jobType then [last] else []
  }

  /** How many executions of a type could have been offered so far. */
  function Demand(batch: seq<ReadyExecution>, held: set<ExecutionId>, jobType: string): nat {
    |OfType(Unheld(batch, held), jobType)|
  }

  /** An execution is offered if fewer of its type came before it than there is capacity for. */
  predicate Fits(before: seq<ReadyExecution>, r: ReadyExecution, held: set<ExecutionId>, free: string -> nat) {
    r.execution !in held && Demand(before, held, r.jobType) < free(r.jobType)
  }

  predicate IsChosen(batch: seq<ReadyExecution>, held: set<ExecutionId>, free: string -> nat, i: nat)
    requires i < |batch|
  {
    Fits(batch[..i], batch[i], held, free)
  }

  function Chosen(batch: seq<ReadyExecution>, held: set<ExecutionId>, free: string -> nat): seq<ReadyExecution> {
    if batch == [] then []
    else
      var n := |batch| - 1;
      Chosen(batch[..n], held, free) + if IsChosen(batch, held, free, n) then [batch[n]] else []
  }

  function NotChosen(batch: seq<ReadyExecution>, held: set<ExecutionId>, free: string -> nat): seq<ExecutionId> {
    if batch == [] then []
    else
      var n := |batch| - 1;
      NotChosen(batch[..n], held, free) + if IsChosen(batch, held, free, n) then [] else [batch[n].execution]
  }

  lemma ConcatAssociates<T>(a: seq<T>, b: seq<T>, c: seq<T>)
    ensures a + (b + c) == (a + b) + c
  {
  }

  lemma OfTypeAppend(s: seq<ReadyExecution>, r: ReadyExecution, jobType: string)
    ensures OfType(s + [r], jobType) == OfType(s, jobType) + if r.jobType == jobType then [r] else []
  {
    assert (s + [r])[..|s|] == s;
  }

  lemma UnheldAppend(s: seq<ReadyExecution>, r: ReadyExecution, held: set<ExecutionId>)
    ensures Unheld(s + [r], held) == Unheld(s, held) + if r.execution in held then [] else [r]
  {
    assert (s + [r])[..|s|] == s;
  }

  lemma DemandNext(batch: seq<ReadyExecution>, held: set<ExecutionId>, jobType: string)
    requires batch != []
    ensures var n := |batch| - 1;
            OfType(Unheld(batch, held), jobType)
            == OfType(Unheld(batch[..n], held), jobType)
               + if batch[n].execution !in held && batch[n].jobType == jobType then [batch[n]] else []
  {
    var n := |batch| - 1;
    if batch[n].execution !in held {
      OfTypeAppend(Unheld(batch[..n], held), batch[n], jobType);
    } else {
      assert Unheld(batch, held) == Unheld(batch[..n], held);
    }
  }

  function FirstOf<T>(s: seq<T>, n: nat): seq<T> { if n < |s| then s[..n] else s }

  lemma FirstOfNext<T>(s: seq<T>, x: T, n: nat)
    ensures FirstOf(s + [x], n) == if |s| < n then FirstOf(s, n) + [x] else FirstOf(s, n)
  {
  }

  lemma ChosenOfType(batch: seq<ReadyExecution>, held: set<ExecutionId>, free: string -> nat, jobType: string)
    requires batch != []
    ensures var n := |batch| - 1;
            OfType(Chosen(batch, held, free), jobType)
            == OfType(Chosen(batch[..n], held, free), jobType)
               + if IsChosen(batch, held, free, n) && batch[n].jobType == jobType then [batch[n]] else []
  {
    var n := |batch| - 1;
    if IsChosen(batch, held, free, n) {
      OfTypeAppend(Chosen(batch[..n], held, free), batch[n], jobType);
    } else {
      assert Chosen(batch, held, free) == Chosen(batch[..n], held, free);
    }
  }

  /**
    For each job type, the executions that are offered are exactly the first of those that nobody holds, as
    many as there is capacity for: with the order of the batch, by priority and then by age.
   */
  lemma {:induction false} FirstAreChosen(batch: seq<ReadyExecution>, held: set<ExecutionId>, free: string -> nat, jobType: string)
    ensures OfType(Chosen(batch, held, free), jobType) == FirstOf(OfType(Unheld(batch, held), jobType), free(jobType))
  {
    if batch != [] {
      var n := |batch| - 1;
      FirstAreChosen(batch[..n], held, free, jobType);
      DemandNext(batch, held, jobType);
      ChosenOfType(batch, held, free, jobType);
      FirstOfNext(OfType(Unheld(batch[..n], held), jobType), batch[n], free(jobType));
    }
  }

  lemma {:induction false} DemandGrows(batch: seq<ReadyExecution>, held: set<ExecutionId>, jobType: string, i: nat)
    requires i <= |batch|
    ensures Demand(batch[..i], held, jobType) <= Demand(batch, held, jobType)
    decreases |batch|
  {
    if i == |batch| {
      assert batch[..i] == batch;
    } else {
      var n := |batch| - 1;
      DemandGrows(batch[..n], held, jobType, i);
      assert batch[..n][..i] == batch[..i];
      DemandNext(batch, held, jobType);
    }
  }

  /** No execution is offered while an earlier one of its type, which nobody holds, is left. */
  lemma NoInversion(batch: seq<ReadyExecution>, held: set<ExecutionId>, free: string -> nat, i: nat, k: nat)
    requires i < k < |batch| && batch[i].jobType == batch[k].jobType && batch[i].execution !in held
    requires IsChosen(batch, held, free, k)
    ensures IsChosen(batch, held, free, i)
  {
    assert batch[..k][..i] == batch[..i];
    DemandGrows(batch[..k], held, batch[i].jobType, i);
  }

  /**
    Over a whole stream of ready executions, no execution is offered while one of its type with a higher
    priority, or with the same priority and a lower id, is left.
   */
  lemma HigherPriorityFirst(snapshots: seq<Snapshot>, ignore: set<ExecutionId>, pages: seq<seq<ReadyExecution>>,
                            held: set<ExecutionId>, free: string -> nat, i: nat, k: nat)
    requires Evolving(snapshots) && IsStream(ReadySets(snapshots, ignore), KeyPages(pages))
    requires forall n :: 0 <= n < |pages| ==> RowsOfPage(snapshots[n], ignore, pages[n])
    requires i < |Concat(pages)| && k < |Concat(pages)|
    requires Concat(pages)[i].jobType == Concat(pages)[k].jobType && Concat(pages)[i].execution !in held
    requires || Concat(pages)[i].priority > Concat(pages)[k].priority
             || (Concat(pages)[i].priority == Concat(pages)[k].priority
                 && Concat(pages)[i].execution < Concat(pages)[k].execution)
    requires IsChosen(Concat(pages), held, free, k)
    ensures IsChosen(Concat(pages), held, free, i)
  {
    if k < i {
      ReadyStreamIsSound(snapshots, ignore, pages, k, i);
    } else {
      NoInversion(Concat(pages), held, free, i, k);
    }
  }

  lemma {:induction false} ChosenOrNot(batch: seq<ReadyExecution>, held: set<ExecutionId>, free: string -> nat)
    ensures |Chosen(batch, held, free)| + |NotChosen(batch, held, free)| == |batch|
  {
    if batch != [] {
      ChosenOrNot(batch[..|batch| - 1], held, free);
    }
  }

  lemma {:induction false} ChosenFromBatch(batch: seq<ReadyExecution>, held: set<ExecutionId>, free: string -> nat, r: ReadyExecution)
    requires r in Chosen(batch, held, free)
    ensures r in batch
  {
    var n := |batch| - 1;
    if r in Chosen(batch[..n], held, free) {
      ChosenFromBatch(batch[..n], held, free, r);
    }
  }

  lemma {:induction false} NotChosenFromBatch(batch: seq<ReadyExecution>, held: set<ExecutionId>, free: string -> nat, e: ExecutionId)
    requires e in NotChosen(batch, held, free)
    ensures exists i :: 0 <= i < |batch| && batch[i].execution == e
  {
    var n := |batch| - 1;
    if e in NotChosen(batch[..n], held, free) {
      NotChosenFromBatch(batch[..n], held, free, e);
    } else {
      assert batch[n].execution == e;
    }
  }

  /** Every execution is either offered or returned as not offered, and never both. */
  lemma {:induction false} ChosenExactly(batch: seq<ReadyExecution>, held: set<ExecutionId>, free: string -> nat, i: nat)
    requires i < |batch|
    requires DistinctIds(batch)
    ensures IsChosen(batch, held, free, i) <==> batch[i] in Chosen(batch, held, free)
    ensures IsChosen(batch, held, free, i) <==> batch[i].execution !in NotChosen(batch, held, free)
  {
    var n := |batch| - 1;
    if i < n {
      assert batch[..n][..i] == batch[..i];
      ChosenExactly(batch[..n], held, free, i);
    } else {
      if batch[n] in Chosen(batch[..n], held, free) {
        ChosenFromBatch(batch[..n], held, free, batch[n]);
      }
      if batch[n].execution in NotChosen(batch[..n], held, free) {
        NotChosenFromBatch(batch[..n], held, free, batch[n].execution);
      }
    }
  }

  /** The earlier executions of a batch that compete with one: of its type, and held by nobody. */
  function Earlier(batch: seq<ReadyExecution>, held: set<ExecutionId>, i: nat, jobType: string): set<nat>
    requires i <= |batch|
  {
    set k: nat | k < i && batch[k].jobType == jobType && batch[k].execution !in held
  }

  lemma {:induction false} DemandIsEarlier(batch: seq<ReadyExecution>, held: set<ExecutionId>, jobType: string, i: nat)
    requires i <= |batch|
    ensures Demand(batch[..i], held, jobType) == |Earlier(batch, held, i, jobType)|
  {
    if i == 0 {
      assert Earlier(batch, held, 0, jobType) == {};
    } else {
      DemandIsEarlier(batch, held, jobType, i - 1);
      assert batch[..i] == batch[..i - 1] + [batch[i - 1]];
      DemandAppend(batch[..i - 1], batch[i - 1], held, jobType);
      var before := Earlier(batch, held, i - 1, jobType);
      if batch[i - 1].execution !in held && batch[i - 1].jobType == jobType {
        assert Earlier(batch, held, i, jobType) == before + {i - 1};
      } else {
        assert Earlier(batch, held, i, jobType) == before;
      }
    }
  }

  /** An execution is offered if nobody holds it and the competing ones before it leave capacity for its type. */
  lemma ChosenByCount(batch: seq<ReadyExecution>, held: set<ExecutionId>, free: string -> nat, i: nat)
    requires i < |batch|
    ensures IsChosen(batch, held, free, i) <==>
              && batch[i].execution !in held
              && |set k: nat | k < i && batch[k].jobType == batch[i].jobType && batch[k].execution !in held|
                 < free(batch[i].jobType)
  {
    DemandIsEarlier(batch, held, batch[i].jobType, i);
    assert Earlier(batch, held, i, batch[i].jobType)
        == set k: nat | k < i && batch[k].jobType == batch[i].jobType && batch[k].execution !in held;
  }

  // ---- Several batches.

  /** What is left of the capacity after a batch. */
  ghost predicate IsLeft(batch: seq<ReadyExecution>, held: set<ExecutionId>, free: string -> nat, left: string -> nat) {
    forall jobType: string :: left(jobType) == Max(0, free(jobType) - Demand(batch, held, jobType))
  }

  lemma UnheldConcatNext(a: seq<ReadyExecution>, b: seq<ReadyExecution>, r: ReadyExecution, held: set<ExecutionId>)
    requires Unheld(a + b, held) == Unheld(a, held) + Unheld(b, held)
    ensures Unheld(a + (b + [r]), held) == Unheld(a, held) + Unheld(b + [r], held)
  {
    ConcatAssociates(a, b, [r]);
    UnheldAppend(a + b, r, held);
    UnheldAppend(b, r, held);
    ConcatAssociates(Unheld(a, held), Unheld(b, held), if r.execution in held then [] else [r]);
  }

  lemma {:induction false} UnheldConcat(a: seq<ReadyExecution>, b: seq<ReadyExecution>, held: set<ExecutionId>)
    ensures Unheld(a + b, held) == Unheld(a, held) + Unheld(b, held)
  {
    if b == [] {
      assert a + b == a && Unheld(b, held) == [];
    } else {
      var n := |b| - 1;
      UnheldConcat(a, b[..n], held);
      UnheldConcatNext(a, b[..n], b[n], held);
      assert b == b[..n] + [b[n]];
    }
  }

  lemma OfTypeConcatNext(a: seq<ReadyExecution>, b: seq<ReadyExecution>, r: ReadyExecution, jobType: string)
    requires OfType(a + b, jobType) == OfType(a, jobType) + OfType(b, jobType)
    ensures OfType(a + (b + [r]), jobType) == OfType(a, jobType) + OfType(b + [r], jobType)
  {
    ConcatAssociates(a, b, [r]);
    OfTypeAppend(a + b, r, jobType);
    OfTypeAppend(b, r, jobType);
    ConcatAssociates(OfType(a, jobType), OfType(b, jobType), if r.jobType == jobType then [r] else []);
  }

  lemma {:induction false} OfTypeConcat(a: seq<ReadyExecution>, b: seq<ReadyExecution>, jobType: string)
    ensures OfType(a + b, jobType) == OfType(a, jobType) + OfType(b, jobType)
  {
    if b == [] {
      assert a + b == a && OfType(b, jobType) == [];
    } else {
      var n := |b| - 1;
      OfTypeConcat(a, b[..n], jobType);
      OfTypeConcatNext(a, b[..n], b[n], jobType);
      assert b == b[..n] + [b[n]];
    }
  }

  lemma DemandConcat(a: seq<ReadyExecution>, b: seq<ReadyExecution>, held: set<ExecutionId>, jobType: string)
    ensures Demand(a + b, held, jobType) == Demand(a, held, jobType) + Demand(b, held, jobType)
  {
    UnheldConcat(a, b, held);
    OfTypeConcat(Unheld(a, held), Unheld(b, held), jobType);
  }

  lemma ChosenAppend(s: seq<ReadyExecution>, r: ReadyExecution, held: set<ExecutionId>, free: string -> nat)
    ensures Chosen(s + [r], held, free) == Chosen(s, held, free) + if Fits(s, r, held, free) then [r] else []
    ensures NotChosen(s + [r], held, free) == NotChosen(s, held, free) + if Fits(s, r, held, free) then [] else [r.execution]
  {
    assert (s + [r])[..|s|] == s;
  }

  /** Whether an execution fits after two batches depends on what the first one left. */
  lemma FitsConcat(a: seq<ReadyExecution>, b: seq<ReadyExecution>, r: ReadyExecution, held: set<ExecutionId>,
                   free: string -> nat, left: string -> nat)
    requires IsLeft(a, held, free, left)
    ensures Fits(a + b, r, held, free) == Fits(b, r, held, left)
  {
    DemandConcat(a, b, held, r.jobType);
    assert left(r.jobType) == Max(0, free(r.jobType) - Demand(a, held, r.jobType));
  }

  /** Choosing from two batches after another is choosing from their concatenation. */
  ghost predicate ChosenInTurn(a: seq<ReadyExecution>, b: seq<ReadyExecution>, held: set<ExecutionId>,
                               free: string -> nat, left: string -> nat) {
    && Chosen(a + b, held, free) == Chosen(a, held, free) + Chosen(b, held, left)
    && NotChosen(a + b, held, free) == NotChosen(a, held, free) + NotChosen(b, held, left)
  }

  lemma ChosenConcatNext(a: seq<ReadyExecution>, b: seq<ReadyExecution>, r: ReadyExecution, held: set<ExecutionId>,
                         free: string -> nat, left: string -> nat)
    requires IsLeft(a, held, free, left) && ChosenInTurn(a, b, held, free, left)
    ensures ChosenInTurn(a, b + [r], held, free, left)
  {
    ConcatAssociates(a, b, [r]);
    ChosenAppend(a + b, r, held, free);
    ChosenAppend(b, r, held, left);
    FitsConcat(a, b, r, held, free, left);
    if Fits(b, r, held, left) {
      ConcatAssociates(Chosen(a, held, free), Chosen(b, held, left), [r]);
    } else {
      ConcatAssociates(NotChosen(a, held, free), NotChosen(b, held, left), [r.execution]);
    }
  }

  lemma DemandAppend(s: seq<ReadyExecution>, r: ReadyExecution, held: set<ExecutionId>, jobType: string)
    ensures Demand(s + [r], held, jobType)
         == Demand(s, held, jobType) + if r.execution !in held && r.jobType == jobType then 1 else 0
  {
    DemandNext(s + [r], held, jobType);
    assert (s + [r])[..|s|] == s;
  }

  lemma ChosenConcatNone(a: seq<ReadyExecution>, held: set<ExecutionId>, free: string -> nat, left: string -> nat)
    ensures ChosenInTurn(a, [], held, free, left)
  {
    assert a + [] == a;
    assert Chosen([], held, left) == [] && NotChosen([], held, left) == [];
  }

  /** Offering two batches after another is offering their concatenation. */
  lemma {:induction false} ChosenConcat(a: seq<ReadyExecution>, b: seq<ReadyExecution>, held: set<ExecutionId>,
                                        free: string -> nat, left: string -> nat)
    requires IsLeft(a, held, free, left)
    ensures ChosenInTurn(a, b, held, free, left)
  {
    if b == [] {
      ChosenConcatNone(a, held, free, left);
    } else {
      var before, last := b[..|b| - 1], b[|b| - 1];
      assert before + [last] == b;
      ChosenConcat(a, before, held, free, left);
      ChosenConcatNext(a, before, last, held, free, left);
    }
  }

  lemma {:induction false} UnheldSame(batch: seq<ReadyExecution>, held: set<ExecutionId>, more: set<ExecutionId>)
    requires forall i :: 0 <= i < |batch| ==> batch[i].execution !in more
    ensures Unheld(batch, held + more) == Unheld(batch, held)
  {
    if batch != [] {
      UnheldSame(batch[..|batch| - 1], held, more);
    }
  }

  /** Executions held since an earlier batch do not matter for batches that they are not in. */
  lemma {:induction false} ChosenSame(batch: seq<ReadyExecution>, held: set<ExecutionId>, more: set<ExecutionId>,
                                      free: string -> nat, left: string -> nat)
    requires forall i :: 0 <= i < |batch| ==> batch[i].execution !in more
    requires forall jobType: string :: free(jobType) == left(jobType)
    ensures Chosen(batch, held + more, free) == Chosen(batch, held, left)
    ensures NotChosen(batch, held + more, free) == NotChosen(batch, held, left)
  {
    if batch != [] {
      var n := |batch| - 1;
      ChosenSame(batch[..n], held, more, free, left);
      UnheldSame(batch[..n], held, more);
    }
  }

  /** Without capacity nothing is offered: stopping early loses nothing. */
  lemma {:induction false} NothingChosen(batch: seq<ReadyExecution>, held: set<ExecutionId>, free: string -> nat)
    requires forall jobType: string :: free(jobType) == 0
    ensures Chosen(batch, held, free) == []
  {
    if batch != [] {
      NothingChosen(batch[..|batch| - 1], held, free);
    }
  }
}
