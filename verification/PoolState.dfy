/** The executors of the pool with their job queues, and which executions these hold. */
module PoolState {
  import opened Common
  import opened Tables
  import opened Backend
  import opened PoolModel

  datatype ExecutorExecution = ExecutorExecution(record: Record, state: HoldState)

  datatype ServerMessage = ExecutionReady(record: Record) | ExecutionCancelled(execution: ExecutionId)

  /** No executions are offered until `backoffUntil`, because the executor rejected some. */
  datatype JobQueue = JobQueue(
    jobType: string, executions: seq<ExecutorExecution>, maxExecutions: nat,
    backoffUntil: Option<Time>, consecutiveRejections: nat)
  {
    predicate HasCapacity(now: Time) {
      |executions| < maxExecutions && (backoffUntil.Some? ==> backoffUntil.value <= now)
    }
  }

  /** `messages` is all that was sent to the executor, nothing can be sent once it is not `connected`. */
  datatype Executor = Executor(
    id: ExecutorId, queues: seq<JobQueue>, initialized: bool, handshake: bool,
    connected: bool, messages: seq<ServerMessage>)

  function Send(ex: Executor, message: ServerMessage): Executor {
    if ex.connected then ex.(messages := ex.messages + [message]) else ex
  }

  // ---- Who holds what.

  function AsHoldings(x: ExecutorId, executions: seq<ExecutorExecution>): (s: seq<Holding>)
    ensures |s| == |executions|
    ensures forall k :: 0 <= k < |s| ==> s[k] == Holding(x, executions[k].record, executions[k].state)
  {
    seq(|executions|, k requires 0 <= k < |executions| => Holding(x, executions[k].record, executions[k].state))
  }

  function QueueHoldings(x: ExecutorId, q: JobQueue): multiset<Holding> { multiset(AsHoldings(x, q.executions)) }

  function QueuesHoldings(x: ExecutorId, queues: seq<JobQueue>): multiset<Holding> {
    if queues == [] then multiset{}
    else QueuesHoldings(x, queues[..|queues| - 1]) + QueueHoldings(x, queues[|queues| - 1])
  }

  function ExecutorHoldings(ex: Executor): multiset<Holding> { QueuesHoldings(ex.id, ex.queues) }

  function Holdings(executors: seq<Executor>): multiset<Holding> {
    if executors == [] then multiset{}
    else Holdings(executors[..|executors| - 1]) + ExecutorHoldings(executors[|executors| - 1])
  }

  /** No execution is held twice. */
  ghost predicate Unique(m: multiset<Holding>) {
    && (forall h :: h in m ==> m[h] == 1)
    && (forall g, h :: g in m && h in m && g.record.execution == h.record.execution ==> g == h)
  }

  ghost function HeldMap(m: multiset<Holding>): (held: map<ExecutionId, Holding>)
    requires Unique(m)
    ensures forall h :: h in m ==> h.record.execution in held && held[h.record.execution] == h
    ensures forall e :: e in held ==> held[e] in m && held[e].record.execution == e
  {
    map e | e in ExecutionsIn(m) :: HolderOf(m, e)
  }

  ghost function HolderOf(m: multiset<Holding>, e: ExecutionId): (h: Holding)
    requires e in ExecutionsIn(m)
    ensures h in m && h.record.execution == e
  {
    var h :| h in m && h.record.execution == e;
    h
  }

  function ExecutionsIn(m: multiset<Holding>): set<ExecutionId> { set h | h in m :: h.record.execution }

  /** The map is determined by what it was made from. */
  lemma HeldMapIs(m: multiset<Holding>, held: map<ExecutionId, Holding>)
    requires Unique(m)
    requires forall h :: h in m ==> h.record.execution in held && held[h.record.execution] == h
    requires forall e :: e in held ==> held[e] in m && held[e].record.execution == e
    ensures HeldMap(m) == held
  {
  }

  lemma UniqueSub(m: multiset<Holding>, n: multiset<Holding>)
    requires Unique(m) && n <= m
    ensures Unique(n)
  {
    forall h | h in n ensures h in m && n[h] == 1 {
      assert 0 < n[h] <= m[h];
    }
  }

  lemma HeldWithout(m: multiset<Holding>, gone: multiset<Holding>)
    requires Unique(m) && gone <= m
    ensures Unique(m - gone)
    ensures HeldMap(m - gone) == HeldMap(m) - ExecutionsIn(gone)
  {
    UniqueSub(m, m - gone);
    UniqueSub(m, gone);
    forall h ensures h in m - gone <==> h in m && h !in gone {
      assert (m - gone)[h] == m[h] - gone[h];
    }
    forall h | h in gone ensures h in m {
      assert gone[h] <= m[h];
    }
    forall h | h in m && h.record.execution in ExecutionsIn(gone) ensures h in gone {
      var g :| g in gone && g.record.execution == h.record.execution;
    }
    HeldMapIs(m - gone, HeldMap(m) - ExecutionsIn(gone));
  }

  lemma HeldWith(m: multiset<Holding>, h: Holding)
    requires Unique(m) && h.record.execution !in HeldMap(m)
    ensures Unique(m + multiset{h})
    ensures HeldMap(m + multiset{h}) == HeldMap(m)[h.record.execution := h]
  {
    forall g ensures (m + multiset{h})[g] == m[g] + if g == h then 1 else 0 {
    }
    UniqueMore(m, m + multiset{h}, h);
    HeldMore(m, m + multiset{h}, h);
  }

  lemma UniqueMore(m: multiset<Holding>, n: multiset<Holding>, h: Holding)
    requires Unique(m) && h.record.execution !in HeldMap(m)
    requires forall g :: n[g] == m[g] + if g == h then 1 else 0
    ensures Unique(n) && forall g :: g in n <==> g in m || g == h
  {
    assert h !in m;
    forall g ensures g in n <==> g in m || g == h {
      assert n[g] == m[g] + if g == h then 1 else 0;
    }
  }

  lemma HeldMore(m: multiset<Holding>, n: multiset<Holding>, h: Holding)
    requires Unique(m) && h.record.execution !in HeldMap(m)
    requires Unique(n) && forall g :: g in n <==> g in m || g == h
    ensures HeldMap(n) == HeldMap(m)[h.record.execution := h]
  {
    HeldMapIs(n, HeldMap(m)[h.record.execution := h]);
  }

  lemma PutBack(held: map<ExecutionId, Holding>, e: ExecutionId, h: Holding)
    ensures e !in held - {e} && (held - {e})[e := h] == held[e := h]
  {
  }

  // ---- Updates.

  lemma AddToBoth(a: multiset<Holding>, b: multiset<Holding>, l: multiset<Holding>, p: multiset<Holding>, q: multiset<Holding>)
    requires b + p == a + q
    ensures (b + l) + p == (a + l) + q
  {
    assert (b + l) + p == (b + p) + l;
  }

  lemma {:induction false} QueuesUpdate(x: ExecutorId, queues: seq<JobQueue>, j: nat, q: JobQueue)
    requires j < |queues|
    ensures QueuesHoldings(x, queues[j := q]) + QueueHoldings(x, queues[j])
         == QueuesHoldings(x, queues) + QueueHoldings(x, q)
  {
    var n := |queues| - 1;
    var changed := queues[j := q];
    if j < n {
      QueuesUpdate(x, queues[..n], j, q);
      assert changed[..n] == queues[..n][j := q] && changed[n] == queues[n];
      AddToBoth(QueuesHoldings(x, queues[..n]), QueuesHoldings(x, changed[..n]), QueueHoldings(x, queues[n]),
                QueueHoldings(x, queues[j]), QueueHoldings(x, q));
    } else {
      assert changed[..n] == queues[..n];
    }
  }

  lemma {:induction false} ExecutorsUpdate(executors: seq<Executor>, i: nat, ex: Executor)
    requires i < |executors|
    ensures Holdings(executors[i := ex]) + ExecutorHoldings(executors[i]) == Holdings(executors) + ExecutorHoldings(ex)
  {
    var n := |executors| - 1;
    var changed := executors[i := ex];
    if i < n {
      ExecutorsUpdate(executors[..n], i, ex);
      assert changed[..n] == executors[..n][i := ex] && changed[n] == executors[n];
      AddToBoth(Holdings(executors[..n]), Holdings(changed[..n]), ExecutorHoldings(executors[n]),
                ExecutorHoldings(executors[i]), ExecutorHoldings(ex));
    } else {
      assert changed[..n] == executors[..n];
    }
  }

  lemma {:induction false} QueueWithin(x: ExecutorId, queues: seq<JobQueue>, j: nat)
    requires j < |queues|
    ensures QueueHoldings(x, queues[j]) <= QueuesHoldings(x, queues)
  {
    if j < |queues| - 1 {
      QueueWithin(x, queues[..|queues| - 1], j);
    }
  }

  lemma {:induction false} ExecutorWithin(executors: seq<Executor>, i: nat)
    requires i < |executors|
    ensures ExecutorHoldings(executors[i]) <= Holdings(executors)
  {
    if i < |executors| - 1 {
      ExecutorWithin(executors[..|executors| - 1], i);
    }
  }

  function WithQueue(executors: seq<Executor>, i: nat, j: nat, q: JobQueue): seq<Executor>
    requires i < |executors| && j < |executors[i].queues|
  {
    executors[i := executors[i].(queues := executors[i].queues[j := q])]
  }

  /** Changing one queue changes what the pool holds by what that queue holds. */
  lemma WithQueueHoldings(executors: seq<Executor>, i: nat, j: nat, q: JobQueue)
    requires i < |executors| && j < |executors[i].queues|
    ensures QueueHoldings(executors[i].id, executors[i].queues[j]) <= Holdings(executors)
    ensures Holdings(WithQueue(executors, i, j, q))
         == Holdings(executors) - QueueHoldings(executors[i].id, executors[i].queues[j]) + QueueHoldings(executors[i].id, q)
  {
    var ex := executors[i];
    var changed := ex.(queues := ex.queues[j := q]);
    ExecutorsUpdate(executors, i, changed);
    QueuesUpdate(ex.id, ex.queues, j, q);
    QueueWithin(ex.id, ex.queues, j);
    ExecutorWithin(executors, i);
    UpdateSum(Holdings(WithQueue(executors, i, j, q)), Holdings(executors), ExecutorHoldings(ex), ExecutorHoldings(changed),
              QueueHoldings(ex.id, ex.queues[j]), QueueHoldings(ex.id, q));
  }

  lemma UpdateSum(after: multiset<Holding>, before: multiset<Holding>, e: multiset<Holding>, f: multiset<Holding>,
                  q: multiset<Holding>, r: multiset<Holding>)
    requires after + e == before + f && f + q == e + r && q <= e <= before
    ensures q <= before && after == before - q + r
  {
    forall h ensures after[h] == (before - q + r)[h] {
      assert (after + e)[h] == (before + f)[h] && (f + q)[h] == (e + r)[h];
    }
  }

  /** `Vec::swap_remove`: the last element takes the place of the removed one. */
  function SwapRemove<T>(s: seq<T>, k: nat): (r: seq<T>)
    requires k < |s|
    ensures |r| == |s| - 1
  {
    s[k := s[|s| - 1]][..|s| - 1]
  }

  lemma SwapRemoved<T>(s: seq<T>, k: nat)
    requires k < |s|
    ensures multiset(SwapRemove(s, k)) == multiset(s) - multiset{s[k]}
  {
    var last := |s| - 1;
    if k < last {
      assert SwapRemove(s, k) == s[..k] + [s[last]] + s[k + 1..last];
      assert s == s[..k] + [s[k]] + s[k + 1..last] + [s[last]];
    } else {
      assert SwapRemove(s, k) == s[..k];
      assert s == s[..k] + [s[k]];
    }
  }

  lemma HoldingsRemoved(x: ExecutorId, s: seq<ExecutorExecution>, k: nat)
    requires k < |s|
    ensures multiset(AsHoldings(x, SwapRemove(s, k))) == multiset(AsHoldings(x, s)) - multiset{AsHoldings(x, s)[k]}
    ensures AsHoldings(x, s)[k] in multiset(AsHoldings(x, s))
  {
    SwapRemoved(AsHoldings(x, s), k);
    assert AsHoldings(x, SwapRemove(s, k)) == SwapRemove(AsHoldings(x, s), k);
  }

  lemma HoldingsAdded(x: ExecutorId, s: seq<ExecutorExecution>, execution: ExecutorExecution)
    ensures multiset(AsHoldings(x, s + [execution]))
         == multiset(AsHoldings(x, s)) + multiset{Holding(x, execution.record, execution.state)}
  {
    assert AsHoldings(x, s + [execution]) == AsHoldings(x, s) + [Holding(x, execution.record, execution.state)];
  }

  lemma HoldingsChanged(x: ExecutorId, s: seq<ExecutorExecution>, k: nat, execution: ExecutorExecution)
    requires k < |s|
    ensures multiset(AsHoldings(x, s[k := execution]))
         == multiset(AsHoldings(x, s)) - multiset{AsHoldings(x, s)[k]}
            + multiset{Holding(x, execution.record, execution.state)}
    ensures AsHoldings(x, s)[k] in multiset(AsHoldings(x, s))
  {
    assert AsHoldings(x, s[k := execution]) == AsHoldings(x, s)[k := Holding(x, execution.record, execution.state)];
  }

  // ---- Looking for executions.

  /** Where an executor holds an execution. */
  predicate HeldAt(ex: Executor, j: nat, k: nat, e: ExecutionId) {
    j < |ex.queues| && k < |ex.queues[j].executions| && ex.queues[j].executions[k].record.execution == e
  }

  lemma {:induction false} QueuesHave(x: ExecutorId, queues: seq<JobQueue>, h: Holding) returns (j: nat, k: nat)
    requires h in QueuesHoldings(x, queues)
    ensures j < |queues| && k < |queues[j].executions|
    ensures h == Holding(x, queues[j].executions[k].record, queues[j].executions[k].state)
  {
    var n := |queues| - 1;
    if h in QueueHoldings(x, queues[n]) {
      var s := AsHoldings(x, queues[n].executions);
      assert h in s;
      j := n;
      k :| k < |s| && s[k] == h;
    } else {
      j, k := QueuesHave(x, queues[..n], h);
    }
  }

  lemma {:induction false} ExecutorsHave(executors: seq<Executor>, h: Holding) returns (i: nat, j: nat, k: nat)
    requires h in Holdings(executors)
    ensures i < |executors| && executors[i].id == h.executor && HeldAt(executors[i], j, k, h.record.execution)
    ensures h == Holding(executors[i].id, executors[i].queues[j].executions[k].record, executors[i].queues[j].executions[k].state)
  {
    var n := |executors| - 1;
    if h in ExecutorHoldings(executors[n]) {
      i := n;
      j, k := QueuesHave(executors[n].id, executors[n].queues, h);
    } else {
      i, j, k := ExecutorsHave(executors[..n], h);
    }
  }

  lemma HeldAtHeld(executors: seq<Executor>, i: nat, j: nat, k: nat)
    requires i < |executors| && j < |executors[i].queues| && k < |executors[i].queues[j].executions|
    ensures AsHoldings(executors[i].id, executors[i].queues[j].executions)[k] in Holdings(executors)
  {
    var ex := executors[i];
    var s := AsHoldings(ex.id, ex.queues[j].executions);
    assert s[k] in s && s[k] in multiset(s);
    QueueWithin(ex.id, ex.queues, j);
    ExecutorWithin(executors, i);
    assert 0 < multiset(s)[s[k]] <= ExecutorHoldings(ex)[s[k]] <= Holdings(executors)[s[k]];
  }

  // ---- The invariant of the pool.

  ghost predicate ExecutorValid(ex: Executor) {
    && (!ex.initialized ==> ex.queues == [])
    && forall j :: 0 <= j < |ex.queues| ==> |ex.queues[j].executions| <= ex.queues[j].maxExecutions
  }

  /** No execution is in two places, no queue has more executions than it may, and executors are known by their id. */
  ghost predicate PoolValid(executors: seq<Executor>) {
    && Unique(Holdings(executors))
    && (forall i, k :: 0 <= i < k < |executors| ==> executors[i].id != executors[k].id)
    && (forall i :: 0 <= i < |executors| ==> ExecutorValid(executors[i]))
  }

  ghost function Held(executors: seq<Executor>): map<ExecutionId, Holding>
    requires PoolValid(executors)
  {
    HeldMap(Holdings(executors))
  }

  function Live(executors: seq<Executor>): set<ExecutorId> { set i | 0 <= i < |executors| :: executors[i].id }

  lemma HeldAtIs(executors: seq<Executor>, i: nat, j: nat, k: nat)
    requires PoolValid(executors) && i < |executors|
    requires j < |executors[i].queues| && k < |executors[i].queues[j].executions|
    ensures var execution := executors[i].queues[j].executions[k];
            && execution.record.execution in Held(executors)
            && Held(executors)[execution.record.execution] == Holding(executors[i].id, execution.record, execution.state)
  {
    HeldAtHeld(executors, i, j, k);
  }

  lemma HeldIsSomewhere(executors: seq<Executor>, e: ExecutionId) returns (i: nat, j: nat, k: nat)
    requires PoolValid(executors) && e in Held(executors)
    ensures i < |executors| && executors[i].id == Held(executors)[e].executor && HeldAt(executors[i], j, k, e)
    ensures Held(executors)[e]
         == Holding(executors[i].id, executors[i].queues[j].executions[k].record, executors[i].queues[j].executions[k].state)
  {
    i, j, k := ExecutorsHave(executors, Held(executors)[e]);
  }

  lemma WithQueueValid(executors: seq<Executor>, i: nat, j: nat, q: JobQueue)
    requires PoolValid(executors) && i < |executors| && j < |executors[i].queues|
    requires |q.executions| <= q.maxExecutions && Unique(Holdings(WithQueue(executors, i, j, q)))
    ensures PoolValid(WithQueue(executors, i, j, q))
    ensures Live(WithQueue(executors, i, j, q)) == Live(executors)
  {
    var changed := WithQueue(executors, i, j, q);
    forall n | 0 <= n < |executors| ensures changed[n].id == executors[n].id && ExecutorValid(changed[n]) {
    }
    SameLive(executors, changed);
  }

  lemma RemoveSum(after: multiset<Holding>, before: multiset<Holding>, q: multiset<Holding>, r: multiset<Holding>, h: Holding)
    requires after == before - q + r && r == q - multiset{h} && q <= before && h in q
    ensures after == before - multiset{h} && multiset{h} <= before
  {
    forall g ensures after[g] == (before - multiset{h})[g] {
      assert r[g] == (q - multiset{h})[g] && q[g] <= before[g];
    }
    assert 0 < q[h] <= before[h];
  }

  lemma ChangeSum(after: multiset<Holding>, before: multiset<Holding>, q: multiset<Holding>, r: multiset<Holding>,
                  g: Holding, h: Holding)
    requires after == before - q + r && r == q - multiset{g} + multiset{h} && q <= before && g in q
    ensures after == before - multiset{g} + multiset{h} && multiset{g} <= before
  {
    forall f ensures after[f] == (before - multiset{g} + multiset{h})[f] {
      assert r[f] == (q - multiset{g} + multiset{h})[f] && q[f] <= before[f];
    }
    assert 0 < q[g] <= before[g];
  }

  lemma AddSum(after: multiset<Holding>, before: multiset<Holding>, q: multiset<Holding>, r: multiset<Holding>, h: Holding)
    requires after == before - q + r && r == q + multiset{h} && q <= before
    ensures after == before + multiset{h}
  {
    forall g ensures after[g] == (before + multiset{h})[g] {
      assert r[g] == (q + multiset{h})[g] && q[g] <= before[g];
    }
  }

  lemma HeldWithoutOne(m: multiset<Holding>, h: Holding)
    requires Unique(m) && multiset{h} <= m
    ensures Unique(m - multiset{h}) && HeldMap(m - multiset{h}) == HeldMap(m) - {h.record.execution}
  {
    HeldWithout(m, multiset{h});
    assert ExecutionsIn(multiset{h}) == {h.record.execution};
  }

  lemma HeldWithOther(m: multiset<Holding>, g: Holding, h: Holding)
    requires Unique(m) && multiset{g} <= m && g.record.execution == h.record.execution
    ensures Unique(m - multiset{g} + multiset{h})
    ensures HeldMap(m - multiset{g} + multiset{h}) == HeldMap(m)[h.record.execution := h]
  {
    HeldWithoutOne(m, g);
    PutBack(HeldMap(m), g.record.execution, h);
    HeldWith(m - multiset{g}, h);
  }

  /** Removing an execution from its queue. */
  lemma RemovedValid(executors: seq<Executor>, i: nat, j: nat, k: nat, q: JobQueue)
    requires PoolValid(executors) && i < |executors| && j < |executors[i].queues|
    requires k < |executors[i].queues[j].executions|
    requires q.executions == SwapRemove(executors[i].queues[j].executions, k)
    requires |q.executions| <= q.maxExecutions
    ensures PoolValid(WithQueue(executors, i, j, q)) && Live(WithQueue(executors, i, j, q)) == Live(executors)
    ensures Held(WithQueue(executors, i, j, q))
         == Held(executors) - {executors[i].queues[j].executions[k].record.execution}
  {
    var x, was := executors[i].id, executors[i].queues[j];
    WithQueueHoldings(executors, i, j, q);
    HoldingsRemoved(x, was.executions, k);
    var h := AsHoldings(x, was.executions)[k];
    RemoveSum(Holdings(WithQueue(executors, i, j, q)), Holdings(executors), QueueHoldings(x, was), QueueHoldings(x, q), h);
    HeldWithoutOne(Holdings(executors), h);
    WithQueueValid(executors, i, j, q);
  }

  /** Adding an execution that nobody holds. */
  lemma AddedToQueueValid(executors: seq<Executor>, i: nat, j: nat, execution: ExecutorExecution, q: JobQueue)
    requires PoolValid(executors) && i < |executors| && j < |executors[i].queues|
    requires execution.record.execution !in Held(executors)
    requires q.executions == executors[i].queues[j].executions + [execution]
    requires |q.executions| <= q.maxExecutions
    ensures PoolValid(WithQueue(executors, i, j, q)) && Live(WithQueue(executors, i, j, q)) == Live(executors)
    ensures Held(WithQueue(executors, i, j, q))
         == Held(executors)[execution.record.execution := Holding(executors[i].id, execution.record, execution.state)]
  {
    var x, was := executors[i].id, executors[i].queues[j];
    WithQueueHoldings(executors, i, j, q);
    HoldingsAdded(x, was.executions, execution);
    var h := Holding(x, execution.record, execution.state);
    AddSum(Holdings(WithQueue(executors, i, j, q)), Holdings(executors), QueueHoldings(x, was), QueueHoldings(x, q), h);
    HeldWith(Holdings(executors), h);
    WithQueueValid(executors, i, j, q);
  }

  /** Changing the state of an execution. */
  lemma ChangedValid(executors: seq<Executor>, i: nat, j: nat, k: nat, state: HoldState, q: JobQueue)
    requires PoolValid(executors) && i < |executors| && j < |executors[i].queues|
    requires k < |executors[i].queues[j].executions|
    requires var executions := executors[i].queues[j].executions;
             q.executions == executions[k := executions[k].(state := state)]
    requires |q.executions| <= q.maxExecutions
    ensures PoolValid(WithQueue(executors, i, j, q)) && Live(WithQueue(executors, i, j, q)) == Live(executors)
    ensures var r := executors[i].queues[j].executions[k].record;
            Held(WithQueue(executors, i, j, q)) == Held(executors)[r.execution := Holding(executors[i].id, r, state)]
  {
    var x, was := executors[i].id, executors[i].queues[j];
    var r := was.executions[k].record;
    WithQueueHoldings(executors, i, j, q);
    HoldingsChanged(x, was.executions, k, was.executions[k].(state := state));
    var g, h := AsHoldings(x, was.executions)[k], Holding(x, r, state);
    ChangeSum(Holdings(WithQueue(executors, i, j, q)), Holdings(executors), QueueHoldings(x, was), QueueHoldings(x, q), g, h);
    HeldWithOther(Holdings(executors), g, h);
    WithQueueValid(executors, i, j, q);
  }

  lemma CancelSum(a: multiset<Holding>, b: multiset<Holding>, e: multiset<Holding>)
    requires a + e == b + e
    ensures a == b
  {
    forall h ensures a[h] == b[h] {
      assert (a + e)[h] == (b + e)[h];
    }
  }

  lemma SameQueues(executors: seq<Executor>, i: nat, ex: Executor)
    requires i < |executors| && ex.id == executors[i].id && ex.queues == executors[i].queues
    ensures Holdings(executors[i := ex]) == Holdings(executors)
  {
    ExecutorsUpdate(executors, i, ex);
    CancelSum(Holdings(executors[i := ex]), Holdings(executors), ExecutorHoldings(executors[i]));
  }

  /** Replacing an executor by a valid one that holds the same executions. */
  lemma ReplacedExecutor(executors: seq<Executor>, i: nat, ex: Executor)
    requires PoolValid(executors) && i < |executors| && ex.id == executors[i].id && ExecutorValid(ex)
    requires Holdings(executors[i := ex]) == Holdings(executors)
    ensures PoolValid(executors[i := ex]) && Held(executors[i := ex]) == Held(executors)
    ensures Live(executors[i := ex]) == Live(executors)
  {
    var changed := executors[i := ex];
    forall n | 0 <= n < |executors| ensures changed[n].id == executors[n].id && ExecutorValid(changed[n]) {
    }
    SameLive(executors, changed);
  }

  /** What is sent to an executor does not matter for what it holds. */
  lemma SentValid(executors: seq<Executor>, i: nat, message: ServerMessage)
    requires PoolValid(executors) && i < |executors|
    ensures var sent := executors[i := Send(executors[i], message)];
            PoolValid(sent) && Held(sent) == Held(executors) && Live(sent) == Live(executors)
  {
    assert ExecutorValid(executors[i]);
    SameQueues(executors, i, Send(executors[i], message));
    ReplacedExecutor(executors, i, Send(executors[i], message));
  }

  lemma SameLive(a: seq<Executor>, b: seq<Executor>)
    requires |a| == |b| && forall n :: 0 <= n < |a| ==> a[n].id == b[n].id
    ensures Live(a) == Live(b)
  {
    assert forall n :: 0 <= n < |a| ==> a[n].id in Live(b) && b[n].id in Live(a);
  }

  // ---- Withdrawing offers.

  /** If no time is given, all offers are withdrawn. */
  predicate Withdrawn(state: HoldState, expiredAt: Option<Time>) {
    state.Offered? && (expiredAt.Some? ==> state.deadline <= expiredAt.value)
  }

  function Retained(s: seq<ExecutorExecution>, expiredAt: Option<Time>): (r: seq<ExecutorExecution>)
    ensures |r| <= |s|
    ensures forall execution :: execution in r ==> execution in s && !Withdrawn(execution.state, expiredAt)
  {
    if s == [] then []
    else
      var last := s[|s| - 1];
      Retained(s[..|s| - 1], expiredAt) + if Withdrawn(last.state, expiredAt) then [] else [last]
  }

  /** The executions that are not retained. */
  function Removed(s: seq<ExecutorExecution>, expiredAt: Option<Time>): (r: seq<ExecutorExecution>)
    ensures forall execution :: execution in r ==> execution in s && Withdrawn(execution.state, expiredAt)
  {
    if s == [] then []
    else
      var last := s[|s| - 1];
      Removed(s[..|s| - 1], expiredAt) + if Withdrawn(last.state, expiredAt) then [last] else []
  }

  lemma RetainNext(x: ExecutorId, before: seq<ExecutorExecution>, last: ExecutorExecution,
                   retained: seq<ExecutorExecution>, removed: seq<ExecutorExecution>)
    requires multiset(AsHoldings(x, retained)) + multiset(AsHoldings(x, removed)) == multiset(AsHoldings(x, before))
    ensures multiset(AsHoldings(x, retained + [last])) + multiset(AsHoldings(x, removed))
         == multiset(AsHoldings(x, before + [last]))
    ensures multiset(AsHoldings(x, retained)) + multiset(AsHoldings(x, removed + [last]))
         == multiset(AsHoldings(x, before + [last]))
  {
    HoldingsAdded(x, before, last);
    HoldingsAdded(x, retained, last);
    HoldingsAdded(x, removed, last);
  }

  lemma {:induction false} RetainedHoldings(x: ExecutorId, s: seq<ExecutorExecution>, expiredAt: Option<Time>)
    ensures multiset(AsHoldings(x, Retained(s, expiredAt))) + multiset(AsHoldings(x, Removed(s, expiredAt)))
         == multiset(AsHoldings(x, s))
  {
    if s == [] {
      assert AsHoldings(x, s) == [];
    } else {
      var before, last := s[..|s| - 1], s[|s| - 1];
      assert s == before + [last];
      RetainedHoldings(x, before, expiredAt);
      RetainedLast(s, expiredAt);
      RetainedHoldingsNext(x, before, last, s, expiredAt);
    }
  }

  lemma RetainedHoldingsNext(x: ExecutorId, before: seq<ExecutorExecution>, last: ExecutorExecution, s: seq<ExecutorExecution>,
                             expiredAt: Option<Time>)
    requires s == before + [last]
    requires multiset(AsHoldings(x, Retained(before, expiredAt))) + multiset(AsHoldings(x, Removed(before, expiredAt)))
          == multiset(AsHoldings(x, before))
    requires if Withdrawn(last.state, expiredAt)
             then Retained(s, expiredAt) == Retained(before, expiredAt)
                  && Removed(s, expiredAt) == Removed(before, expiredAt) + [last]
             else Retained(s, expiredAt) == Retained(before, expiredAt) + [last]
                  && Removed(s, expiredAt) == Removed(before, expiredAt)
    ensures multiset(AsHoldings(x, Retained(s, expiredAt))) + multiset(AsHoldings(x, Removed(s, expiredAt)))
         == multiset(AsHoldings(x, s))
  {
    RetainNext(x, before, last, Retained(before, expiredAt), Removed(before, expiredAt));
  }

  lemma RetainedLast(s: seq<ExecutorExecution>, expiredAt: Option<Time>)
    requires s != []
    ensures var before, last := s[..|s| - 1], s[|s| - 1];
            if Withdrawn(last.state, expiredAt)
            then Retained(s, expiredAt) == Retained(before, expiredAt)
                 && Removed(s, expiredAt) == Removed(before, expiredAt) + [last]
            else Retained(s, expiredAt) == Retained(before, expiredAt) + [last]
                 && Removed(s, expiredAt) == Removed(before, expiredAt)
  {
  }

  lemma RetainSum(after: multiset<Holding>, before: multiset<Holding>, q: multiset<Holding>, r: multiset<Holding>,
                  gone: multiset<Holding>)
    requires after == before - q + r && r + gone == q && q <= before
    ensures after == before - gone && gone <= before
  {
    forall g ensures after[g] == (before - gone)[g] && gone[g] <= before[g] {
      assert r[g] + gone[g] == (r + gone)[g] == q[g] <= before[g];
    }
  }

  /** Withdrawing the offers of one queue. */
  lemma RetainedValid(executors: seq<Executor>, i: nat, j: nat, expiredAt: Option<Time>, q: JobQueue)
    requires PoolValid(executors) && i < |executors| && j < |executors[i].queues|
    requires q.executions == Retained(executors[i].queues[j].executions, expiredAt)
    requires |q.executions| <= q.maxExecutions
    ensures PoolValid(WithQueue(executors, i, j, q)) && Live(WithQueue(executors, i, j, q)) == Live(executors)
    ensures Held(WithQueue(executors, i, j, q)) == Held(executors)
              - ExecutionsIn(multiset(AsHoldings(executors[i].id, Removed(executors[i].queues[j].executions, expiredAt))))
  {
    var x, was := executors[i].id, executors[i].queues[j];
    var gone := multiset(AsHoldings(x, Removed(was.executions, expiredAt)));
    WithQueueHoldings(executors, i, j, q);
    RetainedHoldings(x, was.executions, expiredAt);
    RetainSum(Holdings(WithQueue(executors, i, j, q)), Holdings(executors), QueueHoldings(x, was), QueueHoldings(x, q), gone);
    HeldWithout(Holdings(executors), gone);
    WithQueueValid(executors, i, j, q);
  }

  // ---- Dropping executors.

  function AssignedIn(s: seq<ExecutorExecution>): (r: seq<Record>)
    ensures forall record :: record in r <==> exists k :: 0 <= k < |s| && s[k] == ExecutorExecution(record, Accepted)
  {
    if s == [] then []
    else
      var last := s[|s| - 1];
      AssignedIn(s[..|s| - 1]) + if last.state.Accepted? then [last.record] else []
  }

  /** The executions accepted by an executor. */
  function Assigned(queues: seq<JobQueue>): (r: seq<Record>)
    ensures forall record :: record in r <==> exists j :: 0 <= j < |queues| && record in AssignedIn(queues[j].executions)
  {
    if queues == [] then [] else Assigned(queues[..|queues| - 1]) + AssignedIn(queues[|queues| - 1].executions)
  }

  function AcceptedHoldings(x: ExecutorId, records: seq<Record>): (s: seq<Holding>)
    ensures |s| == |records|
    ensures forall k :: 0 <= k < |s| ==> s[k] == Holding(x, records[k], Accepted)
  {
    seq(|records|, k requires 0 <= k < |records| => Holding(x, records[k], Accepted))
  }

  lemma AcceptedConcat(x: ExecutorId, a: seq<Record>, b: seq<Record>)
    ensures multiset(AcceptedHoldings(x, a + b)) == multiset(AcceptedHoldings(x, a)) + multiset(AcceptedHoldings(x, b))
  {
    assert AcceptedHoldings(x, a + b) == AcceptedHoldings(x, a) + AcceptedHoldings(x, b);
  }

  lemma WithinSum(a: multiset<Holding>, b: multiset<Holding>, c: multiset<Holding>, d: multiset<Holding>)
    requires a <= b && c <= d
    ensures a + c <= b + d
  {
    forall h ensures (a + c)[h] <= (b + d)[h] {
      assert a[h] <= b[h] && c[h] <= d[h];
    }
  }

  lemma {:induction false} AssignedInWithin(x: ExecutorId, s: seq<ExecutorExecution>)
    ensures multiset(AcceptedHoldings(x, AssignedIn(s))) <= multiset(AsHoldings(x, s))
  {
    if s != [] {
      var before, last := s[..|s| - 1], s[|s| - 1];
      var more := if last.state.Accepted? then [last.record] else [];
      AssignedInWithin(x, before);
      HoldingsAdded(x, before, last);
      assert before + [last] == s;
      AcceptedConcat(x, AssignedIn(before), more);
      WithinSum(multiset(AcceptedHoldings(x, AssignedIn(before))), multiset(AsHoldings(x, before)),
                multiset(AcceptedHoldings(x, more)), multiset{Holding(x, last.record, last.state)});
    }
  }

  lemma {:induction false} AssignedWithin(x: ExecutorId, queues: seq<JobQueue>)
    ensures multiset(AcceptedHoldings(x, Assigned(queues))) <= QueuesHoldings(x, queues)
  {
    if queues != [] {
      var before, last := queues[..|queues| - 1], queues[|queues| - 1];
      AssignedWithin(x, before);
      AssignedInWithin(x, last.executions);
      AcceptedConcat(x, Assigned(before), AssignedIn(last.executions));
      WithinSum(multiset(AcceptedHoldings(x, Assigned(before))), QueuesHoldings(x, before),
                multiset(AcceptedHoldings(x, AssignedIn(last.executions))), QueueHoldings(x, last));
    }
  }

  lemma TwiceInSequence<T>(s: seq<T>, i: nat, k: nat)
    requires i < k < |s| && s[i] == s[k]
    ensures multiset(s)[s[i]] >= 2
  {
    assert s == s[..i] + [s[i]] + s[i + 1..k] + [s[k]] + s[k + 1..];
  }

  lemma AssignedAtMostOnce(executors: seq<Executor>, i: nat, h: Holding)
    requires PoolValid(executors) && i < |executors|
    ensures multiset(AcceptedHoldings(executors[i].id, Assigned(executors[i].queues)))[h] <= 1
  {
    AssignedWithin(executors[i].id, executors[i].queues);
    ExecutorWithin(executors, i);
    assert multiset(AcceptedHoldings(executors[i].id, Assigned(executors[i].queues)))[h]
        <= ExecutorHoldings(executors[i])[h] <= Holdings(executors)[h];
  }

  /** The executions accepted by an executor are listed once each. */
  lemma AssignedOnce(executors: seq<Executor>, i: nat, m: nat, n: nat)
    requires PoolValid(executors) && i < |executors| && m < n < |Assigned(executors[i].queues)|
    ensures Assigned(executors[i].queues)[m] != Assigned(executors[i].queues)[n]
  {
    var records := Assigned(executors[i].queues);
    var s := AcceptedHoldings(executors[i].id, records);
    AssignedAtMostOnce(executors, i, s[m]);
    if records[m] == records[n] {
      TwiceInSequence(s, m, n);
    }
  }

  lemma AssignedIsHeld(executors: seq<Executor>, i: nat, r: Record)
    requires PoolValid(executors) && i < |executors|
    ensures r in Assigned(executors[i].queues)
       <==> r.execution in Held(executors) && Held(executors)[r.execution] == Holding(executors[i].id, r, Accepted)
  {
    var queues := executors[i].queues;
    if r in Assigned(queues) {
      var j :| 0 <= j < |queues| && r in AssignedIn(queues[j].executions);
      var k :| 0 <= k < |queues[j].executions| && queues[j].executions[k] == ExecutorExecution(r, Accepted);
      HeldAtIs(executors, i, j, k);
    }
    if r.execution in Held(executors) && Held(executors)[r.execution] == Holding(executors[i].id, r, Accepted) {
      var n, j, k := HeldIsSomewhere(executors, r.execution);
      assert n == i;
      assert queues[j].executions[k] == ExecutorExecution(r, Accepted);
      assert r in AssignedIn(queues[j].executions);
    }
  }

  lemma {:induction false} SwapRemovedHoldings(executors: seq<Executor>, i: nat)
    requires i < |executors|
    ensures Holdings(SwapRemove(executors, i)) + ExecutorHoldings(executors[i]) == Holdings(executors)
  {
    var n := |executors| - 1;
    var moved := executors[i := executors[n]];
    ExecutorsUpdate(executors, i, executors[n]);
    assert moved[..n] == SwapRemove(executors, i);
    SwapSum(Holdings(SwapRemove(executors, i)), Holdings(executors), ExecutorHoldings(executors[i]), ExecutorHoldings(executors[n]));
  }

  lemma SwapSum(after: multiset<Holding>, before: multiset<Holding>, e: multiset<Holding>, last: multiset<Holding>)
    requires after + last + e == before + last
    ensures after + e == before
  {
    forall h ensures (after + e)[h] == before[h] {
      assert (after + last + e)[h] == (before + last)[h];
    }
  }

  ghost function HeldFor(executors: seq<Executor>, x: ExecutorId): set<ExecutionId>
    requires PoolValid(executors)
  {
    set e | e in Held(executors) && Held(executors)[e].executor == x
  }

  lemma DroppedHolds(executors: seq<Executor>, i: nat)
    requires PoolValid(executors) && i < |executors|
    ensures ExecutionsIn(ExecutorHoldings(executors[i])) == HeldFor(executors, executors[i].id)
  {
    ExecutorWithin(executors, i);
    var m := ExecutorHoldings(executors[i]);
    forall h | h in m ensures h.record.execution in Held(executors) && Held(executors)[h.record.execution] == h && h.executor == executors[i].id {
      assert 0 < m[h] <= Holdings(executors)[h];
      var j, k := QueuesHave(executors[i].id, executors[i].queues, h);
    }
    forall e | e in Held(executors) && Held(executors)[e].executor == executors[i].id ensures e in ExecutionsIn(m) {
      var n, j, k := HeldIsSomewhere(executors, e);
      assert n == i;
      var s := AsHoldings(executors[i].id, executors[i].queues[j].executions);
      assert s[k] in s && s[k] in multiset(s);
      QueueWithin(executors[i].id, executors[i].queues, j);
      assert 0 < multiset(s)[s[k]] <= m[s[k]];
    }
  }

  lemma HeldAfter(after: multiset<Holding>, before: multiset<Holding>, gone: multiset<Holding>)
    requires Unique(before) && after + gone == before
    ensures Unique(after) && HeldMap(after) == HeldMap(before) - ExecutionsIn(gone)
  {
    assert after == before - gone;
    HeldWithout(before, gone);
  }

  lemma DroppedLive(executors: seq<Executor>, i: nat)
    requires i < |executors| && forall m, n :: 0 <= m < n < |executors| ==> executors[m].id != executors[n].id
    ensures Live(SwapRemove(executors, i)) == Live(executors) - {executors[i].id}
    ensures forall m, n :: 0 <= m < n < |executors| - 1 ==> SwapRemove(executors, i)[m].id != SwapRemove(executors, i)[n].id
    ensures forall n :: 0 <= n < |executors| - 1 ==> SwapRemove(executors, i)[n] in executors
  {
    var rest := SwapRemove(executors, i);
    var last := |executors| - 1;
    forall n | 0 <= n < |executors| && n != i ensures executors[n].id in Live(rest) {
      assert rest[if n == last then i else n].id == executors[n].id;
    }
    forall n | 0 <= n < last ensures rest[n].id in Live(executors) && rest[n].id != executors[i].id {
      assert rest[n] == executors[if n == i then last else n];
    }
  }

  /** Dropping an executor: what it accepted is listed, and nothing it held is left. */
  lemma DroppedValid(executors: seq<Executor>, i: nat)
    requires PoolValid(executors) && i < |executors|
    ensures PoolValid(SwapRemove(executors, i))
    ensures Live(SwapRemove(executors, i)) == Live(executors) - {executors[i].id}
    ensures Held(SwapRemove(executors, i))
         == Held(executors) - HeldFor(executors, executors[i].id)
  {
    var rest := SwapRemove(executors, i);
    SwapRemovedHoldings(executors, i);
    HeldAfter(Holdings(rest), Holdings(executors), ExecutorHoldings(executors[i]));
    DroppedHolds(executors, i);
    DroppedLive(executors, i);
  }
}
