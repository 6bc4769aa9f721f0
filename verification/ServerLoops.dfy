/** What the server loops compute from what they read, before they call the backend. */
module ServerLoops {
  import opened Common
  import opened RetryBackoff
  import opened Tables
  import opened TableInvariants
  import opened Backend
  import opened ReadyStream
  import opened PoolModel
  import opened PoolState
  import opened Offering
  import opened ExecutorPools
  import opened Dispatch

  datatype MaybeRetry = MaybeRetry(record: Record, failedAt: Time)

  // ---- Retrying or failing executions.

  predicate IsRetried(m: MaybeRetry) { m.record.attempt <= m.record.retry.retries }

  function RetryOf(m: MaybeRetry, now: Time): RetriedExecution {
    RetriedExecution(m.record.execution, m.record.job, m.failedAt, now + Backoff(m.record.retry, m.record.attempt))
  }

  function RetriesOf(executions: seq<MaybeRetry>, now: Time): seq<RetriedExecution> {
    if executions == [] then []
    else
      var last := executions[|executions| - 1];
      RetriesOf(executions[..|executions| - 1], now) + if IsRetried(last) then [RetryOf(last, now)] else []
  }

  function FailuresOf(executions: seq<MaybeRetry>): seq<FinishedExecution> {
    if executions == [] then []
    else
      var last := executions[|executions| - 1];
      FailuresOf(executions[..|executions| - 1])
      + if IsRetried(last) then [] else [FinishedExecution(last.record.execution, last.failedAt)]
  }

  /** Splits executions into those that are retried and those that reached their last attempt. */
  method SplitRetries(executions: seq<MaybeRetry>, now: Time)
    returns (failed: seq<FinishedExecution>, retried: seq<RetriedExecution>)
    ensures failed == FailuresOf(executions) && retried == RetriesOf(executions, now)
    ensures |failed| + |retried| == |executions|
    ensures forall r: RetriedExecution :: r in retried <==>
              exists i :: 0 <= i < |executions|
                && executions[i].record.attempt <= executions[i].record.retry.retries
                && r.execution == executions[i].record.execution && r.job == executions[i].record.job
                && r.failedAt == executions[i].failedAt
                && r.retryAt == now + Backoff(executions[i].record.retry, executions[i].record.attempt)
    ensures forall f: FinishedExecution :: f in failed <==>
              exists i :: 0 <= i < |executions|
                && executions[i].record.attempt > executions[i].record.retry.retries
                && f.execution == executions[i].record.execution && f.at == executions[i].failedAt
  {
    failed, retried := [], [];
    for i := 0 to |executions|
      invariant failed == FailuresOf(executions[..i]) && retried == RetriesOf(executions[..i], now)
      invariant |failed| + |retried| == i
    {
      assert executions[..i + 1][..i] == executions[..i];
      var m := executions[i];
      if m.record.attempt <= m.record.retry.retries {
        retried := retried + [RetriedExecution(m.record.execution, m.record.job, m.failedAt,
                                               now + Backoff(m.record.retry, m.record.attempt))];
      } else {
        failed := failed + [FinishedExecution(m.record.execution, m.failedAt)];
      }
    }
    assert executions[..|executions|] == executions;
    forall r: RetriedExecution
      ensures r in retried <==>
                exists i :: 0 <= i < |executions|
                  && executions[i].record.attempt <= executions[i].record.retry.retries
                  && r.execution == executions[i].record.execution && r.job == executions[i].record.job
                  && r.failedAt == executions[i].failedAt
                  && r.retryAt == now + Backoff(executions[i].record.retry, executions[i].record.attempt)
    {
      RetriesAre(executions, now, r);
    }
    forall f: FinishedExecution
      ensures f in failed <==>
                exists i :: 0 <= i < |executions|
                  && executions[i].record.attempt > executions[i].record.retry.retries
                  && f.execution == executions[i].record.execution && f.at == executions[i].failedAt
    {
      FailuresAre(executions, f);
    }
  }

  /** What is retried, and when: the backoff of its attempt from now. */
  lemma {:induction false} RetriesAre(executions: seq<MaybeRetry>, now: Time, r: RetriedExecution)
    ensures r in RetriesOf(executions, now) <==>
              exists i :: 0 <= i < |executions|
                && executions[i].record.attempt <= executions[i].record.retry.retries
                && r.execution == executions[i].record.execution && r.job == executions[i].record.job
                && r.failedAt == executions[i].failedAt
                && r.retryAt == now + Backoff(executions[i].record.retry, executions[i].record.attempt)
  {
    if executions != [] {
      var n := |executions| - 1;
      RetriesAre(executions[..n], now, r);
      assert forall i :: 0 <= i < n ==> executions[..n][i] == executions[i];
    }
  }

  /** What fails for good, and when it failed. */
  lemma {:induction false} FailuresAre(executions: seq<MaybeRetry>, f: FinishedExecution)
    ensures f in FailuresOf(executions) <==>
              exists i :: 0 <= i < |executions|
                && executions[i].record.attempt > executions[i].record.retry.retries
                && f.execution == executions[i].record.execution && f.at == executions[i].failedAt
  {
    if executions != [] {
      var n := |executions| - 1;
      FailuresAre(executions[..n], f);
      assert forall i :: 0 <= i < n ==> executions[..n][i] == executions[i];
    }
  }

  function RetriedRecords(executions: seq<MaybeRetry>): set<Record> { set m | m in executions && IsRetried(m) :: m.record }

  function FailedRecords(executions: seq<MaybeRetry>): set<Record> { set m | m in executions && !IsRetried(m) :: m.record }

  lemma {:induction false} RetriesNamed(executions: seq<MaybeRetry>, now: Time, m: MaybeRetry)
    requires m in executions && IsRetried(m)
    ensures RetryOf(m, now) in RetriesOf(executions, now)
  {
    var before := executions[..|executions| - 1];
    if m in before {
      RetriesNamed(before, now, m);
    }
  }

  lemma {:induction false} RetryFrom(executions: seq<MaybeRetry>, now: Time, r: RetriedExecution) returns (m: MaybeRetry)
    requires r in RetriesOf(executions, now)
    ensures m in executions && IsRetried(m) && r == RetryOf(m, now)
  {
    var before := executions[..|executions| - 1];
    if r in RetriesOf(before, now) {
      m := RetryFrom(before, now, r);
    } else {
      m := executions[|executions| - 1];
    }
  }

  function FinishedIds(s: seq<FinishedExecution>): set<ExecutionId> { set f | f in s :: f.execution }

  lemma FinishedIdsNext(s: seq<FinishedExecution>, next: FinishedExecution)
    ensures FinishedIds(s + [next]) == FinishedIds(s) + {next.execution}
  {
    forall e | e in FinishedIds(s) ensures e in FinishedIds(s + [next]) {
      var f :| f in s && f.execution == e;
      assert f in s + [next];
    }
    assert next in s + [next];
  }

  lemma {:induction false} FailuresNamed(executions: seq<MaybeRetry>)
    ensures FinishedIds(FailuresOf(executions)) == IdsOf(FailedRecords(executions))
  {
    if executions != [] {
      var before, last := executions[..|executions| - 1], executions[|executions| - 1];
      FailuresNamed(before);
      assert executions == before + [last];
      FailedRecordsNext(before, last);
      if IsRetried(last) {
        assert FailuresOf(executions) == FailuresOf(before);
      } else {
        FinishedIdsNext(FailuresOf(before), FinishedExecution(last.record.execution, last.failedAt));
      }
    }
  }

  lemma FailedRecordsNext(before: seq<MaybeRetry>, last: MaybeRetry)
    ensures IdsOf(FailedRecords(before + [last]))
         == IdsOf(FailedRecords(before)) + if IsRetried(last) then {} else {last.record.execution}
  {
    forall r ensures r in FailedRecords(before + [last]) <==> r in FailedRecords(before) || (!IsRetried(last) && r == last.record) {
      if r in FailedRecords(before) {
        var m :| m in before && !IsRetried(m) && m.record == r;
        assert m in before + [last];
      }
      if !IsRetried(last) && r == last.record {
        assert last in before + [last];
      }
    }
  }

  /** The calls are those that the protocol allows for the records. */
  lemma RetriesAreCall(executions: seq<MaybeRetry>, now: Time)
    ensures CallFor(TableRuns.Retrying(RetriesOf(executions, now)), RetriedRecords(executions))
  {
    var batch, records := RetriesOf(executions, now), RetriedRecords(executions);
    forall r | r in records ensures Names(batch, r) {
      var m :| m in executions && IsRetried(m) && m.record == r;
      RetriesNamed(executions, now, m);
      var i :| 0 <= i < |batch| && batch[i] == RetryOf(m, now);
      assert batch[i].execution == r.execution;
    }
    forall i | 0 <= i < |batch| ensures FromRecords(records, batch[i]) {
      var m := RetryFrom(executions, now, batch[i]);
      assert m.record in records && Retries(m.record, batch[i]);
    }
  }

  lemma FailuresAreCall(executions: seq<MaybeRetry>, times: map<JobId, Time>)
    ensures CallFor(TableRuns.Finishing(FirstTimes(FailuresOf(executions)), Finish.Failure, times), FailedRecords(executions))
  {
    var failures := FailuresOf(executions);
    TableRuns.FirstTimesNamed(failures);
    FailuresNamed(executions);
    forall e ensures e in FirstTimes(failures) <==> e in FinishedIds(failures) {
      if e in FirstTimes(failures) {
        var i :| 0 <= i < |failures| && failures[i].execution == e;
        assert failures[i] in failures;
      }
    }
  }

  // ---- The results of a batch of events.

  /** An event that reports a success with valid output. */
  predicate IsSuccess(event: ExecutorEvent, validJson: string -> bool) {
    event.ExecutionFinished? && event.result.Success? && validJson(event.result.output)
  }

  function AllAt(records: seq<Record>, at: Time): (s: seq<MaybeRetry>)
    ensures |s| == |records| && forall i :: 0 <= i < |s| ==> s[i] == MaybeRetry(records[i], at)
  {
    seq(|records|, i requires 0 <= i < |records| => MaybeRetry(records[i], at))
  }

  /** What an event contributes: failures are reported at their own time, disconnects and their executions now. */
  function SucceededIn(event: ExecutorEvent, validJson: string -> bool): seq<FinishedExecution> {
    if IsSuccess(event, validJson) then [FinishedExecution(event.record.execution, event.at)] else []
  }

  function MaybeRetriedIn(event: ExecutorEvent, validJson: string -> bool, now: Time): seq<MaybeRetry> {
    match event
    case JobTypesAdded(_) => []
    case ExecutionFinished(record, _, at) => if IsSuccess(event, validJson) then [] else [MaybeRetry(record, at)]
    case ExecutorDisconnected(executor) => AllAt(Assigned(executor.queues), now)
  }

  function SucceededOf(events: seq<ExecutorEvent>, validJson: string -> bool): seq<FinishedExecution> {
    if events == [] then []
    else SucceededOf(events[..|events| - 1], validJson) + SucceededIn(events[|events| - 1], validJson)
  }

  function MaybeRetriedOf(events: seq<ExecutorEvent>, validJson: string -> bool, now: Time): seq<MaybeRetry> {
    if events == [] then []
    else MaybeRetriedOf(events[..|events| - 1], validJson, now) + MaybeRetriedIn(events[|events| - 1], validJson, now)
  }

  /** Sorts a batch of events. */
  method CollectResults(events: seq<ExecutorEvent>, validJson: string -> bool, now: Time)
    returns (succeeded: seq<FinishedExecution>, maybeRetry: seq<MaybeRetry>)
    ensures succeeded == SucceededOf(events, validJson) && maybeRetry == MaybeRetriedOf(events, validJson, now)
    // The successes are those reported as such with a valid output, at the time that was reported.
    ensures forall f: FinishedExecution :: f in succeeded <==>
              exists i :: 0 <= i < |events| && events[i].ExecutionFinished?
                && events[i].result.Success? && validJson(events[i].result.output)
                && f.execution == events[i].record.execution && f.at == events[i].at
    // All that may be retried: failures and invalid outputs at their time, and what a gone executor had accepted now.
    ensures forall m: MaybeRetry :: m in maybeRetry <==>
              exists i :: 0 <= i < |events|
                && (|| (events[i].ExecutionFinished?
                        && (events[i].result.Failure? || !validJson(events[i].result.output))
                        && m.record == events[i].record && m.failedAt == events[i].at)
                    || (events[i].ExecutorDisconnected? && m.failedAt == now
                        && exists j, k :: 0 <= j < |events[i].executor.queues|
                             && 0 <= k < |events[i].executor.queues[j].executions|
                             && events[i].executor.queues[j].executions[k].state.Accepted?
                             && events[i].executor.queues[j].executions[k].record == m.record))
  {
    succeeded, maybeRetry := [], [];
    for i := 0 to |events|
      invariant succeeded == SucceededOf(events[..i], validJson)
      invariant maybeRetry == MaybeRetriedOf(events[..i], validJson, now)
    {
      assert events[..i + 1][..i] == events[..i];
      match events[i] {
        case JobTypesAdded(_) =>
        case ExecutionFinished(record, result, at) =>
          if result.Success? && validJson(result.output) {
            succeeded := succeeded + [FinishedExecution(record.execution, at)];
          } else {
            maybeRetry := maybeRetry + [MaybeRetry(record, at)];
          }
        case ExecutorDisconnected(executor) =>
          maybeRetry := maybeRetry + AllAt(Assigned(executor.queues), now);
      }
    }
    assert events[..|events|] == events;
    forall f: FinishedExecution
      ensures f in succeeded <==>
                exists i :: 0 <= i < |events| && events[i].ExecutionFinished?
                  && events[i].result.Success? && validJson(events[i].result.output)
                  && f.execution == events[i].record.execution && f.at == events[i].at
    {
      SucceededAre(events, validJson, f);
    }
    forall m: MaybeRetry
      ensures m in maybeRetry <==>
                exists i :: 0 <= i < |events|
                  && (|| (events[i].ExecutionFinished?
                          && (events[i].result.Failure? || !validJson(events[i].result.output))
                          && m.record == events[i].record && m.failedAt == events[i].at)
                      || (events[i].ExecutorDisconnected? && m.failedAt == now
                          && exists j, k :: 0 <= j < |events[i].executor.queues|
                               && 0 <= k < |events[i].executor.queues[j].executions|
                               && events[i].executor.queues[j].executions[k].state.Accepted?
                               && events[i].executor.queues[j].executions[k].record == m.record))
    {
      MaybeRetriedAre(events, validJson, now, m);
    }
  }

  lemma {:induction false} SucceededAre(events: seq<ExecutorEvent>, validJson: string -> bool, f: FinishedExecution)
    ensures f in SucceededOf(events, validJson) <==>
              exists i :: 0 <= i < |events| && events[i].ExecutionFinished?
                && events[i].result.Success? && validJson(events[i].result.output)
                && f.execution == events[i].record.execution && f.at == events[i].at
  {
    if events != [] {
      var n := |events| - 1;
      SucceededAre(events[..n], validJson, f);
      assert forall i :: 0 <= i < n ==> events[..n][i] == events[i];
    }
  }

  lemma {:induction false} AssignedAre(queues: seq<JobQueue>, r: Record)
    ensures r in Assigned(queues) <==>
              exists j, k :: 0 <= j < |queues| && 0 <= k < |queues[j].executions|
                && queues[j].executions[k].state.Accepted? && queues[j].executions[k].record == r
  {
    if queues != [] {
      var n := |queues| - 1;
      AssignedAre(queues[..n], r);
      assert forall j :: 0 <= j < n ==> queues[..n][j] == queues[j];
      assert r in AssignedIn(queues[n].executions) <==>
        exists k :: 0 <= k < |queues[n].executions| && queues[n].executions[k] == ExecutorExecution(r, Accepted);
    }
  }

  lemma MaybeRetriedFrom(event: ExecutorEvent, validJson: string -> bool, now: Time, m: MaybeRetry)
    ensures m in MaybeRetriedIn(event, validJson, now) <==>
              (|| (event.ExecutionFinished? && (event.result.Failure? || !validJson(event.result.output))
                   && m.record == event.record && m.failedAt == event.at)
               || (event.ExecutorDisconnected? && m.failedAt == now
                   && exists j, k :: 0 <= j < |event.executor.queues| && 0 <= k < |event.executor.queues[j].executions|
                        && event.executor.queues[j].executions[k].state.Accepted?
                        && event.executor.queues[j].executions[k].record == m.record))
  {
    if event.ExecutorDisconnected? {
      var records := Assigned(event.executor.queues);
      AssignedAre(event.executor.queues, m.record);
      if m.record in records && m.failedAt == now {
        var i :| 0 <= i < |records| && records[i] == m.record;
        assert AllAt(records, now)[i] == m;
      }
    }
  }

  lemma {:induction false} MaybeRetriedAre(events: seq<ExecutorEvent>, validJson: string -> bool, now: Time, m: MaybeRetry)
    ensures m in MaybeRetriedOf(events, validJson, now) <==>
              exists i :: 0 <= i < |events|
                && (|| (events[i].ExecutionFinished?
                        && (events[i].result.Failure? || !validJson(events[i].result.output))
                        && m.record == events[i].record && m.failedAt == events[i].at)
                    || (events[i].ExecutorDisconnected? && m.failedAt == now
                        && exists j, k :: 0 <= j < |events[i].executor.queues|
                             && 0 <= k < |events[i].executor.queues[j].executions|
                             && events[i].executor.queues[j].executions[k].state.Accepted?
                             && events[i].executor.queues[j].executions[k].record == m.record))
  {
    if events != [] {
      var n := |events| - 1;
      MaybeRetriedAre(events[..n], validJson, now, m);
      MaybeRetriedFrom(events[n], validJson, now, m);
      assert forall i :: 0 <= i < n ==> events[..n][i] == events[i];
    }
  }

  /** Each result of the events is counted once, as a success or as a failure that might be retried. */
  lemma {:induction false} NoResultIsLost(events: seq<ExecutorEvent>, validJson: string -> bool, now: Time)
    ensures |SucceededOf(events, validJson)| + |MaybeRetriedOf(events, validJson, now)| == |ResultsOf(events)|
  {
    if events != [] {
      NoResultIsLost(events[..|events| - 1], validJson, now);
    }
  }

  /** Each result of the events is among the successes, or among the failures with its own record. */
  lemma {:induction false} ResultIsHandled(events: seq<ExecutorEvent>, validJson: string -> bool, now: Time, r: Record)
    requires r in ResultsOf(events)
    ensures || (exists f :: f in SucceededOf(events, validJson) && f.execution == r.execution)
            || (exists m :: m in MaybeRetriedOf(events, validJson, now) && m.record == r)
  {
    var before, last := events[..|events| - 1], events[|events| - 1];
    if r in ResultsOf(before) {
      ResultIsHandled(before, validJson, now, r);
    } else if IsSuccess(last, validJson) {
      assert FinishedExecution(r.execution, last.at) in SucceededOf(events, validJson);
    } else if last.ExecutionFinished? {
      assert MaybeRetry(r, last.at) in MaybeRetriedOf(events, validJson, now);
    } else {
      var records := Assigned(last.executor.queues);
      var i :| 0 <= i < |records| && records[i] == r;
      assert AllAt(records, now)[i] == MaybeRetry(r, now);
    }
  }

  // ---- Recording starts.

  lemma {:induction false} SetOfDistinct(s: seq<ExecutionId>)
    requires forall i, k :: 0 <= i < k < |s| ==> s[i] != s[k]
    ensures |Ids(s)| == |s|
  {
    if s != [] {
      var n := |s| - 1;
      SetOfDistinct(s[..n]);
      assert Ids(s) == Ids(s[..n]) + {s[n]};
    }
  }

  lemma {:induction false} SetOfAny(s: seq<ExecutionId>)
    ensures |Ids(s)| <= |s|
  {
    if s != [] {
      var n := |s| - 1;
      SetOfAny(s[..n]);
      assert Ids(s) == Ids(s[..n]) + {s[n]};
    }
  }

  lemma {:induction false} SameSizeSubset(a: set<ExecutionId>, b: set<ExecutionId>)
    requires a <= b && |a| >= |b|
    ensures a == b
  {
    if a != b {
      var e :| e in b && e !in a;
      SubsetIsSmaller(a, b - {e});
    }
  }

  lemma {:induction false} SubsetIsSmaller(a: set<ExecutionId>, b: set<ExecutionId>)
    requires a <= b
    ensures |a| <= |b|
  {
    if a != {} {
      var e :| e in a;
      SubsetIsSmaller(a - {e}, b - {e});
    }
  }

  /** The executions that were not started. Comparing the numbers first is enough to know that there are none. */
  method NotStarted(ids: seq<ExecutionId>, started: seq<ExecutionId>) returns (left: seq<ExecutionId>)
    requires forall e :: e in started ==> e in ids
    requires forall i, k :: 0 <= i < k < |started| ==> started[i] != started[k]
    ensures forall e :: e in left <==> e in ids && e !in started
  {
    left := [];
    if |started| != |ids| {
      var startedIds := Ids(started);
      for i := 0 to |ids|
        invariant forall e :: e in left <==> e in ids[..i] && e !in started
      {
        if ids[i] !in startedIds {
          left := left + [ids[i]];
        }
      }
      assert ids[..|ids|] == ids;
    } else {
      SetOfDistinct(started);
      SetOfAny(ids);
      SameSizeSubset(Ids(started), Ids(ids));
      forall e | e in ids ensures e in started {
        assert e in Ids(ids);
      }
    }
  }

  // ---- Timeouts and orphans.

  function RecordOfRow(row: InProgressExecution): Record { Record(row.execution, row.job, row.retry, row.attempt) }

  /** Timeouts that end after the latest representable time do not happen. */
  predicate TimedOut(row: InProgressExecution, now: Time, maxTime: Time) {
    var base := if row.timeout.baseTime.TargetExecutionTime? then row.target else row.startedAt;
    row.timeout.timeout > 0 && base + row.timeout.timeout <= maxTime && now > base + row.timeout.timeout
  }

  /** One page of the scan: the executions of executors that are gone, and those that timed out. */
  method ScanPage(page: seq<InProgressExecution>, live: set<ExecutorId>, now: Time, maxTime: Time)
    returns (orphaned: seq<MaybeRetry>, timedOut: seq<MaybeRetry>)
    ensures forall m :: m in orphaned <==>
              exists i :: 0 <= i < |page| && m == MaybeRetry(RecordOfRow(page[i]), now) && page[i].executor !in live
    ensures forall m :: m in timedOut <==>
              exists i :: 0 <= i < |page| && m == MaybeRetry(RecordOfRow(page[i]), now)
                          && page[i].executor in live && TimedOut(page[i], now, maxTime)
    // What times out: executions that run longer than their timeout from the target time of the job, or from their start.
    ensures forall m: MaybeRetry :: m in timedOut <==>
              exists i :: 0 <= i < |page| && page[i].executor in live && m.failedAt == now
                && m.record.execution == page[i].execution && m.record.job == page[i].job
                && m.record.retry == page[i].retry && m.record.attempt == page[i].attempt
                && page[i].timeout.timeout > 0
                && (page[i].timeout.baseTime.TargetExecutionTime? ==>
                      page[i].target + page[i].timeout.timeout <= maxTime && page[i].target + page[i].timeout.timeout < now)
                && (page[i].timeout.baseTime.StartTime? ==>
                      page[i].startedAt + page[i].timeout.timeout <= maxTime && page[i].startedAt + page[i].timeout.timeout < now)
    ensures forall m: MaybeRetry :: m in orphaned <==>
              exists i :: 0 <= i < |page| && page[i].executor !in live && m.failedAt == now
                && m.record.execution == page[i].execution && m.record.job == page[i].job
                && m.record.retry == page[i].retry && m.record.attempt == page[i].attempt
  {
    orphaned, timedOut := [], [];
    for i := 0 to |page|
      invariant forall m :: m in orphaned <==>
                  exists k :: 0 <= k < i && m == MaybeRetry(RecordOfRow(page[k]), now) && page[k].executor !in live
      invariant forall m :: m in timedOut <==>
                  exists k :: 0 <= k < i && m == MaybeRetry(RecordOfRow(page[k]), now)
                              && page[k].executor in live && TimedOut(page[k], now, maxTime)
    {
      var row := page[i];
      var m := MaybeRetry(Record(row.execution, row.job, row.retry, row.attempt), now);
      if row.executor !in live {
        orphaned := orphaned + [m];
        continue;
      }
      if row.timeout.timeout == 0 {
        continue;
      }
      var base := match row.timeout.baseTime
        case TargetExecutionTime => row.target
        case StartTime => row.startedAt;
      if base + row.timeout.timeout > maxTime {
        continue;
      }
      if now > base + row.timeout.timeout {
        timedOut := timedOut + [m];
      }
    }
  }

  // ---- What the streams yield is what the protocol fetches and scans.

  lemma ReadyRowIsFetched(s: Snapshot, ignore: set<ExecutionId>, rows: seq<ReadyExecution>, i: nat)
    requires RowsOfPage(s, ignore, rows) && i < |rows|
    ensures Describes(s.d, RecordOf(rows[i])) && ReadyOrScheduled(s.d, rows[i].execution)
  {
  }

  lemma InProgressRowIsScanned(d: Db, rows: seq<InProgressExecution>, i: nat)
    requires HaveExecutors(d) && InProgressRowsOf(d, rows) && i < |rows|
    ensures Describes(d, RecordOfRow(rows[i])) && d.executions[rows[i].execution].Status().InProgress?
    ensures d.executions[rows[i].execution].executor == Some(rows[i].executor)
  {
  }
}
