/**
  The streams of executions: each page is read from the tables as they are at that moment, starting
  after the last row of the previous page, until a page is empty.
 */
module ReadyStream {
  import opened Common
  import opened RetryBackoff
  import opened Tables
  import opened TableInvariants
  import opened TableRuns
  import opened Keyset

  const PAGE_SIZE: nat := 1000

  /** The tables a page is read from, and the time of the database. */
  datatype Snapshot = Snapshot(d: Db, now: Time)

  datatype ReadyExecution = ReadyExecution(
    execution: ExecutionId, job: JobId, jobType: string, attempt: nat, retry: RetryPolicy,
    target: Time, priority: int)

  predicate IsReady(s: Snapshot, ignore: set<ExecutionId>, e: ExecutionId) {
    && e in s.d.executions && e !in ignore
    && s.d.executions[e].Status().Pending? && s.d.executions[e].target <= s.now
    && s.d.executions[e].job in s.d.jobs
  }

  /** Higher priorities first, then older executions. */
  function ReadyKeys(s: Snapshot, ignore: set<ExecutionId>): set<Key> {
    set e | e in s.d.executions && IsReady(s, ignore, e) :: Key(-s.d.executions[e].priority, e)
  }

  function ReadyRow(d: Db, e: ExecutionId): ReadyExecution
    requires e in d.executions && d.executions[e].job in d.jobs
  {
    var row := d.executions[e];
    var definition := d.jobs[row.job].definition;
    ReadyExecution(e, row.job, definition.jobType, Attempts(d, row.job), definition.retry, row.target, row.priority)
  }

  function RowKey(row: ReadyExecution): Key { Key(-row.priority, row.execution) }

  function RowKeys(rows: seq<ReadyExecution>): (keys: seq<Key>)
    ensures |keys| == |rows|
  {
    seq(|rows|, i requires 0 <= i < |rows| => RowKey(rows[i]))
  }

  function Concat<T>(pages: seq<seq<T>>): seq<T> { if pages == [] then [] else Concat(pages[..|pages| - 1]) + pages[|pages| - 1] }

  // ---- Any stream of keys.

  /** What `ORDER BY` and `LIMIT` select: the first keys after the cursor. */
  predicate IsPage(keys: set<Key>, cursor: Option<Key>, page: seq<Key>) {
    && Ascending(page) && |page| <= PAGE_SIZE
    && (forall k :: k in page ==> k in keys && (cursor.Some? ==> Less(cursor.value, k)))
    && (forall k :: k in keys && (cursor.Some? ==> Less(cursor.value, k)) && k !in page ==>
          |page| == PAGE_SIZE && Less(page[|page| - 1], k))
  }

  /** Each page starts after the last key of the page before. */
  function Cursor(pages: seq<seq<Key>>, i: nat): Option<Key>
    requires i <= |pages|
  {
    if i == 0 || pages[i - 1] == [] then None else Some(pages[i - 1][|pages[i - 1]| - 1])
  }

  predicate IsStreamPage(sets: seq<set<Key>>, pages: seq<seq<Key>>, i: nat)
    requires i < |sets| && i < |pages|
  {
    pages[i] != [] && IsPage(sets[i], Cursor(pages, i), pages[i])
  }

  /** The pages of a stream over changing sets of keys, the i-th page being read from the i-th set. */
  predicate IsStream(sets: seq<set<Key>>, pages: seq<seq<Key>>) {
    && |pages| <= |sets|
    && forall i: nat {:trigger IsStreamPage(sets, pages, i)} :: i < |pages| ==> IsStreamPage(sets, pages, i)
  }

  /** The stream ends with the first empty page. */
  predicate Ends(sets: seq<set<Key>>, pages: seq<seq<Key>>) {
    |pages| < |sets| && IsPage(sets[|pages|], Cursor(pages, |pages|), [])
  }

  /** However the rows change between the pages, the keys keep increasing: none appears twice. */
  lemma {:induction false} StreamAscends(sets: seq<set<Key>>, pages: seq<seq<Key>>)
    requires IsStream(sets, pages)
    ensures Ascending(Concat(pages))
    ensures pages != [] ==> Concat(pages) != [] && Some(Concat(pages)[|Concat(pages)| - 1]) == Cursor(pages, |pages|)
  {
    if pages != [] {
      var n := |pages| - 1;
      var before := pages[..n];
      forall i: nat | i < n ensures IsStreamPage(sets, before, i) {
        assert IsStreamPage(sets, pages, i) && Cursor(before, i) == Cursor(pages, i);
      }
      StreamAscends(sets, before);
      assert IsStreamPage(sets, pages, n) && Cursor(before, n) == Cursor(pages, n);
      AscendingConcat(Concat(before), pages[n]);
    }
  }

  lemma AscendingConcat(a: seq<Key>, b: seq<Key>)
    requires Ascending(a) && Ascending(b) && (a != [] ==> forall k :: k in b ==> Less(a[|a| - 1], k))
    ensures Ascending(a + b)
  {
    forall i, j | 0 <= i < j < |a + b| ensures Less((a + b)[i], (a + b)[j]) {
      if i < |a| <= j {
        assert (a + b)[j] in b;
        assert i < |a| - 1 ==> Less(a[i], a[|a| - 1]);
      }
    }
  }

  /** A key that every page could have read is on one of the pages, or is still to come. */
  lemma {:induction false} StreamSkipsNothing(sets: seq<set<Key>>, pages: seq<seq<Key>>, n: nat, k: Key)
    requires IsStream(sets, pages) && n <= |pages| && forall i :: 0 <= i < n ==> k in sets[i]
    ensures || (exists i :: 0 <= i < n && k in pages[i])
            || (Cursor(pages, n).Some? ==> Less(Cursor(pages, n).value, k))
  {
    if n > 0 {
      StreamSkipsNothing(sets, pages, n - 1, k);
      assert IsStreamPage(sets, pages, n - 1);
      assert k in pages[n - 1] || Less(pages[n - 1][|pages[n - 1]| - 1], k) || (exists i :: 0 <= i < n - 1 && k in pages[i]);
    }
  }

  /** A key that every page could have read is on one of the pages, once a page is empty. */
  lemma StreamIsComplete(sets: seq<set<Key>>, pages: seq<seq<Key>>, k: Key)
    requires IsStream(sets, pages) && Ends(sets, pages) && forall i :: 0 <= i <= |pages| ==> k in sets[i]
    ensures exists i :: 0 <= i < |pages| && k in pages[i]
  {
    StreamSkipsNothing(sets, pages, |pages|, k);
    assert k in sets[|pages|];
  }

  // ---- Ready executions.

  function ReadySets(snapshots: seq<Snapshot>, ignore: set<ExecutionId>): (sets: seq<set<Key>>)
    ensures |sets| == |snapshots|
    ensures forall i :: 0 <= i < |snapshots| ==> sets[i] == ReadyKeys(snapshots[i], ignore)
  {
    seq(|snapshots|, i requires 0 <= i < |snapshots| => ReadyKeys(snapshots[i], ignore))
  }

  function KeyPages(pages: seq<seq<ReadyExecution>>): (keys: seq<seq<Key>>)
    ensures |keys| == |pages|
    ensures forall i :: 0 <= i < |pages| ==> keys[i] == RowKeys(pages[i])
  {
    seq(|pages|, i requires 0 <= i < |pages| => RowKeys(pages[i]))
  }

  lemma ReadyKeyIsReady(s: Snapshot, ignore: set<ExecutionId>, k: Key)
    requires k in ReadyKeys(s, ignore)
    ensures k.minor >= 0 && IsReady(s, ignore, k.minor) && s.d.executions[k.minor].priority == -k.major
  {
  }

  /** The rows of a page of ready executions, the attempt number being the number of executions of the job. */
  predicate RowsOfPage(s: Snapshot, ignore: set<ExecutionId>, rows: seq<ReadyExecution>) {
    forall i :: 0 <= i < |rows| ==>
      IsReady(s, ignore, rows[i].execution) && rows[i] == ReadyRow(s.d, rows[i].execution)
  }

  /** Every row of a page is of a pending execution that is due and not ignored, with the columns of both its rows. */
  lemma ReadyRowColumns(s: Snapshot, ignore: set<ExecutionId>, rows: seq<ReadyExecution>, i: nat)
    requires RowsOfPage(s, ignore, rows) && i < |rows|
    ensures var row, d := rows[i], s.d;
            && row.execution in d.executions && d.executions[row.execution].Status().Pending?
            && row.execution !in ignore && d.executions[row.execution].target <= s.now
            && row.job == d.executions[row.execution].job && row.job in d.jobs
            && row.target == d.executions[row.execution].target && row.priority == d.executions[row.execution].priority
            && row.jobType == d.jobs[row.job].definition.jobType && row.retry == d.jobs[row.job].definition.retry
            && row.attempt == |set e | e in d.executions && d.executions[e].job == row.job|
  {
    assert ExecutionsOf(s.d, rows[i].job) == set e | e in s.d.executions && s.d.executions[e].job == rows[i].job;
  }

  lemma PageIsPage(keys: set<Key>, cursor: Option<Key>)
    ensures IsPage(keys, cursor, Page(keys, cursor, PAGE_SIZE))
  {
    var page := Page(keys, cursor, PAGE_SIZE);
    forall k | k in After(keys, cursor) && k !in page ensures |page| == PAGE_SIZE && Less(page[|page| - 1], k) {
      if |page| < PAGE_SIZE || !Less(page[|page| - 1], k) {
        PageIsPrefix(keys, cursor, PAGE_SIZE, k);
      }
    }
  }

  method ReadPage(s: Snapshot, ignore: set<ExecutionId>, cursor: Option<Key>) returns (rows: seq<ReadyExecution>)
    ensures RowsOfPage(s, ignore, rows)
    ensures IsPage(ReadyKeys(s, ignore), cursor, RowKeys(rows)) && |rows| <= 1000
  {
    var page := Page(ReadyKeys(s, ignore), cursor, PAGE_SIZE);
    rows := [];
    for i := 0 to |page|
      invariant |rows| == i
      invariant RowsOfPage(s, ignore, rows)
      invariant forall n :: 0 <= n < i ==> RowKey(rows[n]) == page[n]
    {
      assert page[i] in page;
      ReadyKeyIsReady(s, ignore, page[i]);
      rows := rows + [ReadyRow(s.d, page[i].minor)];
    }
    assert RowKeys(rows) == page;
    PageIsPage(ReadyKeys(s, ignore), cursor);
  }

  /** The stream, `snapshots` being what its pages find for as long as the caller reads it. */
  method ReadyExecutions(snapshots: seq<Snapshot>, ignore: set<ExecutionId>)
    returns (pages: seq<seq<ReadyExecution>>, ended: bool)
    ensures IsStream(ReadySets(snapshots, ignore), KeyPages(pages))
    ensures if ended then Ends(ReadySets(snapshots, ignore), KeyPages(pages)) else |pages| == |snapshots|
    ensures forall i :: 0 <= i < |pages| ==> RowsOfPage(snapshots[i], ignore, pages[i])
    // Every row is of an execution that is pending, due and not ignored when its page is read.
    ensures forall i, n :: 0 <= i < |pages| && 0 <= n < |pages[i]| ==>
              var row, d := pages[i][n], snapshots[i].d;
              && row.execution in d.executions && d.executions[row.execution].Status().Pending?
              && row.execution !in ignore && d.executions[row.execution].target <= snapshots[i].now
              && row.job == d.executions[row.execution].job && row.job in d.jobs
              && row.target == d.executions[row.execution].target && row.priority == d.executions[row.execution].priority
              && row.jobType == d.jobs[row.job].definition.jobType && row.retry == d.jobs[row.job].definition.retry
              && row.attempt == |set e | e in d.executions && d.executions[e].job == row.job|
  {
    var lastExecution: Option<Key> := None;
    pages, ended := [], false;
    while |pages| < |snapshots|
      invariant IsStream(ReadySets(snapshots, ignore), KeyPages(pages))
      invariant forall i :: 0 <= i < |pages| ==> RowsOfPage(snapshots[i], ignore, pages[i])
      invariant lastExecution == Cursor(KeyPages(pages), |pages|) && !ended
      decreases |snapshots| - |pages|
    {
      var rows := ReadPage(snapshots[|pages|], ignore, lastExecution);
      if rows == [] {
        ended := true;
        break;
      }
      StreamGrows(ReadySets(snapshots, ignore), KeyPages(pages), RowKeys(rows));
      assert KeyPages(pages + [rows]) == KeyPages(pages) + [RowKeys(rows)];
      lastExecution := Some(RowKey(rows[|rows| - 1]));
      pages := pages + [rows];
    }
    forall i, n | 0 <= i < |pages| && 0 <= n < |pages[i]|
      ensures var row, d := pages[i][n], snapshots[i].d;
              && row.execution in d.executions && d.executions[row.execution].Status().Pending?
              && row.execution !in ignore && d.executions[row.execution].target <= snapshots[i].now
              && row.job == d.executions[row.execution].job && row.job in d.jobs
              && row.target == d.executions[row.execution].target && row.priority == d.executions[row.execution].priority
              && row.jobType == d.jobs[row.job].definition.jobType && row.retry == d.jobs[row.job].definition.retry
              && row.attempt == |set e | e in d.executions && d.executions[e].job == row.job|
    {
      ReadyRowColumns(snapshots[i], ignore, pages[i], n);
    }
  }

  lemma StreamGrows(sets: seq<set<Key>>, pages: seq<seq<Key>>, page: seq<Key>)
    requires IsStream(sets, pages) && |pages| < |sets|
    requires page != [] && IsPage(sets[|pages|], Cursor(pages, |pages|), page)
    ensures IsStream(sets, pages + [page])
  {
    var more := pages + [page];
    forall i: nat | i < |more| ensures IsStreamPage(sets, more, i) {
      assert Cursor(more, i) == Cursor(pages, i);
      assert i < |pages| ==> IsStreamPage(sets, pages, i);
    }
  }

  /** The pages are read one after the other, while transactions change the tables. */
  ghost predicate Evolving(snapshots: seq<Snapshot>) {
    forall i, j :: 0 <= i < j < |snapshots| ==> ExecutionsEvolve(snapshots[i].d, snapshots[j].d)
  }

  lemma SamePriority(snapshots: seq<Snapshot>, i: nat, j: nat, e: ExecutionId)
    requires Evolving(snapshots) && i < |snapshots| && j < |snapshots|
    requires e in snapshots[i].d.executions && e in snapshots[j].d.executions
    ensures snapshots[i].d.executions[e].priority == snapshots[j].d.executions[e].priority
  {
    if i < j {
      assert ExecutionEvolves(snapshots[i].d, snapshots[j].d, e);
    } else if j < i {
      assert ExecutionEvolves(snapshots[j].d, snapshots[i].d, e);
    }
  }

  /** The page a yielded row is on. */
  lemma {:induction false} PageOf<T>(pages: seq<seq<T>>, n: nat) returns (i: nat, k: nat)
    requires n < |Concat(pages)|
    ensures i < |pages| && k < |pages[i]| && pages[i][k] == Concat(pages)[n]
  {
    var before := pages[..|pages| - 1];
    if n < |Concat(before)| {
      i, k := PageOf(before, n);
    } else {
      i, k := |pages| - 1, n - |Concat(before)|;
    }
  }

  lemma {:induction false} ConcatKeys(pages: seq<seq<ReadyExecution>>)
    ensures Concat(KeyPages(pages)) == RowKeys(Concat(pages))
  {
    if pages != [] {
      ConcatKeys(pages[..|pages| - 1]);
      assert KeyPages(pages)[..|pages| - 1] == KeyPages(pages[..|pages| - 1]);
    }
  }

  /**
    The stream is sound although the tables change between its pages: the keys of the yielded
    executions strictly increase, so a priority never rises again, and no execution is yielded twice.
   */
  lemma ReadyStreamIsSound(snapshots: seq<Snapshot>, ignore: set<ExecutionId>, pages: seq<seq<ReadyExecution>>,
                           a: nat, b: nat)
    requires Evolving(snapshots) && IsStream(ReadySets(snapshots, ignore), KeyPages(pages))
    requires forall i :: 0 <= i < |pages| ==> RowsOfPage(snapshots[i], ignore, pages[i])
    requires a < b < |Concat(pages)|
    ensures Less(RowKey(Concat(pages)[a]), RowKey(Concat(pages)[b]))
    ensures || Concat(pages)[a].priority > Concat(pages)[b].priority
            || (Concat(pages)[a].priority == Concat(pages)[b].priority
                && Concat(pages)[a].execution < Concat(pages)[b].execution)
    ensures Concat(pages)[a].execution != Concat(pages)[b].execution
  {
    StreamAscends(ReadySets(snapshots, ignore), KeyPages(pages));
    ConcatKeys(pages);
    var keys := Concat(KeyPages(pages));
    assert Less(keys[a], keys[b]);
    assert keys[a] == RowKey(Concat(pages)[a]) && keys[b] == RowKey(Concat(pages)[b]);
    var i, m := PageOf(pages, a);
    var j, n := PageOf(pages, b);
    if pages[i][m].execution == pages[j][n].execution {
      SamePriority(snapshots, i, j, pages[i][m].execution);
    }
  }

  /**
    The stream is complete although the tables change between its pages: every execution that is not
    ignored and ready whenever a page is read has been yielded by the time the stream ends.
   */
  lemma ReadyStreamIsComplete(snapshots: seq<Snapshot>, ignore: set<ExecutionId>, pages: seq<seq<ReadyExecution>>,
                              e: ExecutionId)
    requires Evolving(snapshots)
    requires IsStream(ReadySets(snapshots, ignore), KeyPages(pages))
    requires Ends(ReadySets(snapshots, ignore), KeyPages(pages))
    requires e !in ignore
    requires forall i :: 0 <= i <= |pages| ==>
               && e in snapshots[i].d.executions && snapshots[i].d.executions[e].Status().Pending?
               && snapshots[i].d.executions[e].target <= snapshots[i].now
               && snapshots[i].d.executions[e].job in snapshots[i].d.jobs
    ensures exists i, n :: 0 <= i < |pages| && 0 <= n < |pages[i]| && pages[i][n].execution == e
  {
    var k := Key(-snapshots[0].d.executions[e].priority, e);
    forall i: nat | i <= |pages| ensures k in ReadyKeys(snapshots[i], ignore) {
      assert IsReady(snapshots[0], ignore, e) && IsReady(snapshots[i], ignore, e);
      SamePriority(snapshots, 0, i, e);
    }
    StreamIsComplete(ReadySets(snapshots, ignore), KeyPages(pages), k);
    var i :| 0 <= i < |pages| && k in KeyPages(pages)[i];
    var n :| 0 <= n < |RowKeys(pages[i])| && RowKeys(pages[i])[n] == k;
    assert pages[i][n].execution == e;
  }

  // ---- Executions in progress, by id.

  datatype InProgressExecution = InProgressExecution(
    execution: ExecutionId, job: JobId, executor: ExecutorId, target: Time, startedAt: Time,
    timeout: TimeoutPolicy, retry: RetryPolicy, attempt: nat)

  predicate IsInProgress(d: Db, e: ExecutionId) {
    e in d.executions && d.executions[e].Status().InProgress? && d.executions[e].job in d.jobs
  }

  function InProgressKeys(d: Db): set<Key> { set e | e in d.executions && IsInProgress(d, e) :: Key(0, e) }

  /** Executions are only started by executors. */
  predicate HaveExecutors(d: Db) {
    forall e :: e in d.executions && d.executions[e].Status().InProgress? ==> d.executions[e].executor.Some?
  }

  /** The target time is that of the job, also for retries. */
  function InProgressRow(d: Db, e: ExecutionId): InProgressExecution
    requires IsInProgress(d, e) && HaveExecutors(d)
  {
    var row := d.executions[e];
    var definition := d.jobs[row.job].definition;
    InProgressExecution(e, row.job, row.executor.value, definition.target, row.startedAt.value,
                        definition.timeout, definition.retry, Attempts(d, row.job))
  }

  function InProgressSets(ds: seq<Db>): (sets: seq<set<Key>>)
    ensures |sets| == |ds|
    ensures forall i :: 0 <= i < |ds| ==> sets[i] == InProgressKeys(ds[i])
  {
    seq(|ds|, i requires 0 <= i < |ds| => InProgressKeys(ds[i]))
  }

  function InProgressPageKeys(rows: seq<InProgressExecution>): (keys: seq<Key>)
    ensures |keys| == |rows|
  {
    seq(|rows|, i requires 0 <= i < |rows| => Key(0, rows[i].execution))
  }

  function InProgressKeyPages(pages: seq<seq<InProgressExecution>>): (keys: seq<seq<Key>>)
    ensures |keys| == |pages|
    ensures forall i :: 0 <= i < |pages| ==> keys[i] == InProgressPageKeys(pages[i])
  {
    seq(|pages|, i requires 0 <= i < |pages| => InProgressPageKeys(pages[i]))
  }

  predicate InProgressRowsOf(d: Db, rows: seq<InProgressExecution>)
    requires HaveExecutors(d)
  {
    forall i :: 0 <= i < |rows| ==> IsInProgress(d, rows[i].execution) && rows[i] == InProgressRow(d, rows[i].execution)
  }

  /** Every row of a page of a scan is of an execution in progress, with the columns of both its rows. */
  lemma InProgressRowColumns(d: Db, rows: seq<InProgressExecution>, i: nat)
    requires HaveExecutors(d) && InProgressRowsOf(d, rows) && i < |rows|
    ensures var row := rows[i];
            && row.execution in d.executions && d.executions[row.execution].Status().InProgress?
            && d.executions[row.execution].executor == Some(row.executor)
            && d.executions[row.execution].startedAt == Some(row.startedAt)
            && row.job == d.executions[row.execution].job && row.job in d.jobs
            && row.target == d.jobs[row.job].definition.target
            && row.timeout == d.jobs[row.job].definition.timeout && row.retry == d.jobs[row.job].definition.retry
            && row.attempt == |set e | e in d.executions && d.executions[e].job == row.job|
  {
    assert ExecutionsOf(d, rows[i].job) == set e | e in d.executions && d.executions[e].job == rows[i].job;
  }

  method ReadInProgressPage(d: Db, cursor: Option<Key>) returns (rows: seq<InProgressExecution>)
    requires HaveExecutors(d)
    ensures InProgressRowsOf(d, rows)
    ensures IsPage(InProgressKeys(d), cursor, InProgressPageKeys(rows)) && |rows| <= 1000
  {
    var page := Page(InProgressKeys(d), cursor, PAGE_SIZE);
    rows := [];
    for i := 0 to |page|
      invariant |rows| == i
      invariant InProgressRowsOf(d, rows)
      invariant forall n :: 0 <= n < i ==> Key(0, rows[n].execution) == page[n]
    {
      assert page[i] in page;
      assert page[i] in InProgressKeys(d);
      rows := rows + [InProgressRow(d, page[i].minor)];
    }
    assert InProgressPageKeys(rows) == page;
    PageIsPage(InProgressKeys(d), cursor);
  }

  method InProgressExecutions(ds: seq<Db>) returns (pages: seq<seq<InProgressExecution>>, ended: bool)
    requires forall i :: 0 <= i < |ds| ==> HaveExecutors(ds[i])
    ensures IsStream(InProgressSets(ds), InProgressKeyPages(pages))
    ensures if ended then Ends(InProgressSets(ds), InProgressKeyPages(pages)) else |pages| == |ds|
    ensures forall i :: 0 <= i < |pages| ==> InProgressRowsOf(ds[i], pages[i])
    ensures forall i, n :: 0 <= i < |pages| && 0 <= n < |pages[i]| ==>
              var row, d := pages[i][n], ds[i];
              && row.execution in d.executions && d.executions[row.execution].Status().InProgress?
              && d.executions[row.execution].executor == Some(row.executor)
              && d.executions[row.execution].startedAt == Some(row.startedAt)
              && row.job == d.executions[row.execution].job && row.job in d.jobs
              && row.target == d.jobs[row.job].definition.target
              && row.timeout == d.jobs[row.job].definition.timeout && row.retry == d.jobs[row.job].definition.retry
              && row.attempt == |set e | e in d.executions && d.executions[e].job == row.job|
  {
    var lastExecution: Option<Key> := None;
    pages, ended := [], false;
    while |pages| < |ds|
      invariant IsStream(InProgressSets(ds), InProgressKeyPages(pages))
      invariant forall i :: 0 <= i < |pages| ==> InProgressRowsOf(ds[i], pages[i])
      invariant lastExecution == Cursor(InProgressKeyPages(pages), |pages|) && !ended
      decreases |ds| - |pages|
    {
      var rows := ReadInProgressPage(ds[|pages|], lastExecution);
      if rows == [] {
        ended := true;
        break;
      }
      StreamGrows(InProgressSets(ds), InProgressKeyPages(pages), InProgressPageKeys(rows));
      assert InProgressKeyPages(pages + [rows]) == InProgressKeyPages(pages) + [InProgressPageKeys(rows)];
      lastExecution := Some(Key(0, rows[|rows| - 1].execution));
      pages := pages + [rows];
    }
    forall i, n | 0 <= i < |pages| && 0 <= n < |pages[i]|
      ensures var row, d := pages[i][n], ds[i];
              && row.execution in d.executions && d.executions[row.execution].Status().InProgress?
              && d.executions[row.execution].executor == Some(row.executor)
              && d.executions[row.execution].startedAt == Some(row.startedAt)
              && row.job == d.executions[row.execution].job && row.job in d.jobs
              && row.target == d.jobs[row.job].definition.target
              && row.timeout == d.jobs[row.job].definition.timeout && row.retry == d.jobs[row.job].definition.retry
              && row.attempt == |set e | e in d.executions && d.executions[e].job == row.job|
    {
      InProgressRowColumns(ds[i], pages[i], n);
    }
  }

  /** A scan misses no execution that is in progress throughout. */
  lemma InProgressStreamIsComplete(ds: seq<Db>, pages: seq<seq<InProgressExecution>>, e: ExecutionId)
    requires IsStream(InProgressSets(ds), InProgressKeyPages(pages)) && Ends(InProgressSets(ds), InProgressKeyPages(pages))
    requires forall i :: 0 <= i <= |pages| ==>
               e in ds[i].executions && ds[i].executions[e].Status().InProgress? && ds[i].executions[e].job in ds[i].jobs
    ensures exists i, n :: 0 <= i < |pages| && 0 <= n < |pages[i]| && pages[i][n].execution == e
  {
    var k := Key(0, e);
    forall i: nat | i <= |pages| ensures k in InProgressKeys(ds[i]) {
      assert IsInProgress(ds[i], e);
    }
    StreamIsComplete(InProgressSets(ds), InProgressKeyPages(pages), k);
    var i :| 0 <= i < |pages| && k in InProgressKeyPages(pages)[i];
    var n :| 0 <= n < |InProgressPageKeys(pages[i])| && InProgressPageKeys(pages[i])[n] == k;
    assert pages[i][n].execution == e;
  }
}
