/** Filtering jobs: the optimised status filter, the selection and the count of matching jobs. */
module JobFilters {
  import opened Common
  import opened Tables
  import opened TableInvariants

  datatype PendingReason = Scheduled | Ready

  datatype TimeRange = TimeRange(start: Option<Time>, end: Option<Time>) {
    predicate Contains(t: Time) { (start.Some? ==> start.value <= t) && (end.Some? ==> t < end.value) }
  }

  datatype LabelFilter = LabelFilter(key: string, valueIn: Option<seq<string>>, value: Option<string>)

  datatype Filters = Filters(
    jobIds: Option<seq<JobId>>, jobTypeIds: Option<seq<string>>,
    executorIds: Option<seq<ExecutorId>>, executionIds: Option<seq<ExecutionId>>,
    statuses: Option<seq<ExecutionStatus>>, pendingReasons: Option<seq<PendingReason>>,
    targetTime: Option<TimeRange>, createdAt: Option<TimeRange>, labels: Option<seq<LabelFilter>>,
    scheduleIds: Option<seq<ScheduleId>>, minPriority: Option<int>, maxPriority: Option<int>)

  // ---- The status filter.

  datatype ExecutionCondition = IsPending | IsScheduled | IsReady | IsInProgress

  /** The SQL conditions the filter is built from. */
  datatype Condition =
    | True
    | False
    | StatusIsNull
    | StatusIsNotNull
    | StatusIn(values: seq<ExecutionStatus>)
    | ExistsExecution(conditions: seq<ExecutionCondition>)
    | And(left: Condition, right: Condition)
    | Or(left: Condition, right: Condition)

  predicate ExecutionHolds(condition: ExecutionCondition, row: Execution, now: Time) {
    match condition
    case IsPending => row.Status().Pending?
    case IsScheduled => row.Status().Pending? && row.target > now
    case IsReady => row.Status().Pending? && row.target <= now
    case IsInProgress => row.Status().InProgress?
  }

  predicate AnyHolds(conditions: seq<ExecutionCondition>, row: Execution, now: Time) {
    exists i :: 0 <= i < |conditions| && ExecutionHolds(conditions[i], row, now)
  }

  ghost predicate Holds(condition: Condition, d: Db, j: JobId, now: Time)
    requires j in d.jobs
  {
    match condition
    case True => true
    case False => false
    case StatusIsNull => d.jobs[j].inactiveStatus.None?
    case StatusIsNotNull => d.jobs[j].inactiveStatus.Some?
    case StatusIn(values) => d.jobs[j].inactiveStatus.Some? && d.jobs[j].inactiveStatus.value in values
    case ExistsExecution(conditions) =>
      exists e: ExecutionId :: Of(d, e, j) && AnyHolds(conditions, d.executions[e], now)
    case And(left, right) => Holds(left, d, j, now) && Holds(right, d, j, now)
    case Or(left, right) => Holds(left, d, j, now) || Holds(right, d, j, now)
  }

  function InactiveValues(statuses: seq<ExecutionStatus>): seq<ExecutionStatus> {
    (if Succeeded in statuses then [Succeeded] else [])
    + (if Failed in statuses then [Failed] else [])
    + (if Cancelled in statuses then [Cancelled] else [])
  }

  /** The condition for active jobs, none if no active job is wanted. */
  function ActiveFilter(scheduled: bool, ready: bool, inProgress: bool): Option<Condition> {
    var pendingCondition :=
      if scheduled && ready then [IsPending]
      else if scheduled then [IsScheduled]
      else if ready then [IsReady]
      else [];
    var conditions := pendingCondition + if inProgress then [IsInProgress] else [];
    if scheduled && ready && inProgress then Some(StatusIsNull)
    else if conditions == [] then None
    else Some(And(StatusIsNull, ExistsExecution(conditions)))
  }

  function InactiveFilter(inactiveValues: seq<ExecutionStatus>): Option<Condition> {
    if |inactiveValues| == 0 then None
    else if |inactiveValues| == 3 then Some(StatusIsNotNull)
    else Some(StatusIn(inactiveValues))
  }

  /** Builds the condition for the statuses and pending reasons. */
  function StatusFilter(listed: Option<seq<ExecutionStatus>>, reasons: Option<seq<PendingReason>>): Condition {
    var statuses := if listed.Some? then listed.value else [Pending];
    var inactiveValues := InactiveValues(statuses);
    var scheduled := Pending in statuses && (reasons.None? || Scheduled in reasons.value);
    var ready := Pending in statuses && (reasons.None? || Ready in reasons.value);
    var inProgress := InProgress in statuses;
    if scheduled && ready && inProgress && |inactiveValues| == 3 then True
    else
      match (ActiveFilter(scheduled, ready, inProgress), InactiveFilter(inactiveValues))
      case (Some(a), Some(i)) => Or(a, i)
      case (Some(a), None) => a
      case (None, Some(i)) => i
      case (None, None) => False
  }

  function ReasonOf(row: Execution, now: Time): PendingReason { if row.target > now then Scheduled else Ready }

  /** What the filter is documented to mean, for the latest execution of a job. */
  predicate RowMatches(row: Execution, now: Time,
                       listed: Option<seq<ExecutionStatus>>, reasons: Option<seq<PendingReason>>)
  {
    && row.Status() in (if listed.Some? then listed.value else [Pending])
    && (row.Status().Pending? && reasons.Some? ==> ReasonOf(row, now) in reasons.value)
  }

  /** Only the latest execution can satisfy conditions on active executions. */
  lemma ExistsMeansLatest(d: Db, j: JobId, conditions: seq<ExecutionCondition>, now: Time)
    requires StatusesAgree(d) && j in d.jobs
    ensures JobAgrees(d, j)
    ensures Holds(ExistsExecution(conditions), d, j, now)
       <==> AnyHolds(conditions, d.executions[Latest(d, j)], now)
  {
    assert JobAgrees(d, j);
    if Holds(ExistsExecution(conditions), d, j, now) {
      var e: ExecutionId :| Of(d, e, j) && AnyHolds(conditions, d.executions[e], now);
      assert Active(d, e);
      assert ActiveAgrees(d, e);
    }
  }

  lemma AnyHoldsOf(a: seq<ExecutionCondition>, b: seq<ExecutionCondition>, row: Execution, now: Time)
    requires |a| <= 1 && |b| <= 1
    ensures AnyHolds(a + b, row, now)
       <==> (a != [] && ExecutionHolds(a[0], row, now)) || (b != [] && ExecutionHolds(b[0], row, now))
  {
    if a != [] {
      assert (a + b)[0] == a[0];
    }
    if b != [] {
      assert (a + b)[|a|] == b[0];
    }
  }

  /** The stored statuses that are listed. */
  lemma InactiveValuesListed(statuses: seq<ExecutionStatus>, status: ExecutionStatus)
    ensures status in InactiveValues(statuses)
       <==> status in statuses && !status.Pending? && !status.InProgress?
    ensures |InactiveValues(statuses)| == 0 <==> Succeeded !in statuses && Failed !in statuses && Cancelled !in statuses
    ensures |InactiveValues(statuses)| == 3 <==> Succeeded in statuses && Failed in statuses && Cancelled in statuses
  {
  }

  /** The condition on the stored status of an inactive job, and on the execution of an active one. */
  ghost predicate StoredHolds(condition: Condition, stored: Option<ExecutionStatus>, row: Execution, now: Time) {
    match condition
    case True => true
    case False => false
    case StatusIsNull => stored.None?
    case StatusIsNotNull => stored.Some?
    case StatusIn(values) => stored.Some? && stored.value in values
    case ExistsExecution(conditions) => AnyHolds(conditions, row, now)
    case And(left, right) => StoredHolds(left, stored, row, now) && StoredHolds(right, stored, row, now)
    case Or(left, right) => StoredHolds(left, stored, row, now) || StoredHolds(right, stored, row, now)
  }

  lemma {:induction false} HoldsForLatest(condition: Condition, d: Db, j: JobId, now: Time)
    requires StatusesAgree(d) && j in d.jobs
    ensures JobAgrees(d, j)
    ensures Holds(condition, d, j, now)
       <==> StoredHolds(condition, d.jobs[j].inactiveStatus, d.executions[Latest(d, j)], now)
  {
    assert JobAgrees(d, j);
    match condition
    case ExistsExecution(conditions) => ExistsMeansLatest(d, j, conditions, now);
    case And(left, right) => HoldsForLatest(left, d, j, now); HoldsForLatest(right, d, j, now);
    case Or(left, right) => HoldsForLatest(left, d, j, now); HoldsForLatest(right, d, j, now);
    case _ =>
  }

  ghost predicate IfSome(condition: Option<Condition>, row: Execution, now: Time) {
    condition.Some? && StoredHolds(condition.value, StoredStatus(row), row, now)
  }

  lemma ActiveFilterHolds(scheduled: bool, ready: bool, inProgress: bool, row: Execution, now: Time)
    ensures IfSome(ActiveFilter(scheduled, ready, inProgress), row, now)
       <==> || (row.Status().Pending? && if row.target > now then scheduled else ready)
            || (row.Status().InProgress? && inProgress)
  {
    var pendingCondition :=
      if scheduled && ready then [IsPending] else if scheduled then [IsScheduled] else if ready then [IsReady] else [];
    var inProgressCondition := if inProgress then [IsInProgress] else [];
    AnyHoldsOf(pendingCondition, inProgressCondition, row, now);
    var active := And(StatusIsNull, ExistsExecution(pendingCondition + inProgressCondition));
    assert StoredHolds(active, StoredStatus(row), row, now)
      <==> row.IsActive() && AnyHolds(pendingCondition + inProgressCondition, row, now);
  }

  lemma InactiveFilterHolds(statuses: seq<ExecutionStatus>, row: Execution, now: Time)
    ensures IfSome(InactiveFilter(InactiveValues(statuses)), row, now) <==> !row.IsActive() && row.Status() in statuses
  {
    InactiveValuesListed(statuses, row.Status());
  }

  lemma StatusFilterOfRow(row: Execution, now: Time,
                          listed: Option<seq<ExecutionStatus>>, reasons: Option<seq<PendingReason>>)
    ensures StoredHolds(StatusFilter(listed, reasons), StoredStatus(row), row, now)
       <==> RowMatches(row, now, listed, reasons)
  {
    var statuses := if listed.Some? then listed.value else [Pending];
    InactiveValuesListed(statuses, row.Status());
    var scheduled := Pending in statuses && (reasons.None? || Scheduled in reasons.value);
    var ready := Pending in statuses && (reasons.None? || Ready in reasons.value);
    ActiveFilterHolds(scheduled, ready, InProgress in statuses, row, now);
    InactiveFilterHolds(statuses, row, now);
    EitherHolds(ActiveFilter(scheduled, ready, InProgress in statuses), InactiveFilter(InactiveValues(statuses)), row, now);
  }

  lemma EitherHolds(a: Option<Condition>, i: Option<Condition>, row: Execution, now: Time)
    ensures a.Some? && i.Some? ==>
              (StoredHolds(Or(a.value, i.value), StoredStatus(row), row, now) <==> IfSome(a, row, now) || IfSome(i, row, now))
  {
  }

  /**
    On every valid state of the tables the optimised filter holds of a job exactly if its latest
    execution's status is listed and, when it is pending, its reason is.
   */
  lemma StatusFilterRefines(d: Db, j: JobId, now: Time,
                            listed: Option<seq<ExecutionStatus>>, reasons: Option<seq<PendingReason>>)
    requires StatusesAgree(d) && j in d.jobs
    ensures JobAgrees(d, j)
    ensures Holds(StatusFilter(listed, reasons), d, j, now)
       <==> RowMatches(d.executions[Latest(d, j)], now, listed, reasons)
  {
    HoldsForLatest(StatusFilter(listed, reasons), d, j, now);
    StatusFilterOfRow(d.executions[Latest(d, j)], now, listed, reasons);
  }

  // ---- Selecting and counting jobs.

  predicate LabelMatches(labels: map<string, string>, filter: LabelFilter) {
    && filter.key in labels
    && (if filter.valueIn.Some? then labels[filter.key] in filter.valueIn.value
        else filter.value.Some? ==> labels[filter.key] == filter.value.value)
  }

  /** The conditions on columns of the job. */
  ghost predicate JobMatches(d: Db, f: Filters, j: JobId, now: Time)
    requires j in d.jobs
  {
    var job := d.jobs[j];
    && (f.jobIds.Some? ==> j in f.jobIds.value)
    && (f.jobTypeIds.Some? ==> job.definition.jobType in f.jobTypeIds.value)
    && (f.targetTime.Some? ==> f.targetTime.value.Contains(job.definition.target))
    && (f.createdAt.Some? ==> f.createdAt.value.Contains(job.createdAt))
    && (f.statuses.Some? || f.pendingReasons.Some? ==> Holds(StatusFilter(f.statuses, f.pendingReasons), d, j, now))
    && (f.labels.Some? ==> forall i :: 0 <= i < |f.labels.value| ==> LabelMatches(job.definition.labels, f.labels.value[i]))
    && (f.scheduleIds.Some? ==> job.schedule.Some? && job.schedule.value in f.scheduleIds.value)
    && (f.minPriority.Some? ==> f.minPriority.value <= job.definition.priority)
    && (f.maxPriority.Some? ==> job.definition.priority <= f.maxPriority.value)
  }

  /** The conditions on columns of a joined execution. */
  predicate ExecutionMatches(d: Db, f: Filters, e: ExecutionId)
    requires e in d.executions
  {
    && (f.executionIds.Some? ==> e in f.executionIds.value)
    && (f.executorIds.Some? ==> d.executions[e].executor.Some? && d.executions[e].executor.value in f.executorIds.value)
  }

  /** Executions are only joined if a filter needs them. */
  predicate ExecutionsJoined(f: Filters) { f.executionIds.Some? || f.executorIds.Some? }

  datatype Row = Row(job: JobId, execution: Option<ExecutionId>)

  /** The rows of the filtered query: a job, or a job with one of its executions. */
  ghost function FilteredRows(d: Db, f: Filters, now: Time): set<Row> {
    if ExecutionsJoined(f) then
      set e | e in d.executions && d.executions[e].job in d.jobs
              && JobMatches(d, f, d.executions[e].job, now) && ExecutionMatches(d, f, e)
        :: Row(d.executions[e].job, Some(e))
    else
      set j | j in d.jobs && JobMatches(d, f, j, now) :: Row(j, None)
  }

  /** The jobs that match the filters. */
  ghost function Selected(d: Db, f: Filters, now: Time): set<JobId> {
    set j | j in d.jobs && JobMatches(d, f, j, now)
            && (ExecutionsJoined(f) ==> exists e :: Of(d, e, j) && ExecutionMatches(d, f, e))
  }

  ghost function JobsOf(rows: set<Row>): set<JobId> { set r | r in rows :: r.job }

  /** Selecting the job id of every row, without removing duplicates. */
  ghost function ProjectJobs(rows: set<Row>): multiset<JobId> {
    if rows == {} then multiset{}
    else
      var r :| r in rows;
      ProjectJobs(rows - {r}) + multiset{r.job}
  }

  /** Duplicates are only removed if executions are joined. */
  ghost function SelectJobIds(d: Db, f: Filters, now: Time): multiset<JobId> {
    var rows := FilteredRows(d, f, now);
    if ExecutionsJoined(f) then multiset(JobsOf(rows)) else ProjectJobs(rows)
  }

  /** `COUNT(DISTINCT ora.job.id)` if executions are joined, `COUNT(*)` otherwise. */
  ghost function JobCount(d: Db, f: Filters, now: Time): nat {
    var rows := FilteredRows(d, f, now);
    if ExecutionsJoined(f) then |JobsOf(rows)| else |rows|
  }

  lemma {:induction false} ProjectWithoutExecutions(rows: set<Row>)
    requires forall r :: r in rows ==> r.execution.None?
    ensures ProjectJobs(rows) == multiset(JobsOf(rows))
    ensures |JobsOf(rows)| == |rows|
  {
    if rows == {} {
      assert JobsOf(rows) == {};
    } else {
      var r :| r in rows && ProjectJobs(rows) == ProjectJobs(rows - {r}) + multiset{r.job};
      ProjectWithoutExecutions(rows - {r});
      assert JobsOf(rows) == JobsOf(rows - {r}) + {r.job};
      assert r.job !in JobsOf(rows - {r});
    }
  }

  lemma JobsOfFilteredRows(d: Db, f: Filters, now: Time)
    ensures JobsOf(FilteredRows(d, f, now)) == Selected(d, f, now)
  {
    var rows := FilteredRows(d, f, now);
    forall j | j in Selected(d, f, now) ensures j in JobsOf(rows) {
      if ExecutionsJoined(f) {
        var e :| Of(d, e, j) && ExecutionMatches(d, f, e);
        assert Row(j, Some(e)) in rows;
      } else {
        assert Row(j, None) in rows;
      }
    }
  }

  /** The selection has each matching job once, and the count is its length, whether or not executions are joined. */
  lemma SelectionIsExact(d: Db, f: Filters, now: Time)
    ensures SelectJobIds(d, f, now) == multiset(Selected(d, f, now))
    ensures JobCount(d, f, now) == |Selected(d, f, now)| == |SelectJobIds(d, f, now)|
  {
    JobsOfFilteredRows(d, f, now);
    if !ExecutionsJoined(f) {
      ProjectWithoutExecutions(FilteredRows(d, f, now));
    }
  }

  /** The last execution of a job has one of the statuses and, while it is pending, one of the reasons. */
  ghost predicate LastHasStatus(d: Db, j: JobId, now: Time,
                                statuses: Option<seq<ExecutionStatus>>, reasons: Option<seq<PendingReason>>)
  {
    exists e: ExecutionId :: Of(d, e, j) && (forall g: ExecutionId :: Of(d, g, j) ==> g <= e)
      && var row := d.executions[e];
         && (if statuses.Some? then row.Status() in statuses.value else row.Status().Pending?)
         && (row.Status().Pending? && reasons.Some? ==>
               (if row.target > now then PendingReason.Scheduled else PendingReason.Ready) in reasons.value)
  }

  lemma LastStatusHolds(d: Db, j: JobId, now: Time,
                        statuses: Option<seq<ExecutionStatus>>, reasons: Option<seq<PendingReason>>)
    requires StatusesAgree(d) && j in d.jobs
    ensures Holds(StatusFilter(statuses, reasons), d, j, now) <==> LastHasStatus(d, j, now, statuses, reasons)
  {
    assert JobAgrees(d, j);
    StatusFilterRefines(d, j, now, statuses, reasons);
    var e := Latest(d, j);
    assert Of(d, e, j) && forall g: ExecutionId :: Of(d, g, j) ==> g <= e;
  }

  /** What each filter selects by, from valid tables: all of those that are given have to hold. */
  lemma SelectedMeans(d: Db, f: Filters, now: Time, j: JobId)
    requires StatusesAgree(d) && j in d.jobs
    ensures var job := d.jobs[j];
            j in Selected(d, f, now) <==>
              && (f.jobIds.Some? ==> j in f.jobIds.value)
              && (f.jobTypeIds.Some? ==> job.definition.jobType in f.jobTypeIds.value)
              && (f.minPriority.Some? ==> job.definition.priority >= f.minPriority.value)
              && (f.maxPriority.Some? ==> job.definition.priority <= f.maxPriority.value)
              && (f.targetTime.Some? && f.targetTime.value.start.Some? ==>
                    job.definition.target >= f.targetTime.value.start.value)
              && (f.targetTime.Some? && f.targetTime.value.end.Some? ==>
                    job.definition.target < f.targetTime.value.end.value)
              && (f.createdAt.Some? && f.createdAt.value.start.Some? ==> job.createdAt >= f.createdAt.value.start.value)
              && (f.createdAt.Some? && f.createdAt.value.end.Some? ==> job.createdAt < f.createdAt.value.end.value)
              && (f.scheduleIds.Some? ==> job.schedule.Some? && job.schedule.value in f.scheduleIds.value)
              && (f.labels.Some? ==>
                    forall i :: 0 <= i < |f.labels.value| ==>
                      var wanted := f.labels.value[i];
                      && wanted.key in job.definition.labels
                      && (wanted.valueIn.Some? ==> job.definition.labels[wanted.key] in wanted.valueIn.value)
                      && (wanted.valueIn.None? && wanted.value.Some? ==>
                            job.definition.labels[wanted.key] == wanted.value.value))
              && (f.statuses.Some? || f.pendingReasons.Some? ==> LastHasStatus(d, j, now, f.statuses, f.pendingReasons))
              && (f.executionIds.Some? || f.executorIds.Some? ==>
                    exists e :: Of(d, e, j)
                      && (f.executionIds.Some? ==> e in f.executionIds.value)
                      && (f.executorIds.Some? ==>
                            d.executions[e].executor.Some? && d.executions[e].executor.value in f.executorIds.value))
  {
    LastStatusHolds(d, j, now, f.statuses, f.pendingReasons);
  }

  // ---- Selecting the jobs to cancel.

  function OnlyActive(statuses: seq<ExecutionStatus>): seq<ExecutionStatus> {
    if statuses == [] then []
    else
      var last := statuses[|statuses| - 1];
      OnlyActive(statuses[..|statuses| - 1]) + if last.Pending? || last.InProgress? then [last] else []
  }

  /** The filters `cancel_jobs` selects with, `None` if nothing can be cancelled. */
  function CancelFilters(f: Filters): Option<Filters> {
    if f.statuses.Some? then
      var statuses := OnlyActive(f.statuses.value);
      if statuses == [] then None else Some(f.(statuses := Some(statuses)))
    else if f.pendingReasons.Some? then Some(f.(statuses := Some([Pending])))
    else Some(f.(statuses := Some([InProgress, Pending])))
  }

  ghost function SelectedForCancel(d: Db, f: Filters, now: Time): set<JobId> {
    match CancelFilters(f)
    case None => {}
    case Some(filters) => Selected(d, filters, now)
  }

  lemma {:induction false} OnlyActiveKeeps(statuses: seq<ExecutionStatus>, status: ExecutionStatus)
    ensures status in OnlyActive(statuses) <==> status in statuses && (status.Pending? || status.InProgress?)
  {
    if statuses != [] {
      OnlyActiveKeeps(statuses[..|statuses| - 1], status);
      assert statuses == statuses[..|statuses| - 1] + [statuses[|statuses| - 1]];
    }
  }

  /** A job matches the filters for cancelling exactly if it matches the original ones and is active. */
  lemma CancelMatches(d: Db, f: Filters, now: Time, j: JobId)
    requires StatusesAgree(d) && j in d.jobs
    ensures CancelFilters(f).Some? ==>
              (JobMatches(d, CancelFilters(f).value, j, now)
               <==> JobMatches(d, f, j, now) && d.jobs[j].inactiveStatus.None?)
    ensures CancelFilters(f).None? ==> !(JobMatches(d, f, j, now) && d.jobs[j].inactiveStatus.None?)
  {
    assert JobAgrees(d, j);
    var status := d.executions[Latest(d, j)].Status();
    StatusFilterRefines(d, j, now, f.statuses, f.pendingReasons);
    if f.statuses.Some? {
      OnlyActiveKeeps(f.statuses.value, status);
    }
    if CancelFilters(f).Some? {
      StatusFilterRefines(d, j, now, CancelFilters(f).value.statuses, f.pendingReasons);
    }
  }

  lemma CancelSelects(d: Db, f: Filters, now: Time, j: JobId)
    requires StatusesAgree(d) && j in d.jobs
    ensures j in SelectedForCancel(d, f, now) <==> j in Selected(d, f, now) && d.jobs[j].inactiveStatus.None?
  {
    CancelMatches(d, f, now, j);
    if CancelFilters(f).Some? {
      var g := CancelFilters(f).value;
      assert ExecutionsJoined(g) == ExecutionsJoined(f);
      assert forall e :: e in d.executions ==> ExecutionMatches(d, g, e) == ExecutionMatches(d, f, e);
    }
  }

  /** Exactly the active jobs that match the caller's own filters are cancelled. */
  lemma CancelSelectsActive(d: Db, f: Filters, now: Time)
    requires StatusesAgree(d)
    ensures SelectedForCancel(d, f, now) == set j | j in Selected(d, f, now) && d.jobs[j].inactiveStatus.None?
  {
    forall j | j in d.jobs
      ensures j in SelectedForCancel(d, f, now) <==> j in Selected(d, f, now) && d.jobs[j].inactiveStatus.None?
    {
      CancelSelects(d, f, now, j);
    }
  }
}
