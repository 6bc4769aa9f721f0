/** Listing jobs page by page, in any of the six orders. */
module JobPages {
  import opened Common
  import opened Tables
  import opened TableInvariants
  import opened JobFilters
  import opened Keyset

  datatype JobOrderBy =
    | TargetExecutionTimeAsc
    | TargetExecutionTimeDesc
    | CreatedAtAsc
    | CreatedAtDesc
    | PriorityAsc
    | PriorityDesc

  /** The filters and the order are those of the first request, later ones carry them in the token. */
  datatype PageToken = PageToken(
    lastJob: Option<JobId>, lastTarget: Option<Time>, lastPriority: Option<int>,
    filters: Filters, orderBy: JobOrderBy)

  /** The `ORDER BY` columns: one descending column may be followed by ascending ids. */
  predicate Precedes(orderBy: JobOrderBy, i: JobId, a: JobDefinition, j: JobId, b: JobDefinition) {
    match orderBy
    case TargetExecutionTimeAsc => a.target < b.target || (a.target == b.target && i < j)
    case TargetExecutionTimeDesc => a.target > b.target || (a.target == b.target && i < j)
    case CreatedAtAsc => i < j
    case CreatedAtDesc => i > j
    case PriorityAsc => a.priority < b.priority || (a.priority == b.priority && i < j)
    case PriorityDesc => a.priority > b.priority || (a.priority == b.priority && i < j)
  }

  /** The condition a later page adds, none if the token has no cursor for the order. */
  predicate AfterToken(token: PageToken, j: JobId, job: JobDefinition) {
    match token.orderBy
    case TargetExecutionTimeAsc =>
      token.lastTarget.Some? && token.lastJob.Some? ==>
        job.target > token.lastTarget.value || (job.target == token.lastTarget.value && j > token.lastJob.value)
    case TargetExecutionTimeDesc =>
      token.lastTarget.Some? && token.lastJob.Some? ==>
        job.target < token.lastTarget.value || (job.target == token.lastTarget.value && j > token.lastJob.value)
    case PriorityAsc =>
      token.lastPriority.Some? && token.lastJob.Some? ==>
        job.priority > token.lastPriority.value || (job.priority == token.lastPriority.value && j > token.lastJob.value)
    case PriorityDesc =>
      token.lastPriority.Some? && token.lastJob.Some? ==>
        job.priority < token.lastPriority.value || (job.priority == token.lastPriority.value && j > token.lastJob.value)
    case CreatedAtAsc => token.lastJob.Some? ==> j > token.lastJob.value
    case CreatedAtDesc => token.lastJob.Some? ==> j < token.lastJob.value
  }

  /** The two columns as one ascending key. */
  function KeyOf(orderBy: JobOrderBy, j: JobId, job: JobDefinition): Key {
    match orderBy
    case TargetExecutionTimeAsc => Key(job.target, j)
    case TargetExecutionTimeDesc => Key(-job.target, j)
    case CreatedAtAsc => Key(0, j)
    case CreatedAtDesc => Key(0, -(j as int))
    case PriorityAsc => Key(job.priority, j)
    case PriorityDesc => Key(-job.priority, j)
  }

  /** The job of a key. */
  function JobOf(orderBy: JobOrderBy, k: Key): JobId { Max(0, if orderBy.CreatedAtDesc? then -k.minor else k.minor) }

  function JobsOfKeys(orderBy: JobOrderBy, keys: seq<Key>): (jobs: seq<JobId>)
    ensures |jobs| == |keys|
    ensures forall i :: 0 <= i < |keys| ==> jobs[i] == JobOf(orderBy, keys[i])
  {
    seq(|keys|, i requires 0 <= i < |keys| => JobOf(orderBy, keys[i]))
  }

  function TokenKey(token: PageToken): Option<Key> {
    if token.lastJob.None? then None
    else
      match token.orderBy
      case TargetExecutionTimeAsc =>
        if token.lastTarget.Some? then Some(Key(token.lastTarget.value, token.lastJob.value)) else None
      case TargetExecutionTimeDesc =>
        if token.lastTarget.Some? then Some(Key(-token.lastTarget.value, token.lastJob.value)) else None
      case PriorityAsc =>
        if token.lastPriority.Some? then Some(Key(token.lastPriority.value, token.lastJob.value)) else None
      case PriorityDesc =>
        if token.lastPriority.Some? then Some(Key(-token.lastPriority.value, token.lastJob.value)) else None
      case CreatedAtAsc => Some(Key(0, token.lastJob.value))
      case CreatedAtDesc => Some(Key(0, -(token.lastJob.value as int)))
  }

  /** All six orders are keyset orders, including the descending ones with ascending ties. */
  lemma OrdersAreKeyOrders(orderBy: JobOrderBy, i: JobId, a: JobDefinition, j: JobId, b: JobDefinition)
    ensures Precedes(orderBy, i, a, j, b) <==> Less(KeyOf(orderBy, i, a), KeyOf(orderBy, j, b))
    ensures JobOf(orderBy, KeyOf(orderBy, i, a)) == i
  {
  }

  /** The condition of every order selects exactly the keys after the cursor. */
  lemma TokenSelectsAfter(token: PageToken, j: JobId, job: JobDefinition)
    ensures AfterToken(token, j, job)
       <==> (TokenKey(token).Some? ==> Less(TokenKey(token).value, KeyOf(token.orderBy, j, job)))
  {
  }

  ghost function KeysOfJobs(d: Db, orderBy: JobOrderBy, jobs: set<JobId>): set<Key> {
    set j | j in jobs && j in d.jobs :: KeyOf(orderBy, j, d.jobs[j].definition)
  }

  /** The jobs of a request: those that the filters select and that come after the token. */
  ghost function Candidates(d: Db, token: PageToken, now: Time): set<JobId> {
    set j | j in d.jobs && j in Selected(d, token.filters, now) && AfterToken(token, j, d.jobs[j].definition)
  }

  /** The jobs of a page, in order. */
  ghost function PageJobs(d: Db, token: PageToken, pageSize: nat, now: Time): seq<JobId> {
    JobsOfKeys(token.orderBy, Page(KeysOfJobs(d, token.orderBy, Selected(d, token.filters, now)), TokenKey(token), pageSize))
  }

  /** The token of the next page, `None` after a partial page. */
  function NextToken(d: Db, token: PageToken, pageSize: nat, jobs: seq<JobId>): Option<PageToken>
    requires forall i :: 0 <= i < |jobs| ==> jobs[i] in d.jobs
  {
    if jobs != [] && |jobs| >= pageSize then
      var last := jobs[|jobs| - 1];
      var definition := d.jobs[last].definition;
      Some(token.(lastJob := Some(last), lastTarget := Some(definition.target), lastPriority := Some(definition.priority)))
    else None
  }

  function FirstToken(filters: Filters, orderBy: JobOrderBy): PageToken {
    PageToken(None, None, None, filters, orderBy)
  }

  lemma JobOfSelectedKey(d: Db, orderBy: JobOrderBy, jobs: set<JobId>, k: Key)
    requires k in KeysOfJobs(d, orderBy, jobs)
    ensures JobOf(orderBy, k) in jobs && JobOf(orderBy, k) in d.jobs
    ensures k == KeyOf(orderBy, JobOf(orderBy, k), d.jobs[JobOf(orderBy, k)].definition)
  {
    var j :| j in jobs && j in d.jobs && k == KeyOf(orderBy, j, d.jobs[j].definition);
    OrdersAreKeyOrders(orderBy, j, d.jobs[j].definition, j, d.jobs[j].definition);
  }

  /** The candidates are the jobs of the keys after the cursor. */
  lemma CandidateKeys(d: Db, token: PageToken, now: Time)
    ensures KeysOfJobs(d, token.orderBy, Candidates(d, token, now))
         == After(KeysOfJobs(d, token.orderBy, Selected(d, token.filters, now)), TokenKey(token))
  {
    var keys := KeysOfJobs(d, token.orderBy, Selected(d, token.filters, now));
    forall k | k in After(keys, TokenKey(token)) ensures k in KeysOfJobs(d, token.orderBy, Candidates(d, token, now)) {
      JobOfSelectedKey(d, token.orderBy, Selected(d, token.filters, now), k);
      var j := JobOf(token.orderBy, k);
      TokenSelectsAfter(token, j, d.jobs[j].definition);
    }
    forall k | k in KeysOfJobs(d, token.orderBy, Candidates(d, token, now)) ensures k in After(keys, TokenKey(token)) {
      JobOfSelectedKey(d, token.orderBy, Candidates(d, token, now), k);
      var j := JobOf(token.orderBy, k);
      TokenSelectsAfter(token, j, d.jobs[j].definition);
    }
  }

  lemma PageJobIsCandidate(d: Db, token: PageToken, pageSize: nat, now: Time, i: nat)
    requires i < |PageJobs(d, token, pageSize, now)|
    ensures PageJobs(d, token, pageSize, now)[i] in Candidates(d, token, now)
  {
    var keys := KeysOfJobs(d, token.orderBy, Selected(d, token.filters, now));
    var page := Page(keys, TokenKey(token), pageSize);
    assert page[i] in page;
    CandidateKeys(d, token, now);
    JobOfSelectedKey(d, token.orderBy, Candidates(d, token, now), page[i]);
  }

  /** The jobs of a page come in the requested order. */
  lemma PageJobsAreOrdered(d: Db, token: PageToken, pageSize: nat, now: Time, i: nat, k: nat)
    requires i < k < |PageJobs(d, token, pageSize, now)|
    ensures var jobs := PageJobs(d, token, pageSize, now);
            && jobs[i] in d.jobs && jobs[k] in d.jobs
            && Precedes(token.orderBy, jobs[i], d.jobs[jobs[i]].definition, jobs[k], d.jobs[jobs[k]].definition)
  {
    var jobs := PageJobs(d, token, pageSize, now);
    var selected := Selected(d, token.filters, now);
    var page := Page(KeysOfJobs(d, token.orderBy, selected), TokenKey(token), pageSize);
    assert page[i] in page && page[k] in page;
    JobOfSelectedKey(d, token.orderBy, selected, page[i]);
    JobOfSelectedKey(d, token.orderBy, selected, page[k]);
    OrdersAreKeyOrders(token.orderBy, jobs[i], d.jobs[jobs[i]].definition, jobs[k], d.jobs[jobs[k]].definition);
  }

  /** What each of the orders means: by one column, either way, and then by increasing ids, or by ids alone. */
  lemma PageColumnsAreOrdered(d: Db, token: PageToken, pageSize: nat, now: Time, i: nat, k: nat)
    requires i < k < |PageJobs(d, token, pageSize, now)|
    ensures var jobs := PageJobs(d, token, pageSize, now);
            && jobs[i] in d.jobs && jobs[k] in d.jobs
            && var a, b := d.jobs[jobs[i]].definition, d.jobs[jobs[k]].definition;
               && (token.orderBy == TargetExecutionTimeAsc ==> a.target <= b.target)
               && (token.orderBy == TargetExecutionTimeDesc ==> a.target >= b.target)
               && (token.orderBy == PriorityAsc ==> a.priority <= b.priority)
               && (token.orderBy == PriorityDesc ==> a.priority >= b.priority)
               && (token.orderBy == CreatedAtAsc ==> jobs[i] < jobs[k])
               && (token.orderBy == CreatedAtDesc ==> jobs[i] > jobs[k])
               && (token.orderBy in {TargetExecutionTimeAsc, TargetExecutionTimeDesc} && a.target == b.target ==> jobs[i] < jobs[k])
               && (token.orderBy in {PriorityAsc, PriorityDesc} && a.priority == b.priority ==> jobs[i] < jobs[k])
  {
    PageJobsAreOrdered(d, token, pageSize, now, i, k);
  }

  lemma KeyOfListedJob(orderBy: JobOrderBy, page: seq<Key>, key: Key)
    ensures key in page ==> JobOf(orderBy, key) in JobsOfKeys(orderBy, page)
  {
    if key in page {
      var n :| 0 <= n < |page| && page[n] == key;
      assert JobsOfKeys(orderBy, page)[n] == JobOf(orderBy, key);
    }
  }

  /** The limit keeps the first candidates: one that is left out comes after all of a full page. */
  lemma PageJobsAreFirst(d: Db, token: PageToken, pageSize: nat, now: Time, j: JobId, i: nat)
    requires j in Candidates(d, token, now) && j !in PageJobs(d, token, pageSize, now)
    ensures var jobs := PageJobs(d, token, pageSize, now);
            && |jobs| == pageSize
            && (i < |jobs| ==>
                  && jobs[i] in d.jobs
                  && Precedes(token.orderBy, jobs[i], d.jobs[jobs[i]].definition, j, d.jobs[j].definition))
  {
    var jobs := PageJobs(d, token, pageSize, now);
    var selected := Selected(d, token.filters, now);
    var keys := KeysOfJobs(d, token.orderBy, selected);
    var page := Page(keys, TokenKey(token), pageSize);
    var key := KeyOf(token.orderBy, j, d.jobs[j].definition);
    CandidateKeys(d, token, now);
    assert key in After(keys, TokenKey(token));
    OrdersAreKeyOrders(token.orderBy, j, d.jobs[j].definition, j, d.jobs[j].definition);
    KeyOfListedJob(token.orderBy, page, key);
    if |page| < pageSize || (page != [] && !Less(page[|page| - 1], key)) {
      PageIsPrefix(keys, TokenKey(token), pageSize, key);
    }
    if i < |jobs| {
      assert page[i] in page;
      assert i < |page| - 1 ==> Less(page[i], page[|page| - 1]);
      JobOfSelectedKey(d, token.orderBy, selected, page[i]);
      OrdersAreKeyOrders(token.orderBy, jobs[i], d.jobs[jobs[i]].definition, j, d.jobs[j].definition);
    }
  }

  lemma PageJobsExist(d: Db, token: PageToken, pageSize: nat, now: Time)
    ensures forall i :: 0 <= i < |PageJobs(d, token, pageSize, now)| ==> PageJobs(d, token, pageSize, now)[i] in d.jobs
  {
    forall i | 0 <= i < |PageJobs(d, token, pageSize, now)| ensures PageJobs(d, token, pageSize, now)[i] in d.jobs {
      PageJobIsCandidate(d, token, pageSize, now, i);
    }
  }

  lemma NextTokenOf(d: Db, token: PageToken, pageSize: nat, page: seq<Key>, listed: seq<JobId>, jobs: set<JobId>)
    requires forall k :: k in page ==> k in KeysOfJobs(d, token.orderBy, jobs)
    requires listed == JobsOfKeys(token.orderBy, page) && forall i :: 0 <= i < |listed| ==> listed[i] in d.jobs
    ensures var next := NextToken(d, token, pageSize, listed);
            && (next.None? <==> page == [] || |page| < pageSize)
            && (next.Some? ==>
                  && next.value.filters == token.filters && next.value.orderBy == token.orderBy
                  && TokenKey(next.value) == Some(page[|page| - 1]))
  {
    if page != [] {
      assert page[|page| - 1] in page;
      JobOfSelectedKey(d, token.orderBy, jobs, page[|page| - 1]);
    }
  }

  /** The key of the next token is the last key of the page. */
  lemma NextTokenKey(d: Db, token: PageToken, pageSize: nat, now: Time)
    ensures forall i :: 0 <= i < |PageJobs(d, token, pageSize, now)| ==> PageJobs(d, token, pageSize, now)[i] in d.jobs
    ensures var page := Page(KeysOfJobs(d, token.orderBy, Selected(d, token.filters, now)), TokenKey(token), pageSize);
            var next := NextToken(d, token, pageSize, PageJobs(d, token, pageSize, now));
            && (next.None? <==> page == [] || |page| < pageSize)
            && (next.Some? ==>
                  && next.value.filters == token.filters && next.value.orderBy == token.orderBy
                  && TokenKey(next.value) == Some(page[|page| - 1]))
  {
    var selected := Selected(d, token.filters, now);
    var keys := KeysOfJobs(d, token.orderBy, selected);
    var page := Page(keys, TokenKey(token), pageSize);
    PageJobsExist(d, token, pageSize, now);
    forall k | k in page ensures k in keys {
      assert k in After(keys, TokenKey(token));
    }
    NextTokenOf(d, token, pageSize, page, PageJobs(d, token, pageSize, now), selected);
  }

  /** All the jobs a caller gets by following the tokens, over tables that do not change in the meantime. */
  ghost function AllJobs(d: Db, token: PageToken, pageSize: nat, now: Time): seq<JobId>
    decreases |After(KeysOfJobs(d, token.orderBy, Selected(d, token.filters, now)), TokenKey(token))|
  {
    NextTokenKey(d, token, pageSize, now);
    var jobs := PageJobs(d, token, pageSize, now);
    match NextToken(d, token, pageSize, jobs)
    case None => jobs
    case Some(next) =>
      AfterShrinks(KeysOfJobs(d, token.orderBy, Selected(d, token.filters, now)), TokenKey(token), pageSize);
      jobs + AllJobs(d, next, pageSize, now)
  }

  lemma JobsOfConcatenation(orderBy: JobOrderBy, a: seq<Key>, b: seq<Key>)
    ensures JobsOfKeys(orderBy, a + b) == JobsOfKeys(orderBy, a) + JobsOfKeys(orderBy, b)
  {
  }

  /** Following the tokens follows the pages of keys. */
  lemma {:induction false} AllJobsFollowPages(d: Db, token: PageToken, pageSize: nat, now: Time, keys: set<Key>)
    requires keys == KeysOfJobs(d, token.orderBy, Selected(d, token.filters, now))
    ensures AllJobs(d, token, pageSize, now) == JobsOfKeys(token.orderBy, Pages(keys, TokenKey(token), pageSize))
    decreases |After(keys, TokenKey(token))|
  {
    NextTokenKey(d, token, pageSize, now);
    var page := Page(keys, TokenKey(token), pageSize);
    var next := NextToken(d, token, pageSize, PageJobs(d, token, pageSize, now));
    if next.Some? {
      AfterShrinks(keys, TokenKey(token), pageSize);
      AllJobsFollowPages(d, next.value, pageSize, now, keys);
      JobsOfConcatenation(token.orderBy, page, Pages(keys, TokenKey(next.value), pageSize));
    }
  }

  lemma {:induction false} OneKeyPerJob(d: Db, orderBy: JobOrderBy, jobs: set<JobId>)
    requires jobs <= d.jobs.Keys
    ensures |KeysOfJobs(d, orderBy, jobs)| == |jobs|
  {
    if jobs == {} {
      assert KeysOfJobs(d, orderBy, jobs) == {};
    } else {
      var j :| j in jobs;
      var rest := jobs - {j};
      var k := KeyOf(orderBy, j, d.jobs[j].definition);
      OneKeyPerJob(d, orderBy, rest);
      OrdersAreKeyOrders(orderBy, j, d.jobs[j].definition, j, d.jobs[j].definition);
      assert KeysOfJobs(d, orderBy, jobs) == KeysOfJobs(d, orderBy, rest) + {k};
      if k in KeysOfJobs(d, orderBy, rest) {
        JobOfSelectedKey(d, orderBy, rest, k);
      }
    }
  }

  /**
    Paging is complete and exact, for every order and every page size: following the tokens ends,
    and lists exactly the jobs that the filters select, sorted by the requested columns, each once.
   */
  lemma PagingIsExact(d: Db, filters: Filters, orderBy: JobOrderBy, pageSize: nat, now: Time)
    requires pageSize >= 1
    ensures var jobs := AllJobs(d, FirstToken(filters, orderBy), pageSize, now);
            && (forall j :: j in jobs <==> j in Selected(d, filters, now))
            && |jobs| == |Selected(d, filters, now)|
            && forall i, k :: 0 <= i < k < |jobs| ==>
                 && jobs[i] in d.jobs && jobs[k] in d.jobs
                 && Precedes(orderBy, jobs[i], d.jobs[jobs[i]].definition, jobs[k], d.jobs[jobs[k]].definition)
  {
    var selected := Selected(d, filters, now);
    var keys := KeysOfJobs(d, orderBy, selected);
    var sorted := Sorted(keys);
    var jobs := AllJobs(d, FirstToken(filters, orderBy), pageSize, now);
    AllJobsFollowPages(d, FirstToken(filters, orderBy), pageSize, now, keys);
    PagesAreComplete(keys, None, pageSize);
    assert After(keys, None) == keys;
    assert jobs == JobsOfKeys(orderBy, sorted);
    OneKeyPerJob(d, orderBy, selected);
    forall j ensures j in jobs <==> j in selected {
      SortedHasJob(d, orderBy, selected, j);
    }
    forall i, k | 0 <= i < k < |jobs|
      ensures && jobs[i] in d.jobs && jobs[k] in d.jobs
              && Precedes(orderBy, jobs[i], d.jobs[jobs[i]].definition, jobs[k], d.jobs[jobs[k]].definition)
    {
      assert sorted[i] in sorted && sorted[k] in sorted;
      JobOfSelectedKey(d, orderBy, selected, sorted[i]);
      JobOfSelectedKey(d, orderBy, selected, sorted[k]);
      OrdersAreKeyOrders(orderBy, jobs[i], d.jobs[jobs[i]].definition, jobs[k], d.jobs[jobs[k]].definition);
    }
  }

  lemma SortedHasJob(d: Db, orderBy: JobOrderBy, jobs: set<JobId>, j: JobId)
    requires jobs <= d.jobs.Keys
    ensures j in JobsOfKeys(orderBy, Sorted(KeysOfJobs(d, orderBy, jobs))) <==> j in jobs
  {
    var sorted := Sorted(KeysOfJobs(d, orderBy, jobs));
    var listed := JobsOfKeys(orderBy, sorted);
    if j in listed {
      var i :| 0 <= i < |listed| && listed[i] == j;
      assert sorted[i] in sorted;
      JobOfSelectedKey(d, orderBy, jobs, sorted[i]);
    }
    if j in jobs {
      var k := KeyOf(orderBy, j, d.jobs[j].definition);
      OrdersAreKeyOrders(orderBy, j, d.jobs[j].definition, j, d.jobs[j].definition);
      assert k in KeysOfJobs(d, orderBy, jobs) && k in sorted;
      var i :| 0 <= i < |sorted| && sorted[i] == k;
      assert listed[i] == j;
    }
  }
}
