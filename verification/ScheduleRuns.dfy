/** The loop that creates the jobs of schedules, and what holds of these jobs over whole runs. */
module ScheduleRuns {
  import opened Common
  import opened ScheduleTimes
  import opened Tables
  import opened TableInvariants
  import opened TableRuns

  datatype PendingSchedule = PendingSchedule(schedule: ScheduleId, lastTarget: Option<Time>, definition: ScheduleDefinition)
  {
    function Times(): PendingTimes { PendingTimes(lastTarget, definition.scheduling, definition.start, definition.end) }
  }

  /** The clock and time ranges of a server, and the cron library. */
  datatype World = World(limits: Limits, cron: CronOracle) {
    ghost predicate Valid() { limits.Valid() && cron.Valid(limits) }
  }

  // ---- One page of pending schedules.

  datatype Outcome = CreateJob(target: Time) | StopScheduling | Unhandled

  function OutcomeOf(w: World, now: Time, p: PendingSchedule): Outcome {
    match NextExecutionTime(w.limits, w.cron, now, p.Times())
    case Err(_) => Unhandled
    case Ok(None) => StopScheduling
    case Ok(Some(next)) =>
      if p.definition.end.Some? && next >= p.definition.end.value then StopScheduling else CreateJob(next)
  }

  function JobOf(p: PendingSchedule, target: Time): NewJob {
    NewJob(p.definition.template.(target := target), Some(p.schedule))
  }

  function NewJobsOf(w: World, now: Time, page: seq<PendingSchedule>): seq<NewJob> {
    if page == [] then []
    else
      var p := page[|page| - 1];
      NewJobsOf(w, now, page[..|page| - 1])
      + match OutcomeOf(w, now, p) case CreateJob(target) => [JobOf(p, target)] case _ => []
  }

  function NextTime(w: World, now: Time, p: PendingSchedule): Result<Option<Time>, ScheduleTimeError> {
    NextExecutionTime(w.limits, w.cron, now,
                      PendingTimes(p.lastTarget, p.definition.scheduling, p.definition.start, p.definition.end))
  }

  /** The new jobs: the template of each schedule that has a next time before its end, due at that time. */
  lemma {:induction false} NewJobsAre(w: World, now: Time, page: seq<PendingSchedule>, job: NewJob)
    ensures job in NewJobsOf(w, now, page) <==>
              exists i :: 0 <= i < |page| &&
                var next := NextTime(w, now, page[i]);
                && next.Ok? && next.value.Some?
                && (page[i].definition.end.Some? ==> next.value.value < page[i].definition.end.value)
                && job.schedule == Some(page[i].schedule)
                && job.definition == page[i].definition.template.(target := next.value.value)
  {
    if page != [] {
      var n := |page| - 1;
      NewJobsAre(w, now, page[..n], job);
      assert forall i :: 0 <= i < n ==> page[..n][i] == page[i];
      var last := page[n];
      assert OutcomeOf(w, now, last).CreateJob? ==>
        (job in [JobOf(last, OutcomeOf(w, now, last).target)] <==> job == JobOf(last, OutcomeOf(w, now, last).target));
    }
  }

  /** The body of the loop: the jobs to add and the schedules to stop. */
  method HandlePage(w: World, now: Time, page: seq<PendingSchedule>)
    returns (newJobs: seq<NewJob>, stopped: seq<ScheduleId>, unhandled: bool)
    ensures newJobs == NewJobsOf(w, now, page)
    ensures forall job :: job in newJobs <==>
              exists i :: 0 <= i < |page| &&
                var next := NextTime(w, now, page[i]);
                && next.Ok? && next.value.Some?
                && (page[i].definition.end.Some? ==> next.value.value < page[i].definition.end.value)
                && job.schedule == Some(page[i].schedule)
                && job.definition == page[i].definition.template.(target := next.value.value)
    // Schedules are stopped if they have no next time, or none before their end.
    ensures forall s :: s in stopped <==>
              exists i :: 0 <= i < |page| && page[i].schedule == s &&
                var next := NextTime(w, now, page[i]);
                && next.Ok?
                && (next.value.Some? ==>
                      page[i].definition.end.Some? && page[i].definition.end.value <= next.value.value)
    ensures unhandled <==> exists i :: 0 <= i < |page| && NextTime(w, now, page[i]).Err?
    ensures |newJobs| + |stopped| <= |page|
  {
    newJobs, stopped, unhandled := [], [], false;
    for i := 0 to |page|
      invariant newJobs == NewJobsOf(w, now, page[..i])
      invariant forall s :: s in stopped <==>
                  exists k :: 0 <= k < i && page[k].schedule == s &&
                    var next := NextTime(w, now, page[k]);
                    && next.Ok?
                    && (next.value.Some? ==>
                          page[k].definition.end.Some? && page[k].definition.end.value <= next.value.value)
      invariant unhandled <==> exists k :: 0 <= k < i && NextTime(w, now, page[k]).Err?
      invariant |newJobs| + |stopped| <= i
    {
      var p := page[i];
      assert page[..i + 1][..i] == page[..i];
      match NextExecutionTime(w.limits, w.cron, now, p.Times()) {
        case Ok(Some(next)) =>
          if p.definition.end.Some? && next >= p.definition.end.value {
            stopped := stopped + [p.schedule];
          } else {
            newJobs := newJobs + [JobOf(p, next)];
          }
        case Ok(None) =>
          stopped := stopped + [p.schedule];
        case Err(_) =>
          unhandled := true;
      }
    }
    assert page[..|page|] == page;
    forall job ensures job in newJobs <==>
              exists i :: 0 <= i < |page| &&
                var next := NextTime(w, now, page[i]);
                && next.Ok? && next.value.Some?
                && (page[i].definition.end.Some? ==> next.value.value < page[i].definition.end.value)
                && job.schedule == Some(page[i].schedule)
                && job.definition == page[i].definition.template.(target := next.value.value)
    {
      NewJobsAre(w, now, page, job);
    }
  }

  /** The new jobs come from the page. */
  lemma {:induction false} NewJobFromPage(w: World, now: Time, page: seq<PendingSchedule>, i: nat) returns (p: PendingSchedule)
    requires i < |NewJobsOf(w, now, page)|
    ensures p in page && OutcomeOf(w, now, p).CreateJob?
    ensures NewJobsOf(w, now, page)[i] == JobOf(p, OutcomeOf(w, now, p).target)
  {
    var before := page[..|page| - 1];
    if i < |NewJobsOf(w, now, before)| {
      p := NewJobFromPage(w, now, before, i);
    } else {
      p := page[|page| - 1];
    }
  }

  // ---- Runs of the loop, between any other transactions.

  /** The tables, and the page the loop has read but not handled yet. */
  datatype State = State(d: Db, page: seq<PendingSchedule>)

  datatype Step =
    | ReadPage(page: seq<PendingSchedule>)
    | AddNewJobs(now: Time, claims: map<ScheduleId, nat>)
    | Other(tx: Transaction)

  predicate JobOfSchedule(d: Db, s: ScheduleId, j: JobId) { j in d.jobs && d.jobs[j].schedule == Some(s) }

  /** The target of the job with the highest id, if the schedule has any jobs. */
  ghost predicate IsLastTarget(d: Db, s: ScheduleId, last: Option<Time>) {
    match last
    case None => forall j: JobId :: !JobOfSchedule(d, s, j)
    case Some(t) =>
      exists j: JobId :: JobOfSchedule(d, s, j) && d.jobs[j].definition.target == t
                         && forall k: JobId :: JobOfSchedule(d, s, k) ==> k <= j
  }

  ghost predicate RowOf(d: Db, p: PendingSchedule) {
    && p.schedule in d.schedules && d.schedules[p.schedule].definition == p.definition
    && IsLastTarget(d, p.schedule, p.lastTarget)
  }

  /** Transactions other than those of the loop: no other jobs of schedules, no deletion of history. */
  predicate OtherTransaction(w: World, tx: Transaction) {
    match tx
    case AddingJobs(newJobs, _, _) => forall i :: 0 <= i < |newJobs| ==> newJobs[i].schedule.None?
    case AddingSchedules(definitions) => forall i :: 0 <= i < |definitions| ==> InRange(w, definitions[i])
    case DeletingHistory(_, _, _) => false
    case _ => true
  }

  /** The ranges of the types of a definition. */
  predicate InRange(w: World, definition: ScheduleDefinition) {
    && (definition.start.Some? ==> w.limits.System(definition.start.value))
    && (definition.scheduling.FixedInterval? ==> definition.scheduling.interval <= DURATION_MAX)
  }

  ghost predicate CanStep(w: World, s: State, step: Step) {
    match step
    case ReadPage(page) =>
      forall i :: 0 <= i < |page| ==> RowOf(s.d, page[i]) && s.d.schedules[page[i].schedule].IsPending()
    case AddNewJobs(now, claims) => w.limits.System(now) && ClaimsOf(s.d, NewJobsOf(w, now, s.page), claims)
    case Other(tx) => OtherTransaction(w, tx) && Allowed(s.d, tx)
  }

  /** A page is handled once, with whatever the clock says. */
  function Next(w: World, s: State, step: Step): State {
    match step
    case ReadPage(page) => s.(page := page)
    case AddNewJobs(now, claims) => State(AddJobs(s.d, NewJobsOf(w, now, s.page), claims, now), [])
    case Other(tx) => s.(d := Apply(s.d, tx))
  }

  ghost predicate Runs(w: World, s: State, run: seq<Step>, t: State)
    decreases |run|
  {
    if run == [] then t == s else CanStep(w, s, run[0]) && Runs(w, Next(w, s, run[0]), run[1..], t)
  }

  // ---- The invariant.

  /** A job of a schedule is due in the schedule's time range, and a fixed interval is never zero. */
  ghost predicate TargetInRange(w: World, d: Db, j: JobId) {
    j in d.jobs && d.jobs[j].schedule.Some? ==>
      var s := d.jobs[j].schedule.value;
      var target := d.jobs[j].definition.target;
      && s in d.schedules && w.limits.Supported(target)
      && (d.schedules[s].definition.start.Some? ==> d.schedules[s].definition.start.value <= target)
      && (d.schedules[s].definition.end.Some? ==> target < d.schedules[s].definition.end.value)
      && (d.schedules[s].definition.scheduling.FixedInterval? ==> d.schedules[s].definition.scheduling.interval > 0)
  }

  /** Later jobs of a schedule are due later, by at least the interval if there is one. */
  ghost predicate TargetsIncrease(d: Db, j: JobId, k: JobId) {
    j in d.jobs && k in d.jobs && j < k && d.jobs[j].schedule.Some? && d.jobs[k].schedule == d.jobs[j].schedule ==>
      var s := d.jobs[j].schedule.value;
      && s in d.schedules
      && d.jobs[j].definition.target < d.jobs[k].definition.target
      && (d.schedules[s].definition.scheduling.FixedInterval? ==>
            d.jobs[j].definition.target + d.schedules[s].definition.scheduling.interval <= d.jobs[k].definition.target)
  }

  ghost predicate Inv(w: World, s: State) {
    && WellFormed(s.d)
    && (forall id :: id in s.d.schedules ==> InRange(w, s.d.schedules[id].definition))
    && (forall i :: 0 <= i < |s.page| ==> RowOf(s.d, s.page[i]))
    && (forall j: JobId {:trigger TargetInRange(w, s.d, j)} :: TargetInRange(w, s.d, j))
    && (forall j: JobId, k: JobId {:trigger TargetsIncrease(s.d, j, k)} :: TargetsIncrease(s.d, j, k))
  }

  lemma InvInit(w: World)
    ensures Inv(w, State(EMPTY, []))
  {
  }

  /** What other transactions keep: the jobs of schedules, and the definitions of both. */
  ghost predicate SameScheduleJob(d: Db, t: Db, j: JobId) {
    if j in t.jobs && t.jobs[j].schedule.Some?
    then j in d.jobs && d.jobs[j].schedule == t.jobs[j].schedule && d.jobs[j].definition == t.jobs[j].definition
    else j in d.jobs ==> d.jobs[j].schedule.None?
  }

  ghost predicate SameScheduleJobs(w: World, d: Db, t: Db) {
    && (forall j: JobId {:trigger SameScheduleJob(d, t, j)} :: SameScheduleJob(d, t, j))
    && (forall s :: s in d.schedules ==> s in t.schedules && t.schedules[s].definition == d.schedules[s].definition)
    && (forall s :: s in t.schedules && s !in d.schedules ==> InRange(w, t.schedules[s].definition))
  }

  lemma AddedSameScheduleJobs(w: World, d: Db, t: Db, batch: seq<NewJob>, claims: map<ScheduleId, nat>, now: Time)
    requires AddedTo(d, t, batch, claims, now) && WellFormed(d)
    requires forall i :: 0 <= i < |batch| ==> batch[i].schedule.None?
    ensures SameScheduleJobs(w, d, t)
  {
    forall j: JobId ensures SameScheduleJob(d, t, j) {
      if j in t.jobs && j !in d.jobs {
        assert AddedJob(d, batch, claims, j);
      }
    }
  }

  lemma OtherKeepsScheduleJobs(w: World, d: Db, tx: Transaction)
    requires WellFormed(d) && OtherTransaction(w, tx) && Allowed(d, tx)
    ensures SameScheduleJobs(w, d, Apply(d, tx))
  {
    var t := Apply(d, tx);
    if tx.AddingJobs? {
      AddedJobRows(d, tx.newJobs, tx.claims, tx.now);
      AddedSameScheduleJobs(w, d, t, tx.newJobs, tx.claims, tx.now);
    } else {
      forall j: JobId ensures SameScheduleJob(d, t, j) {
      }
    }
  }

  lemma SameLastTarget(w: World, d: Db, t: Db, s: ScheduleId, last: Option<Time>)
    requires SameScheduleJobs(w, d, t) && IsLastTarget(d, s, last)
    ensures IsLastTarget(t, s, last)
  {
    forall j: JobId ensures JobOfSchedule(t, s, j) <==> JobOfSchedule(d, s, j) {
      assert SameScheduleJob(d, t, j);
    }
    if last.Some? {
      var j: JobId :| JobOfSchedule(d, s, j) && d.jobs[j].definition.target == last.value
                      && forall k: JobId :: JobOfSchedule(d, s, k) ==> k <= j;
      assert SameScheduleJob(d, t, j) && JobOfSchedule(t, s, j);
    }
  }

  lemma OtherKeepsInv(w: World, s: State, tx: Transaction)
    requires Inv(w, s) && OtherTransaction(w, tx) && Allowed(s.d, tx)
    ensures Inv(w, s.(d := Apply(s.d, tx)))
  {
    ApplyWellFormed(s.d, tx);
    OtherKeepsScheduleJobs(w, s.d, tx);
    SameScheduleJobsKeepInv(w, s, Apply(s.d, tx));
  }

  lemma SameScheduleJobsKeepInv(w: World, s: State, t: Db)
    requires Inv(w, s) && WellFormed(t) && SameScheduleJobs(w, s.d, t)
    ensures Inv(w, s.(d := t))
  {
    forall i | 0 <= i < |s.page| ensures RowOf(t, s.page[i]) {
      assert RowOf(s.d, s.page[i]);
      SameLastTarget(w, s.d, t, s.page[i].schedule, s.page[i].lastTarget);
    }
    forall j: JobId ensures TargetInRange(w, t, j) {
      assert SameScheduleJob(s.d, t, j) && TargetInRange(w, s.d, j);
    }
    forall j: JobId, k: JobId ensures TargetsIncrease(t, j, k) {
      assert SameScheduleJob(s.d, t, j) && SameScheduleJob(s.d, t, k);
      assert TargetsIncrease(s.d, j, k) && TargetInRange(w, s.d, j);
    }
  }

  // ---- Adding the jobs of a page.

  /** The row of the page that a new job of a schedule comes from. */
  lemma AddedFrom(w: World, s: State, now: Time, claims: map<ScheduleId, nat>, j: JobId) returns (p: PendingSchedule)
    requires Inv(w, s) && AddedJob(s.d, NewJobsOf(w, now, s.page), claims, j)
    ensures p in s.page && RowOf(s.d, p) && OutcomeOf(w, now, p).CreateJob?
    ensures At(NewJobsOf(w, now, s.page), s.d.nextId, j) == JobOf(p, OutcomeOf(w, now, p).target)
    ensures p.schedule in claims && s.d.nextId + claims[p.schedule] == j
  {
    p := NewJobFromPage(w, now, s.page, j - s.d.nextId);
  }

  /** The time of a new job is in the schedule's range, and after the last one. */
  lemma TargetOfRow(w: World, s: State, now: Time, p: PendingSchedule)
    requires w.Valid() && w.limits.System(now) && Inv(w, s) && RowOf(s.d, p) && OutcomeOf(w, now, p).CreateJob?
    ensures var target := OutcomeOf(w, now, p).target;
            && w.limits.Supported(target)
            && (p.definition.start.Some? ==> p.definition.start.value <= target)
            && (p.definition.end.Some? ==> target < p.definition.end.value)
            && (p.definition.scheduling.FixedInterval? ==> p.definition.scheduling.interval > 0)
            && (p.lastTarget.Some? ==>
                  && p.lastTarget.value < target
                  && (p.definition.scheduling.FixedInterval? ==>
                        p.lastTarget.value + p.definition.scheduling.interval <= target))
  {
    if p.lastTarget.Some? {
      var j: JobId :| JobOfSchedule(s.d, p.schedule, j) && s.d.jobs[j].definition.target == p.lastTarget.value;
      assert TargetInRange(w, s.d, j);
    }
    NextTimeAdvances(w.limits, w.cron, now, p.Times());
  }

  /** Every earlier job of the schedule is due before a new one. */
  lemma AfterEarlierJobs(w: World, s: State, now: Time, p: PendingSchedule, j: JobId)
    requires w.Valid() && w.limits.System(now) && Inv(w, s) && RowOf(s.d, p) && OutcomeOf(w, now, p).CreateJob?
    requires JobOfSchedule(s.d, p.schedule, j)
    ensures var target := OutcomeOf(w, now, p).target;
            && s.d.jobs[j].definition.target < target
            && (p.definition.scheduling.FixedInterval? ==>
                  s.d.jobs[j].definition.target + p.definition.scheduling.interval <= target)
  {
    TargetOfRow(w, s, now, p);
    var k: JobId :| JobOfSchedule(s.d, p.schedule, k) && s.d.jobs[k].definition.target == p.lastTarget.value
                    && forall l: JobId :: JobOfSchedule(s.d, p.schedule, l) ==> l <= k;
    assert TargetsIncrease(s.d, j, k);
  }

  lemma AddedTargetInRange(w: World, s: State, now: Time, claims: map<ScheduleId, nat>, t: Db, j: JobId)
    requires w.Valid() && w.limits.System(now) && Inv(w, s)
    requires AddedTo(s.d, t, NewJobsOf(w, now, s.page), claims, now)
    ensures TargetInRange(w, t, j)
  {
    assert TargetInRange(w, s.d, j);
    if j in t.jobs && j !in s.d.jobs {
      var p := AddedFrom(w, s, now, claims, j);
      TargetOfRow(w, s, now, p);
    }
  }

  lemma AddedTargetsIncrease(w: World, s: State, now: Time, claims: map<ScheduleId, nat>, t: Db, j: JobId, k: JobId)
    requires w.Valid() && w.limits.System(now) && Inv(w, s)
    requires AddedTo(s.d, t, NewJobsOf(w, now, s.page), claims, now)
    ensures TargetsIncrease(t, j, k)
  {
    assert TargetsIncrease(s.d, j, k);
    if j in t.jobs && k in t.jobs && j < k && t.jobs[j].schedule.Some? && t.jobs[k].schedule == t.jobs[j].schedule
       && k !in s.d.jobs {
      var p := AddedFrom(w, s, now, claims, k);
      if j !in s.d.jobs {
        var q := AddedFrom(w, s, now, claims, j);
      }
      AfterEarlierJobs(w, s, now, p, j);
    }
  }

  lemma AddNewJobsKeepsInv(w: World, s: State, now: Time, claims: map<ScheduleId, nat>)
    requires w.Valid() && Inv(w, s) && CanStep(w, s, AddNewJobs(now, claims))
    ensures Inv(w, Next(w, s, AddNewJobs(now, claims)))
  {
    var batch := NewJobsOf(w, now, s.page);
    AddedJobRows(s.d, batch, claims, now);
    AddedKeepsInv(w, s, now, claims, AddJobs(s.d, batch, claims, now));
  }

  lemma AddedKeepsInv(w: World, s: State, now: Time, claims: map<ScheduleId, nat>, t: Db)
    requires w.Valid() && w.limits.System(now) && Inv(w, s) && ClaimsOf(s.d, NewJobsOf(w, now, s.page), claims)
    requires AddedTo(s.d, t, NewJobsOf(w, now, s.page), claims, now)
    ensures Inv(w, State(t, []))
  {
    AddedWellFormed(s.d, t, NewJobsOf(w, now, s.page), claims, now);
    forall j: JobId ensures TargetInRange(w, t, j) {
      AddedTargetInRange(w, s, now, claims, t, j);
    }
    forall j: JobId, k: JobId ensures TargetsIncrease(t, j, k) {
      AddedTargetsIncrease(w, s, now, claims, t, j, k);
    }
  }

  lemma {:induction false} RunKeepsInv(w: World, s: State, run: seq<Step>, t: State)
    requires w.Valid() && Inv(w, s) && Runs(w, s, run, t)
    ensures Inv(w, t)
    decreases |run|
  {
    if run != [] {
      match run[0] {
        case ReadPage(page) =>
        case AddNewJobs(now, claims) => AddNewJobsKeepsInv(w, s, now, claims);
        case Other(tx) => OtherKeepsInv(w, s, tx);
      }
      RunKeepsInv(w, Next(w, s, run[0]), run[1..], t);
    }
  }

  /**
    Schedule safety over whole runs with one scheduling loop and no deletion of history, whatever the
    clock does. Every job of a schedule, also its only one, is due at a time that is supported and in the
    schedule's time range, and a schedule whose fixed interval is zero never gets a job.
   */
  lemma JobsAreInRange(w: World, run: seq<Step>, t: State, s: ScheduleId, j: JobId)
    requires w.Valid() && Runs(w, State(EMPTY, []), run, t) && JobOfSchedule(t.d, s, j)
    ensures s in t.d.schedules && w.limits.Supported(t.d.jobs[j].definition.target)
    ensures var definition := t.d.schedules[s].definition;
            && (definition.start.Some? ==> definition.start.value <= t.d.jobs[j].definition.target)
            && (definition.end.Some? ==> t.d.jobs[j].definition.target < definition.end.value)
            && (definition.scheduling.FixedInterval? ==> definition.scheduling.interval > 0)
  {
    InvInit(w);
    RunKeepsInv(w, State(EMPTY, []), run, t);
    assert TargetInRange(w, t.d, j);
  }

  /** The target times of a schedule's jobs strictly increase, by at least the interval if it has a fixed one. */
  lemma ScheduleIsSafe(w: World, run: seq<Step>, t: State, s: ScheduleId, j: JobId, k: JobId)
    requires w.Valid() && Runs(w, State(EMPTY, []), run, t)
    requires JobOfSchedule(t.d, s, j) && JobOfSchedule(t.d, s, k) && j < k
    ensures s in t.d.schedules
    ensures t.d.jobs[j].definition.target < t.d.jobs[k].definition.target
    ensures t.d.schedules[s].definition.scheduling.FixedInterval? ==>
              t.d.jobs[j].definition.target + t.d.schedules[s].definition.scheduling.interval
              <= t.d.jobs[k].definition.target
    ensures t.d.schedules[s].definition.start.Some? ==>
              t.d.schedules[s].definition.start.value <= t.d.jobs[j].definition.target
    ensures t.d.schedules[s].definition.end.Some? ==>
              t.d.jobs[k].definition.target < t.d.schedules[s].definition.end.value
  {
    InvInit(w);
    RunKeepsInv(w, State(EMPTY, []), run, t);
    assert TargetsIncrease(t.d, j, k) && TargetInRange(w, t.d, j) && TargetInRange(w, t.d, k);
  }

  /** The last of n jobs of a fixed-interval schedule is due at least n - 1 intervals after the first. */
  lemma {:induction false} IntervalsAddUp(w: World, t: State, s: ScheduleId, jobs: set<JobId>) returns (first: JobId, last: JobId)
    requires Inv(w, t) && s in t.d.schedules && t.d.schedules[s].definition.scheduling.FixedInterval?
    requires jobs != {} && forall j :: j in jobs ==> JobOfSchedule(t.d, s, j)
    ensures first in jobs && IsMax(jobs, last) && JobOfSchedule(t.d, s, first) && JobOfSchedule(t.d, s, last)
    ensures t.d.jobs[first].definition.target + (|jobs| - 1) * t.d.schedules[s].definition.scheduling.interval
         <= t.d.jobs[last].definition.target
    decreases |jobs|
  {
    last := MaxOf(jobs);
    first := last;
    var rest := jobs - {last};
    if rest != {} {
      var before;
      first, before := IntervalsAddUp(w, t, s, rest);
      assert before in jobs && TargetsIncrease(t.d, before, last);
    } else {
      assert jobs == {last};
    }
  }

  /**
    A schedule with a fixed interval has only as many jobs as there are intervals, none of them empty, between
    its start and its end, or the earliest and the latest supported time if it has no start or no end.
   */
  lemma BoundedJobs(w: World, run: seq<Step>, t: State, s: ScheduleId, jobs: set<JobId>)
    requires w.Valid() && Runs(w, State(EMPTY, []), run, t)
    requires jobs != {} && forall j :: j in jobs ==> JobOfSchedule(t.d, s, j)
    ensures s in t.d.schedules
    ensures var definition := t.d.schedules[s].definition;
            definition.scheduling.FixedInterval? ==>
              var from := if definition.start.Some? then definition.start.value else w.limits.minSupported;
              && definition.scheduling.interval > 0
              && from + (|jobs| - 1) * definition.scheduling.interval <= w.limits.maxSupported
              && (definition.end.Some? ==> from + (|jobs| - 1) * definition.scheduling.interval < definition.end.value)
  {
    InvInit(w);
    RunKeepsInv(w, State(EMPTY, []), run, t);
    var j :| j in jobs;
    assert TargetInRange(w, t.d, j);
    if t.d.schedules[s].definition.scheduling.FixedInterval? {
      var first, last := IntervalsAddUp(w, t, s, jobs);
      assert TargetInRange(w, t.d, first) && TargetInRange(w, t.d, last);
    }
  }
}
