/** The arithmetic that determines the next execution time of a schedule. */
module ScheduleTimes {
  import opened Common

  datatype MissedTimePolicy = Skip | Create

  datatype SchedulingPolicy =
    | FixedInterval(interval: Duration, immediate: bool, missed: MissedTimePolicy)
    | Cron(expression: string, immediate: bool, missed: MissedTimePolicy)

  datatype ScheduleTimeError = ZeroInterval | OutOfRange | CronError

  /** What a pending schedule says about its times. */
  datatype PendingTimes = PendingTimes(
    lastTarget: Option<Time>, scheduling: SchedulingPolicy, start: Option<Time>, end: Option<Time>)

  /**
    The ranges of the two time types: `SystemTime` and the narrower `Timestamp`,
    which decides what the backend supports.
   */
  datatype Limits = Limits(minSystem: Time, minSupported: Time, maxSupported: Time, maxSystem: Time) {
    ghost predicate Valid() {
      && minSystem <= minSupported <= maxSupported <= maxSystem
      // Times have 64-bit seconds, so any two are at most the longest duration apart.
      && maxSystem - minSystem <= DURATION_MAX
    }

    predicate System(t: Time) { minSystem <= t <= maxSystem }

    predicate Supported(t: Time) { minSupported <= t <= maxSupported }
  }

  /** The foreign cron library: whether an expression parses, and the next matching time after a time. */
  datatype CronOracle = CronOracle(parses: string -> bool, findNext: (string, Time) -> Option<Time>) {
    ghost predicate Valid(limits: Limits) {
      forall expression: string, t: Time ::
        findNext(expression, t).Some? ==>
          t < findNext(expression, t).value && limits.Supported(findNext(expression, t).value)
    }
  }

  /** Whole seconds and remaining nanoseconds, unless the seconds do not fit in 64 bits. */
  function DurationFromNanos(nanos: nat): (d: Option<Duration>) {
    if nanos / NANOS_PER_SEC <= U64_MAX
    then Some((nanos / NANOS_PER_SEC) * NANOS_PER_SEC + nanos % NANOS_PER_SEC)
    else None
  }

  /** The split loses nothing, and fails exactly on what is not a duration. */
  lemma DurationFromNanosExact(nanos: nat)
    ensures DurationFromNanos(nanos) == if nanos <= DURATION_MAX then Some(nanos) else None
  {
  }

  function CheckedMulU128(a: nat, b: nat): Option<nat> {
    if a * b <= U128_MAX then Some(a * b) else None
  }

  function DivCeil(a: nat, b: nat): nat
    requires b > 0
  {
    a / b + if a % b == 0 then 0 else 1
  }

  /** Adds a duration to a time, the result must be supported. */
  function AddTime(limits: Limits, time: Time, duration: Duration): Result<Time, ScheduleTimeError> {
    if time + duration > limits.maxSystem then Err(OutOfRange)
    else if !limits.Supported(time + duration) then Err(OutOfRange)
    else Ok(time + duration)
  }

  /** Skips the intervals missed since `nextTime`. */
  function SkipMissed(limits: Limits, now: Time, nextTime: Time, interval: Duration): Result<Time, ScheduleTimeError>
    requires interval > 0
  {
    if now < nextTime then Ok(nextTime)
    else
      var missedIntervals := DivCeil(now - nextTime, interval);
      match CheckedMulU128(missedIntervals, interval)
      case None => Err(OutOfRange)
      case Some(nanos) =>
        match DurationFromNanos(nanos)
        case None => Err(OutOfRange)
        case Some(skipped) => AddTime(limits, nextTime, skipped)
  }

  /** The current time, or the start of the schedule's range if that is later. */
  function EffectiveNow(now: Time, start: Option<Time>): Time {
    if start.Some? && now < start.value then start.value else now
  }

  /** The next execution time of a pending schedule, `None` if it has no more execution times. */
  function NextExecutionTime(limits: Limits, cron: CronOracle, systemNow: Time, schedule: PendingTimes)
    : Result<Option<Time>, ScheduleTimeError>
  {
    var now := EffectiveNow(systemNow, schedule.start);
    match schedule.scheduling
    case FixedInterval(interval, immediate, missed) =>
      if interval == 0 then Err(ZeroInterval)
      else if schedule.lastTarget.Some? then
        match AddTime(limits, schedule.lastTarget.value, interval)
        case Err(error) => Err(error)
        case Ok(nextTime) =>
          (match missed
           case Skip =>
             (match SkipMissed(limits, now, nextTime, interval)
              case Err(error) => Err(error)
              case Ok(time) => Ok(Some(time)))
           case Create => Ok(Some(nextTime)))
      else if immediate then
        if limits.Supported(now) then Ok(Some(now)) else Err(OutOfRange)
      else
        (match AddTime(limits, now, interval)
         case Err(error) => Err(error)
         case Ok(time) => Ok(Some(time)))
    case Cron(expression, immediate, missed) =>
      if !cron.parses(expression) then Err(CronError)
      else if !limits.Supported(now) then Err(OutOfRange)
      else if schedule.lastTarget.Some? then
        match missed
        case Skip =>
          var after := if limits.Supported(schedule.lastTarget.value) then Max(now, schedule.lastTarget.value) else now;
          Ok(cron.findNext(expression, after))
        case Create =>
          if limits.Supported(schedule.lastTarget.value)
          then Ok(cron.findNext(expression, schedule.lastTarget.value))
          else Err(OutOfRange)
      else if immediate then Ok(Some(now))
      else Ok(cron.findNext(expression, now))
  }

  /** `t` is the least last + k * interval, with k at least one, that is not before `now`. */
  ghost predicate IsLeastMultiple(last: Time, interval: Duration, now: Time, t: Time) {
    && (exists k: nat {:trigger k * interval} :: k >= 1 && t == last + k * interval)
    && t >= now
    && forall k: nat {:trigger k * interval} :: k >= 1 && last + k * interval >= now ==> t <= last + k * interval
  }

  lemma MulOrder(a: nat, b: nat, d: nat)
    requires a <= b
    ensures a * d <= b * d
  {
  }

  /** The time after skipping: the next time, moved on by whole intervals until it is not in the past. */
  function SkippedTime(now: Time, last: Time, interval: Duration): Time
    requires interval > 0
  {
    if now < last + interval then last + interval
    else last + interval + DivCeil(now - (last + interval), interval) * interval
  }

  lemma DivCeilBounds(a: nat, b: nat)
    requires b > 0
    ensures a <= DivCeil(a, b) * b < a + b
  {
    assert a == (a / b) * b + a % b;
    assert (a / b + 1) * b == (a / b) * b + b;
  }

  lemma OneMore(n: nat, d: nat)
    ensures (1 + n) * d == d + n * d
  {
  }

  /** A multiple that is not before `now`, when the one before it is, is the least one. */
  lemma LeastMultiple(last: Time, interval: Duration, now: Time, n: nat, t: Time)
    requires t == last + (1 + n) * interval && t >= now && (n == 0 || last + n * interval < now)
    ensures IsLeastMultiple(last, interval, now, t)
  {
    forall k: nat {:trigger k * interval} | k >= 1 && last + k * interval >= now
      ensures t <= last + k * interval
    {
      if k <= n {
        MulOrder(k, n, interval);
      } else {
        MulOrder(1 + n, k, interval);
      }
    }
  }

  lemma SkippedTimeIsLeast(now: Time, last: Time, interval: Duration)
    requires interval > 0
    ensures IsLeastMultiple(last, interval, now, SkippedTime(now, last, interval))
    ensures SkippedTime(now, last, interval) < Max(now, last + 1) + interval
  {
    var t := SkippedTime(now, last, interval);
    if now < last + interval {
      OneMore(0, interval);
      LeastMultiple(last, interval, now, 0, t);
    } else {
      var n := DivCeil(now - (last + interval), interval);
      DivCeilBounds(now - (last + interval), interval);
      OneMore(n, interval);
      LeastMultiple(last, interval, now, n, t);
    }
  }

  /**
    The multiplication never overflows 128 bits, so skipping fails exactly
    when the time it looks for is above the supported range.
   */
  lemma SkipMissedExact(limits: Limits, now: Time, last: Time, interval: Duration)
    requires limits.Valid() && limits.System(now) && limits.Supported(last) && 0 < interval <= DURATION_MAX
    requires limits.Supported(last + interval)
    ensures SkipMissed(limits, now, last + interval, interval)
         == var t := SkippedTime(now, last, interval); if t <= limits.maxSupported then Ok(t) else Err(OutOfRange)
  {
    if now >= last + interval {
      var nanos := DivCeil(now - (last + interval), interval) * interval;
      SkippedTimeIsLeast(now, last, interval);
      assert last + interval + nanos < now + interval;
      assert nanos <= 2 * DURATION_MAX <= U128_MAX;
      DurationFromNanosExact(nanos);
    }
  }

  /** The fixed-interval branch that skips missed times. */
  lemma SkipIsLeast(limits: Limits, cron: CronOracle, systemNow: Time, schedule: PendingTimes, t: Time)
    requires limits.Valid() && limits.System(systemNow)
    requires schedule.start.Some? ==> limits.System(schedule.start.value)
    requires schedule.scheduling.FixedInterval? && schedule.scheduling.missed.Skip?
    requires 0 < schedule.scheduling.interval <= DURATION_MAX
    requires schedule.lastTarget.Some? && limits.Supported(schedule.lastTarget.value)
    requires IsLeastMultiple(schedule.lastTarget.value, schedule.scheduling.interval,
                             if schedule.start.Some? then Max(systemNow, schedule.start.value) else systemNow, t)
    ensures NextExecutionTime(limits, cron, systemNow, schedule)
         == if t <= limits.maxSupported then Ok(Some(t)) else Err(OutOfRange)
  {
    var now := EffectiveNow(systemNow, schedule.start);
    var last, interval := schedule.lastTarget.value, schedule.scheduling.interval;
    SkippedTimeIsLeast(now, last, interval);
    LeastMultipleUnique(last, interval, now, t, SkippedTime(now, last, interval));
    if limits.Supported(last + interval) {
      SkipMissedExact(limits, now, last, interval);
    } else {
      var k: nat :| k >= 1 && t == last + k * interval;
      MulOrder(1, k, interval);
    }
  }

  /**
    The first time of a schedule is the current time or its start, whichever is later, or one interval after
    that if it does not begin at once. Without skipping, later times are exactly one interval apart.
   */
  lemma FixedTimes(limits: Limits, cron: CronOracle, systemNow: Time, schedule: PendingTimes, base: Time)
    requires limits.Valid() && limits.System(systemNow)
    requires schedule.start.Some? ==> limits.System(schedule.start.value)
    requires schedule.scheduling.FixedInterval? && schedule.scheduling.interval > 0
    requires schedule.lastTarget.Some? ==> schedule.scheduling.missed.Create?
    requires if schedule.lastTarget.Some? then base == schedule.lastTarget.value
             else base >= systemNow && (schedule.start.Some? ==> base >= schedule.start.value)
                  && (base == systemNow || Some(base) == schedule.start)
    ensures var t := if schedule.lastTarget.None? && schedule.scheduling.immediate then base
                     else base + schedule.scheduling.interval;
            NextExecutionTime(limits, cron, systemNow, schedule)
            == if limits.minSupported <= t <= limits.maxSupported then Ok(Some(t)) else Err(OutOfRange)
  {
  }

  /** A schedule without an interval, or with an expression that cannot be parsed, has no times at all. */
  lemma NoTimes(limits: Limits, cron: CronOracle, systemNow: Time, schedule: PendingTimes)
    ensures schedule.scheduling.FixedInterval? && schedule.scheduling.interval == 0 ==>
              NextExecutionTime(limits, cron, systemNow, schedule) == Err(ZeroInterval)
    ensures schedule.scheduling.Cron? && !cron.parses(schedule.scheduling.expression) ==>
              NextExecutionTime(limits, cron, systemNow, schedule) == Err(CronError)
  {
  }

  /**
    A cron schedule begins at once, or with the first match after the current time or its start. Later times are
    the first matches after the last one, or after the current time as well if missed times are skipped.
   */
  lemma CronTimes(limits: Limits, cron: CronOracle, systemNow: Time, schedule: PendingTimes, base: Time)
    requires limits.Valid() && schedule.scheduling.Cron? && cron.parses(schedule.scheduling.expression)
    requires base >= systemNow && (schedule.start.Some? ==> base >= schedule.start.value)
    requires base == systemNow || Some(base) == schedule.start
    requires schedule.lastTarget.Some? ==> limits.Supported(schedule.lastTarget.value)
    ensures var expression, next := schedule.scheduling.expression, NextExecutionTime(limits, cron, systemNow, schedule);
            if !(limits.minSupported <= base <= limits.maxSupported) then next == Err(OutOfRange)
            else if schedule.lastTarget.None? then
              next == Ok(if schedule.scheduling.immediate then Some(base) else cron.findNext(expression, base))
            else if schedule.scheduling.missed.Create? || schedule.lastTarget.value > base then
              next == Ok(cron.findNext(expression, schedule.lastTarget.value))
            else next == Ok(cron.findNext(expression, base))
  {
  }

  lemma LeastMultipleUnique(last: Time, interval: Duration, now: Time, t: Time, u: Time)
    requires IsLeastMultiple(last, interval, now, t) && IsLeastMultiple(last, interval, now, u)
    ensures t == u
  {
    var k: nat :| k >= 1 && t == last + k * interval;
    var l: nat :| l >= 1 && u == last + l * interval;
  }

  /** Every time that is returned is supported, and never the same as, or before, the last one. */
  lemma NextTimeAdvances(limits: Limits, cron: CronOracle, systemNow: Time, schedule: PendingTimes)
    requires limits.Valid() && limits.System(systemNow) && cron.Valid(limits)
    requires schedule.start.Some? ==> limits.System(schedule.start.value)
    requires schedule.scheduling.FixedInterval? ==> schedule.scheduling.interval <= DURATION_MAX
    requires schedule.lastTarget.Some? ==> limits.Supported(schedule.lastTarget.value)
    ensures var next := NextExecutionTime(limits, cron, systemNow, schedule);
            next.Ok? && next.value.Some? ==>
              && limits.Supported(next.value.value)
              && (schedule.lastTarget.None? && schedule.start.Some? ==> schedule.start.value <= next.value.value)
              && (schedule.lastTarget.Some? ==> schedule.lastTarget.value < next.value.value)
              && (schedule.lastTarget.Some? && schedule.scheduling.FixedInterval? ==>
                    schedule.lastTarget.value + schedule.scheduling.interval <= next.value.value)
  {
    var now := EffectiveNow(systemNow, schedule.start);
    if schedule.scheduling.FixedInterval? && schedule.lastTarget.Some? && schedule.scheduling.interval > 0 {
      var last, interval := schedule.lastTarget.value, schedule.scheduling.interval;
      if schedule.scheduling.missed.Skip? && limits.Supported(last + interval) {
        SkipMissedExact(limits, now, last, interval);
        if now >= last + interval {
          assert DivCeil(now - (last + interval), interval) * interval >= 0;
        }
      }
    }
  }
}
