/** The wait group: guards dropped by any number of tasks, and one task waiting for all of them. */
module WaitGroups {
  import opened Common

  type GuardId = nat

  /**
    The waiting task. It is `Ready` when its runtime is going to poll it, holds the lock while `Checked`
    (it saw guards but did not register its waker yet), and sleeps while `Parked`.
   */
  datatype Poller = Ready | Checked | Parked | Finished

  /**
    `guards` are the registered guards, `wakesDue` the dropped ones whose wake has yet to happen.
    `registered` says whether the shared cell holds the waker, `woken` whether the waiter was woken
    while it was being polled.
   */
  datatype State = State(
    nextId: GuardId, guards: set<GuardId>, wakesDue: set<GuardId>, registered: bool, poller: Poller, woken: bool)

  datatype Step =
    | Add
    | Remove(id: GuardId)
    | Wake(id: GuardId)
    | StartPoll
    | Register

  const INITIAL := State(0, {}, {}, false, Ready, false)

  /** Adding, removing and polling take the lock, waking does not. */
  predicate Enabled(s: State, step: Step) {
    match step
    case Add => !s.poller.Checked?
    case Remove(id) => !s.poller.Checked? && id in s.guards
    case Wake(id) => id in s.wakesDue
    case StartPoll => s.poller.Ready?
    case Register => s.poller.Checked?
  }

  function Next(s: State, step: Step): State
    requires Enabled(s, step)
  {
    match step
    case Add => s.(nextId := s.nextId + 1, guards := s.guards + {s.nextId})
    case Remove(id) => s.(guards := s.guards - {id}, wakesDue := s.wakesDue + {id})
    case Wake(id) =>
      var t := s.(wakesDue := s.wakesDue - {id}, registered := false);
      if !s.registered then t
      else if s.poller.Parked? then t.(poller := Ready)
      else t.(woken := true)
    case StartPoll =>
      if s.guards == {} then s.(poller := Finished, woken := false) else s.(poller := Checked, woken := false)
    case Register => s.(registered := true, poller := if s.woken then Ready else Parked)
  }

  ghost predicate Inv(s: State) {
    && s.guards !! s.wakesDue
    && (forall id :: id in s.guards || id in s.wakesDue ==> id < s.nextId)
    && (s.poller.Checked? ==> s.guards != {})
    && (s.poller.Parked? ==> s.registered && !s.woken)
    // A sleeping task is going to be woken: by a guard that is still registered or by a pending wake.
    && (s.poller.Parked? ==> s.guards != {} || s.wakesDue != {})
  }

  lemma StepKeepsInv(s: State, step: Step)
    requires Inv(s) && Enabled(s, step)
    ensures Inv(Next(s, step))
  {
    if step.Remove? {
      assert step.id in Next(s, step).wakesDue;
    }
  }

  /** The state after running the steps, if each was enabled in turn. */
  ghost predicate Runs(s: State, steps: seq<Step>, t: State)
    decreases |steps|
  {
    if steps == [] then t == s
    else Enabled(s, steps[0]) && Runs(Next(s, steps[0]), steps[1..], t)
  }

  lemma {:induction false} InvHolds(s: State, steps: seq<Step>, t: State)
    requires Inv(s) && Runs(s, steps, t)
    ensures Inv(t)
    decreases |steps|
  {
    if steps != [] {
      StepKeepsInv(s, steps[0]);
      InvHolds(Next(s, steps[0]), steps[1..], t);
    }
  }

  /**
    No wakeup is lost in any interleaving: a task that was woken while it was polled does not sleep, and a
    sleeping one without guards has a wake to come.
   */
  lemma NoLostWakeup(steps: seq<Step>, t: State)
    requires Runs(INITIAL, steps, t)
    ensures t.poller.Parked? ==> t.registered && !t.woken
    ensures t.poller.Parked? && t.guards == {} ==> exists id :: Enabled(t, Wake(id))
  {
    InvHolds(INITIAL, steps, t);
    if t.poller.Parked? && t.guards == {} {
      var id :| id in t.wakesDue;
      assert Enabled(t, Wake(id));
    }
  }

  /** How much can still happen without new guards. */
  ghost function Measure(s: State): nat {
    5 * |s.guards| + 4 * |s.wakesDue|
    + match s.poller
      case Ready => 2
      case Checked => if s.woken then 4 else 1
      case Parked => 0
      case Finished => 0
  }

  lemma StepDecreases(s: State, step: Step)
    requires Inv(s) && Enabled(s, step) && !step.Add?
    ensures Measure(Next(s, step)) < Measure(s)
  {
    var t := Next(s, step);
    if step.Remove? {
      assert s.guards == t.guards + {step.id};
    } else if step.Wake? {
      assert s.wakesDue == t.wakesDue + {step.id};
    }
  }

  lemma {:induction false} RunDecreases(s: State, steps: seq<Step>, t: State)
    requires Inv(s) && Runs(s, steps, t)
    requires forall k :: 0 <= k < |steps| ==> !steps[k].Add?
    ensures Measure(t) + |steps| <= Measure(s)
    decreases |steps|
  {
    if steps != [] {
      StepKeepsInv(s, steps[0]);
      StepDecreases(s, steps[0]);
      RunDecreases(Next(s, steps[0]), steps[1..], t);
    }
  }

  /**
    `all_done` always resolves: once no guards are added, every schedule of the remaining steps is finite,
    and one that cannot be continued has finished the poll. (While guards remain, dropping one continues it.)
   */
  lemma AllDoneResolves(before: seq<Step>, s: State, steps: seq<Step>, t: State)
    requires Runs(INITIAL, before, s) && Runs(s, steps, t)
    requires forall k :: 0 <= k < |steps| ==> !steps[k].Add?
    ensures |steps| <= Measure(s)
    ensures (forall step: Step :: !step.Add? ==> !Enabled(t, step)) ==> t.poller.Finished? && t.guards == {}
  {
    InvHolds(INITIAL, before, s);
    RunDecreases(s, steps, t);
    InvHolds(s, steps, t);
    if forall step: Step :: !step.Add? ==> !Enabled(t, step) {
      assert !Enabled(t, StartPoll) && !Enabled(t, Register);
      if t.guards != {} {
        var id :| id in t.guards;
        assert Enabled(t, Remove(id));
      }
      if t.wakesDue != {} {
        var id :| id in t.wakesDue;
        assert Enabled(t, Wake(id));
      }
    }
  }

  /** The `k`-th step is a poll in a state `m` without guards. */
  ghost predicate FinishesAt(steps: seq<Step>, k: nat, m: State) {
    k < |steps| && steps[k].StartPoll? && Runs(INITIAL, steps[..k], m) && m.guards == {}
  }

  lemma {:induction false} FinishingStep(s: State, steps: seq<Step>, t: State) returns (k: nat, m: State)
    requires Runs(s, steps, t) && !s.poller.Finished? && t.poller.Finished?
    ensures k < |steps| && steps[k].StartPoll? && Runs(s, steps[..k], m) && m.guards == {}
    decreases |steps|
  {
    if Next(s, steps[0]).poller.Finished? {
      k, m := 0, s;
    } else {
      k, m := FinishingStep(Next(s, steps[0]), steps[1..], t);
      k := k + 1;
      assert steps[..k][1..] == steps[1..][..k - 1];
    }
  }

  lemma {:induction false} RestOfRun(s: State, steps: seq<Step>, t: State, k: nat, m: State)
    requires Runs(s, steps, t) && k <= |steps| && Runs(s, steps[..k], m)
    ensures Runs(m, steps[k..], t)
    decreases k
  {
    if k > 0 {
      assert steps[..k][1..] == steps[1..][..k - 1] && steps[1..][k - 1..] == steps[k..];
      RestOfRun(Next(s, steps[0]), steps[1..], t, k - 1, m);
    }
  }

  lemma {:induction false} FinishedStays(s: State, steps: seq<Step>, t: State)
    requires Runs(s, steps, t) && s.poller.Finished?
    ensures t.poller.Finished?
    ensures (forall k :: 0 <= k < |steps| ==> !steps[k].Add?) ==> t.guards <= s.guards
    decreases |steps|
  {
    if steps != [] {
      FinishedStays(Next(s, steps[0]), steps[1..], t);
    }
  }

  /**
    In every run, the waiting task has finished if and only if it was polled at some point while no guard was
    registered, and without guards added since then there are none now.
   */
  lemma FinishesOnlyWithoutGuards(steps: seq<Step>, t: State)
    requires Runs(INITIAL, steps, t)
    ensures t.poller.Finished? <==> exists k: nat, m: State :: FinishesAt(steps, k, m)
    ensures forall k: nat, m: State ::
              FinishesAt(steps, k, m) && (forall n :: k < n < |steps| ==> !steps[n].Add?) ==> t.guards == {}
  {
    if t.poller.Finished? {
      var k, m := FinishingStep(INITIAL, steps, t);
      assert FinishesAt(steps, k, m);
    }
    forall k: nat, m: State | FinishesAt(steps, k, m)
      ensures t.poller.Finished? && ((forall n :: k < n < |steps| ==> !steps[n].Add?) ==> t.guards == {})
    {
      RestOfRun(INITIAL, steps, t, k, m);
      FinishedStays(Next(m, StartPoll), steps[k..][1..], t);
    }
  }

  datatype GuardInfo = GuardInfo(name: string)

  /** The state shared by a wait group, its guards and the waiting task. */
  class WgInner {
    var nextId: GuardId
    var guards: map<GuardId, GuardInfo>
    // The cell of the waker, and the waiter it wakes.
    var registered: bool
    var poller: Poller
    var woken: bool
    // Guards that were removed from the map and have not woken the waiter yet.
    ghost var wakesDue: set<GuardId>

    ghost function View(): State
      reads this
    {
      State(nextId, guards.Keys, wakesDue, registered, poller, woken)
    }

    constructor ()
      ensures View() == INITIAL
    {
      nextId, guards, registered, poller, woken, wakesDue := 0, map[], false, Ready, false, {};
    }

    /** Adds a guard under the lock. */
    method Add(name: string) returns (id: GuardId)
      requires Inv(View()) && Enabled(View(), Step.Add)
      modifies this
      ensures id == old(nextId) && id !in old(guards)
      ensures guards == old(guards)[id := GuardInfo(name)]
      ensures View() == Next(old(View()), Step.Add) && Inv(View())
    {
      assert nextId !in guards.Keys;
      id := nextId;
      nextId := nextId + 1;
      guards := guards[id := GuardInfo(name)];
    }

    /** The first half of dropping a guard: removing it under the lock. */
    method RemoveGuard(id: GuardId)
      requires Inv(View()) && Enabled(View(), Remove(id))
      modifies this
      ensures guards == old(guards) - {id}
      ensures View() == Next(old(View()), Remove(id)) && Inv(View())
    {
      guards := guards - {id};
      wakesDue := wakesDue + {id};
    }

    /** The second half: the waker of the guard is dropped, which wakes the registered task. */
    method WakeTask(ghost id: GuardId)
      requires Inv(View()) && Enabled(View(), Wake(id))
      modifies this
      ensures guards == old(guards)
      ensures View() == Next(old(View()), Wake(id)) && Inv(View())
    {
      wakesDue := wakesDue - {id};
      if registered {
        registered := false;
        if poller.Parked? {
          poller := Ready;
        } else {
          woken := true;
        }
      }
    }

    /** The first half of polling: the check, after which the lock is still held if there are guards. */
    method PollCheck() returns (done: bool)
      requires Inv(View()) && Enabled(View(), StartPoll)
      modifies this
      ensures done <==> old(guards) == map[]
      ensures guards == old(guards)
      ensures View() == Next(old(View()), StartPoll) && Inv(View())
    {
      woken := false;
      done := guards == map[];
      assert guards.Keys == {} <==> guards == map[];
      poller := if done then Finished else Checked;
    }

    /** The second half: registering the waker before the lock is released. */
    method PollRegister()
      requires Inv(View()) && Enabled(View(), Register)
      modifies this
      ensures guards == old(guards)
      ensures View() == Next(old(View()), Register) && Inv(View())
    {
      registered := true;
      poller := if woken then Ready else Parked;
    }
  }
}
