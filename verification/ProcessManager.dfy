/**
 The llama-server manager (internal/granite/process.go) and the goroutine that watches the child
 (cmd/granite-controller/main.go), from the moment the child process has been spawned. The child, the
 goroutine that reaps it, the watcher with its startup loop, and any number of `Stop` calls interleave;
 a `Stop` call may also come while the startup loop is running.
 */
module ProcessManager {
  import opened Common

  /** The manager's fields; `exited` says that its channel is closed, `cancel` that the function is still held. */
  datatype Fields = Fields(ready: bool, stopping: bool, cancel: bool, exitErr: Option<int>, exited: bool)

  const SPAWNED: Fields := Fields(false, false, true, None, false)

  datatype Child = Alive | Dead(killed: bool)

  datatype Reaper = AwaitChild | ErrRecorded | Closed

  /** `Checked(seen)` has read the stopping flag as seen; the failure path is taken when it was false. */
  datatype Watcher = Starting | StartFailed | AwaitExit | Checking | Checked(seen: bool)

  /** One Stop call, by the last thing it has done. */
  datatype Stopper = Flagged | Unready | Took(had: bool) | Cancelled | Returned(had: bool)

  /** `cancelled` says that the child's context has been cancelled. */
  datatype State = State(fields: Fields, child: Child, cancelled: bool, reaper: Reaper, watcher: Watcher,
                         stoppers: seq<Stopper>)

  const INITIAL: State := State(SPAWNED, Alive, false, AwaitChild, Starting, [])

  datatype Step =
    | ChildExits | ChildKilled
    | ReapErr(err: Option<int>) | ReapClose
    | ProbeSucceeds | StartSeesExit | StartTimesOut
    | WatcherSeesExit | WatcherChecks
    | BeginStop | StopUnready(i: nat) | StopTakes(i: nat) | StopCancels(i: nat) | StopReturns(i: nat)

  predicate StopAt(s: State, i: nat, at: Stopper) {
    i < |s.stoppers| && s.stoppers[i] == at
  }

  predicate Enabled(s: State, step: Step) {
    match step
    case ChildExits => s.child.Alive?
    case ChildKilled => s.child.Alive? && s.cancelled
    case ReapErr(_) => s.child.Dead? && s.reaper == AwaitChild
    case ReapClose => s.reaper == ErrRecorded
    case ProbeSucceeds => s.watcher == Starting
    case StartSeesExit => s.watcher == Starting && s.fields.exited
    case StartTimesOut => s.watcher == Starting
    case WatcherSeesExit => s.watcher == AwaitExit && s.fields.exited
    case WatcherChecks => s.watcher == Checking
    case BeginStop => true
    case StopUnready(i) => StopAt(s, i, Flagged)
    case StopTakes(i) => StopAt(s, i, Unready)
    case StopCancels(i) => i < |s.stoppers| && s.stoppers[i].Took?
    case StopReturns(i) => StopAt(s, i, Cancelled) && s.fields.exited
  }

  function Apply(s: State, step: Step): State
    requires Enabled(s, step)
  {
    match step
    case ChildExits => s.(child := Dead(false))
    case ChildKilled => s.(child := Dead(true))
    case ReapErr(err) => s.(fields := s.fields.(exitErr := err), reaper := ErrRecorded)
    case ReapClose => s.(fields := s.fields.(exited := true), reaper := Closed)
    case ProbeSucceeds => s.(fields := s.fields.(ready := true), watcher := AwaitExit)
    case StartSeesExit => s.(cancelled := true, watcher := StartFailed)
    case StartTimesOut => s.(cancelled := true, watcher := StartFailed)
    case WatcherSeesExit => s.(watcher := Checking)
    case WatcherChecks => s.(watcher := Checked(s.fields.stopping))
    case BeginStop => s.(fields := s.fields.(stopping := true), stoppers := s.stoppers + [Flagged])
    case StopUnready(i) => s.(fields := s.fields.(ready := false), stoppers := s.stoppers[i := Unready])
    case StopTakes(i) => s.(fields := s.fields.(cancel := false), stoppers := s.stoppers[i := Took(s.fields.cancel)])
    case StopCancels(i) =>
      if s.stoppers[i].had then s.(cancelled := true, stoppers := s.stoppers[i := Cancelled])
      else s.(stoppers := s.stoppers[i := Returned(false)])
    case StopReturns(i) => s.(stoppers := s.stoppers[i := Returned(true)])
  }

  function Run(steps: seq<Step>): Option<State> {
    if steps == [] then Some(INITIAL)
    else
      var n := |steps| - 1;
      var before := Run(steps[..n]);
      if before.Some? && Enabled(before.value, steps[n]) then Some(Apply(before.value, steps[n])) else None
  }

  lemma RunOneMore(steps: seq<Step>, step: Step)
    requires Run(steps).Some? && Enabled(Run(steps).value, step)
    ensures Run(steps + [step]) == Some(Apply(Run(steps).value, step))
  {
    assert (steps + [step])[..|steps|] == steps;
  }

  // ---- The manager's methods ----

  /** What the startup loop's select can choose: a closed channel, its deadline or context, or a tick and its probe. */
  datatype Event = Exited | GivenUp | Tick(healthy: bool)

  datatype Startup = Pending | Ready | Failed

  /** The first event that decides. */
  function Outcome(events: seq<Event>): Startup {
    if events == [] then Pending
    else match events[0]
      case Exited => Failed
      case GivenUp => Failed
      case Tick(true) => Ready
      case Tick(false) => Outcome(events[1..])
  }

  /** The startup succeeds exactly when a probe does before anything else happens. */
  lemma {:induction false} ReadyIffProbeFirst(events: seq<Event>)
    ensures Outcome(events) == Ready <==>
            exists k | 0 <= k < |events| :: events[k] == Tick(true) && forall j | 0 <= j < k :: events[j] == Tick(false)
    ensures Outcome(events) == Pending <==> forall k | 0 <= k < |events| :: events[k] == Tick(false)
  {
    if events != [] && events[0] == Tick(false) {
      var rest := events[1..];
      ReadyIffProbeFirst(rest);
      if k :| 0 <= k < |rest| && rest[k] == Tick(true) && forall j | 0 <= j < k :: rest[j] == Tick(false) {
        assert events[k + 1] == Tick(true) && forall j | 0 <= j < k + 1 :: events[j] == Tick(false);
      }
      if k :| 0 <= k < |events| && events[k] == Tick(true) && forall j | 0 <= j < k :: events[j] == Tick(false) {
        assert rest[k - 1] == Tick(true) && forall j | 0 <= j < k - 1 :: rest[j] == events[j + 1];
      }
      assert (forall k | 0 <= k < |rest| :: rest[k] == Tick(false)) ==>
             forall k | 0 < k < |events| :: events[k] == rest[k - 1];
      assert (forall k | 0 <= k < |events| :: events[k] == Tick(false)) ==>
             forall k | 0 <= k < |rest| :: rest[k] == events[k + 1];
    }
  }

  /** What one Stop call has done when it waits or returns. */
  function Stopped(s: State): State {
    s.(fields := s.fields.(stopping := true, ready := false, cancel := false),
       cancelled := s.cancelled || s.fields.cancel,
       stoppers := s.stoppers + [if s.fields.cancel then Cancelled else Returned(false)])
  }

  /** The four accesses of a Stop call, one after the other. */
  function StopSteps(n: nat): seq<Step> {
    [BeginStop, StopUnready(n), StopTakes(n), StopCancels(n)]
  }

  lemma SetLast(stoppers: seq<Stopper>, p: Stopper, q: Stopper)
    ensures (stoppers + [p])[|stoppers| := q] == stoppers + [q]
    ensures (stoppers + [p])[|stoppers|] == p
  {
  }

  lemma FlagsInMachine(steps: seq<Step>)
    requires Run(steps).Some?
    ensures var s := Run(steps).value;
            Run(steps + [BeginStop] + [StopUnready(|s.stoppers|)]) ==
            Some(s.(fields := s.fields.(stopping := true, ready := false), stoppers := s.stoppers + [Unready]))
  {
    var s := Run(steps).value;
    SetLast(s.stoppers, Flagged, Unready);
    RunOneMore(steps, BeginStop);
    RunOneMore(steps + [BeginStop], StopUnready(|s.stoppers|));
  }

  lemma StopInMachine(steps: seq<Step>)
    requires Run(steps).Some?
    ensures var s := Run(steps).value; Run(steps + StopSteps(|s.stoppers|)) == Some(Stopped(s))
  {
    var s := Run(steps).value;
    var n := |s.stoppers|;
    var took := Took(s.fields.cancel);
    FlagsInMachine(steps);
    var flagged := steps + [BeginStop] + [StopUnready(n)];
    SetLast(s.stoppers, Unready, took);
    RunOneMore(flagged, StopTakes(n));
    SetLast(s.stoppers, took, if s.fields.cancel then Cancelled else Returned(false));
    RunOneMore(flagged + [StopTakes(n)], StopCancels(n));
    assert flagged + [StopTakes(n)] + [StopCancels(n)] == steps + StopSteps(n);
  }

  class Manager {
    var ready: bool
    var stopping: bool
    var cancel: bool
    var exitErr: Option<int>
    var exited: bool
    /** The child's context, which the cancel function reaches. */
    var cancelled: bool

    /** The object is in the state of the machine. */
    ghost predicate Mirrors(s: State)
      reads this
    {
      s.fields == Fields(ready, stopping, cancel, exitErr, exited) && s.cancelled == cancelled
    }

    /** A manager whose child has just been spawned. */
    constructor ()
      ensures Mirrors(INITIAL)
    {
      ready, stopping, cancel, exitErr, exited, cancelled := false, false, true, None, false, false;
    }

    /**
     The startup loop over the events its select meets; the cancel function it holds is its own, so the field
     stays. The machine takes one step for the event that decides.
     */
    method AwaitReady(events: seq<Event>, ghost before: seq<Step>) returns (outcome: Startup, ghost after: seq<Step>)
      requires Run(before).Some? && Mirrors(Run(before).value) && Run(before).value.watcher == Starting
      requires Exited in events ==> exited
      modifies this
      ensures outcome == Outcome(events)
      ensures Run(after).Some? && Mirrors(Run(after).value)
      ensures var s := Run(before).value;
              Run(after).value == match outcome
                case Pending => s
                case Ready => s.(fields := s.fields.(ready := true), watcher := AwaitExit)
                case Failed => s.(cancelled := true, watcher := StartFailed)
    {
      after := before;
      for k := 0 to |events|
        invariant Outcome(events) == Outcome(events[k..])
        invariant after == before && Mirrors(Run(before).value) && exited == old(exited)
      {
        assert events[k..][0] == events[k] && events[k..][1..] == events[k + 1..];
        match events[k] {
          case Exited =>
            RunOneMore(before, StartSeesExit);
            cancelled := true;
            return Failed, before + [StartSeesExit];
          case GivenUp =>
            RunOneMore(before, StartTimesOut);
            cancelled := true;
            return Failed, before + [StartTimesOut];
          case Tick(healthy) =>
            if healthy {
              RunOneMore(before, ProbeSucceeds);
              ready := true;
              return Ready, before + [ProbeSucceeds];
            }
        }
      }
      outcome := Pending;
    }

    /** The reaping goroutine, once the child is dead: the error is recorded before the channel is closed. */
    method Reap(err: Option<int>, ghost before: seq<Step>) returns (ghost after: seq<Step>)
      requires Run(before).Some? && Mirrors(Run(before).value)
      requires Run(before).value.child.Dead? && Run(before).value.reaper == AwaitChild
      modifies this
      ensures Run(after).Some? && Mirrors(Run(after).value)
      ensures var s := Run(before).value;
              Run(after).value == s.(fields := s.fields.(exitErr := err, exited := true), reaper := Closed)
    {
      RunOneMore(before, ReapErr(err));
      exitErr := err;
      RunOneMore(before + [ReapErr(err)], ReapClose);
      exited := true;
      after := before + [ReapErr(err)] + [ReapClose];
    }

    /**
     Stop, up to the point where it returns or waits for the channel; `waits` tells which. It waits exactly when
     the cancel function was still held.
     */
    method Stop(ghost before: seq<Step>) returns (waits: bool, ghost after: seq<Step>)
      requires Run(before).Some? && Mirrors(Run(before).value)
      modifies this
      ensures waits == old(cancel)
      ensures Run(after) == Some(Stopped(Run(before).value)) && Mirrors(Run(after).value)
    {
      StopInMachine(before);
      after := before + StopSteps(|Run(before).value.stoppers|);
      stopping := true;
      ready := false;
      waits := cancel;
      cancel := false;
      if waits {
        cancelled := true;
      }
    }
  }

  // ---- The invariant ----

  /** This Stop call took the cancel function. */
  predicate Owner(p: Stopper) {
    p == Took(true) || p == Cancelled || p == Returned(true)
  }

  /** This Stop call is past its locked section. */
  predicate PastLock(p: Stopper) {
    p.Took? || p == Cancelled || p.Returned?
  }

  /** What the flags say of one another; a failed startup and a Stop call are the only causes of a cancellation. */
  predicate FlagsInv(s: State) {
    && (s.fields.exited <==> s.reaper == Closed)
    && (s.reaper != AwaitChild ==> s.child.Dead?)
    && (s.watcher == Starting ==> !s.fields.ready)
    && (s.watcher == Checking || s.watcher.Checked? ==> s.fields.exited)
    && (s.fields.stopping <==> s.stoppers != [])
    && (s.cancelled && s.watcher != StartFailed ==> s.fields.stopping)
    && (s.child == Dead(true) ==> s.cancelled)
    && (s.watcher == Checked(false) ==> s.child == Dead(false))
  }

  predicate StopperOk(s: State, p: Stopper) {
    && (PastLock(p) ==> !s.fields.cancel)
    && (p == Cancelled || p == Returned(true) ==> s.cancelled)
    && (p == Returned(true) ==> s.fields.exited)
  }

  predicate OneOwner(stoppers: seq<Stopper>) {
    forall i, j | 0 <= i < j < |stoppers| :: !(Owner(stoppers[i]) && Owner(stoppers[j]))
  }

  predicate SomeOwner(stoppers: seq<Stopper>) {
    exists i | 0 <= i < |stoppers| :: Owner(stoppers[i])
  }

  /** The cancel function is held or exactly one Stop call has taken it. */
  predicate Inv(s: State) {
    && FlagsInv(s)
    && (forall i | 0 <= i < |s.stoppers| :: StopperOk(s, s.stoppers[i]))
    && OneOwner(s.stoppers)
    && (s.fields.cancel || SomeOwner(s.stoppers))
  }

  lemma StepKeepsFlags(s: State, step: Step)
    requires Inv(s) && Enabled(s, step)
    ensures FlagsInv(Apply(s, step))
  {
    assert step.StopCancels? ==> StopperOk(s, s.stoppers[step.i]);
  }

  lemma StepKeepsStoppers(s: State, step: Step, i: nat)
    requires Inv(s) && Enabled(s, step) && i < |Apply(s, step).stoppers|
    ensures StopperOk(Apply(s, step), Apply(s, step).stoppers[i])
  {
    assert i < |s.stoppers| ==> StopperOk(s, s.stoppers[i]);
  }

  lemma StepKeepsOneOwner(s: State, step: Step, i: nat, j: nat)
    requires Inv(s) && Enabled(s, step) && i < j < |Apply(s, step).stoppers|
    ensures !(Owner(Apply(s, step).stoppers[i]) && Owner(Apply(s, step).stoppers[j]))
  {
    assert StopperOk(s, s.stoppers[i]);
    assert j < |s.stoppers| ==> StopperOk(s, s.stoppers[j]) && !(Owner(s.stoppers[i]) && Owner(s.stoppers[j]));
  }

  /** A Stop call that owns the function keeps it, and one that finds it held becomes the owner. */
  lemma StepKeepsSomeOwner(s: State, step: Step)
    requires Inv(s) && Enabled(s, step)
    ensures Apply(s, step).fields.cancel || SomeOwner(Apply(s, step).stoppers)
  {
    var s' := Apply(s, step);
    if SomeOwner(s.stoppers) {
      var i :| 0 <= i < |s.stoppers| && Owner(s.stoppers[i]);
      assert Owner(s'.stoppers[i]);
    } else if step.StopTakes? {
      assert Owner(s'.stoppers[step.i]);
    }
  }

  lemma StepKeepsInv(s: State, step: Step)
    requires Inv(s) && Enabled(s, step)
    ensures Inv(Apply(s, step))
  {
    var s' := Apply(s, step);
    StepKeepsFlags(s, step);
    StepKeepsSomeOwner(s, step);
    forall i | 0 <= i < |s'.stoppers| ensures StopperOk(s', s'.stoppers[i]) {
      StepKeepsStoppers(s, step, i);
    }
    forall i, j | 0 <= i < j < |s'.stoppers| ensures !(Owner(s'.stoppers[i]) && Owner(s'.stoppers[j])) {
      StepKeepsOneOwner(s, step, i, j);
    }
  }

  lemma {:induction false} RunKeepsInv(steps: seq<Step>)
    requires Run(steps).Some?
    ensures Inv(Run(steps).value)
  {
    if steps != [] {
      var n := |steps| - 1;
      RunKeepsInv(steps[..n]);
      StepKeepsInv(Run(steps[..n]).value, steps[n]);
    }
  }

  // ---- Stop waits ----

  /**
   When a Stop call has returned, the exit channel is closed or another call, which took the cancel function,
   has not returned yet.
   */
  lemma StopWaitsForExit(steps: seq<Step>, i: nat)
    requires Run(steps).Some? && i < |Run(steps).value.stoppers| && Run(steps).value.stoppers[i].Returned?
    ensures var s := Run(steps).value;
            || (s.fields.exited && s.child.Dead?)
            || exists j | 0 <= j < |s.stoppers| :: j != i && Owner(s.stoppers[j]) && !s.stoppers[j].Returned?
  {
    RunKeepsInv(steps);
    var s := Run(steps).value;
    assert StopperOk(s, s.stoppers[i]);
    var j :| 0 <= j < |s.stoppers| && Owner(s.stoppers[j]);
    assert StopperOk(s, s.stoppers[j]);
  }

  /** When all Stop calls have returned, and there was one, the child is dead and the channel closed. */
  lemma AllReturnedMeansExited(steps: seq<Step>)
    requires Run(steps).Some? && Run(steps).value.stoppers != []
    requires forall i | 0 <= i < |Run(steps).value.stoppers| :: Run(steps).value.stoppers[i].Returned?
    ensures Run(steps).value.fields.exited && Run(steps).value.child.Dead?
  {
    StopWaitsForExit(steps, 0);
  }

  /** So the one call that the controller makes waits. */
  lemma SingleStopWaits(steps: seq<Step>)
    requires Run(steps).Some? && |Run(steps).value.stoppers| == 1 && Run(steps).value.stoppers[0].Returned?
    ensures Run(steps).value.stoppers == [Returned(true)] && Run(steps).value.fields.exited
  {
    RunKeepsInv(steps);
    var s := Run(steps).value;
    assert StopperOk(s, s.stoppers[0]);
    AllReturnedMeansExited(steps);
  }

  /**
   The other case does happen, exactly while the cancel function is gone and the channel open: from every such
   state one more Stop call can return at once, with the child as it was.
   */
  lemma LateStopReturnsAtOnce(steps: seq<Step>)
    requires Run(steps).Some?
    ensures var s := Run(steps).value; var t := Run(steps + StopSteps(|s.stoppers|));
            && t.Some? && t.value.child == s.child && t.value.fields.exited == s.fields.exited
            && (t.value.stoppers == s.stoppers + [Returned(false)] <==> !s.fields.cancel)
            && (!s.fields.cancel <==> SomeOwner(s.stoppers))
  {
    RunKeepsInv(steps);
    StopInMachine(steps);
    var s := Run(steps).value;
    if i :| 0 <= i < |s.stoppers| && Owner(s.stoppers[i]) {
      assert StopperOk(s, s.stoppers[i]);
    }
    var last := if s.fields.cancel then Cancelled else Returned(false);
    assert (s.stoppers + [last])[|s.stoppers|] == last
           && (s.stoppers + [Returned(false)])[|s.stoppers|] == Returned(false);
  }

  // ---- Stop is permanent, once startup is over ----

  /** Startup is over and the i-th Stop call has cleared the ready flag. */
  predicate Quiet(s: State, i: nat) {
    i < |s.stoppers| && s.stoppers[i] != Flagged && s.watcher != Starting
  }

  lemma StepKeepsQuiet(s: State, step: Step, i: nat)
    requires Enabled(s, step)
    ensures i < |s.stoppers| ==> i < |Apply(s, step).stoppers|
    ensures Quiet(s, i) ==> Quiet(Apply(s, step), i)
    ensures Quiet(s, i) && !s.fields.ready ==> !Apply(s, step).fields.ready
  {
  }

  /**
   Stopping is permanent. Readiness that is off after a Stop call's second access stays off if startup was over;
   `ReadyAfterStop` shows that it can come back when it was not.
   */
  lemma {:induction false} StopIsPermanent(steps: seq<Step>, n: nat, i: nat)
    requires Run(steps).Some? && n <= |steps|
    ensures Run(steps[..n]).Some?
    ensures var s, t := Run(steps[..n]).value, Run(steps).value;
            && (i < |s.stoppers| ==> i < |t.stoppers| && t.fields.stopping)
            && (Quiet(s, i) && !s.fields.ready ==> Quiet(t, i) && !t.fields.ready)
  {
    RunKeepsInv(steps);
    if n == |steps| {
      assert steps[..n] == steps;
    } else {
      var m := |steps| - 1;
      assert steps[..m][..n] == steps[..n];
      StopIsPermanent(steps[..m], n, i);
      StepKeepsQuiet(Run(steps[..m]).value, steps[m], i);
    }
  }

  /** Once startup is over: a Stop call that is past its second access finds readiness off. */
  predicate UnreadyAfterStop(s: State, i: nat) {
    s.watcher != Starting && (i < |s.stoppers| && s.stoppers[i] != Flagged ==> !s.fields.ready)
  }

  lemma StepKeepsUnready(s: State, step: Step, i: nat)
    requires Enabled(s, step) && UnreadyAfterStop(s, i)
    ensures UnreadyAfterStop(Apply(s, step), i)
  {
  }

  /** So it is for every Stop call that begins when startup is over. */
  lemma {:induction false} StopAfterStartIsUnready(steps: seq<Step>, n: nat, i: nat)
    requires Run(steps).Some? && n <= |steps| && Run(steps[..n]).Some?
    requires Run(steps[..n]).value.watcher != Starting && |Run(steps[..n]).value.stoppers| <= i
    ensures UnreadyAfterStop(Run(steps).value, i)
  {
    if n == |steps| {
      assert steps[..n] == steps;
    } else {
      var m := |steps| - 1;
      assert steps[..m][..n] == steps[..n];
      StopAfterStartIsUnready(steps[..m], n, i);
      StepKeepsUnready(Run(steps[..m]).value, steps[m], i);
    }
  }

  /** Readiness that a Stop call has turned off can come back exactly when the startup loop is still running. */
  lemma ReadinessReturnsIff(steps: seq<Step>, i: nat)
    requires Run(steps).Some?
    requires var s := Run(steps).value; i < |s.stoppers| && s.stoppers[i] != Flagged && !s.fields.ready
    ensures (exists more :: Run(steps + more).Some? && Run(steps + more).value.fields.ready) <==>
            Run(steps).value.watcher == Starting
  {
    if Run(steps).value.watcher == Starting {
      RunOneMore(steps, ProbeSucceeds);
      assert Run(steps + [ProbeSucceeds]).value.fields.ready;
    }
    if more :| Run(steps + more).Some? && Run(steps + more).value.fields.ready {
      assert (steps + more)[..|steps|] == steps;
      StopIsPermanent(steps + more, |steps|, i);
    }
  }

  /**
   The startup loop does not look at the stopping flag: a Stop call during startup can return, with the child
   dead, and the manager still become ready afterwards.
   */
  lemma ReadyAfterStop() returns (steps: seq<Step>)
    ensures Run(steps).Some?
    ensures var s := Run(steps).value; s.stoppers == [Returned(true)] && s.child == Dead(true) && s.fields.ready
  {
    StoppedDuringStartup();
    steps := STOPPED_EARLY + [ProbeSucceeds];
    RunOneMore(STOPPED_EARLY, ProbeSucceeds);
  }

  const STOPPED_EARLY: seq<Step> :=
    [] + StopSteps(0) + [ChildKilled] + [ReapErr(None)] + [ReapClose] + [StopReturns(0)]

  lemma StoppedDuringStartup()
    ensures Run(STOPPED_EARLY).Some?
    ensures var s := Run(STOPPED_EARLY).value;
            s.watcher == Starting && s.stoppers == [Returned(true)] && s.child == Dead(true) && s.fields.exited
  {
    StopInMachine([]);
    var none: seq<Step> := [];
    var s0 := none + StopSteps(0);
    assert INITIAL.stoppers + [Cancelled] == [Cancelled];
    RunOneMore(s0, ChildKilled);
    RunOneMore(s0 + [ChildKilled], ReapErr(None));
    RunOneMore(s0 + [ChildKilled] + [ReapErr(None)], ReapClose);
    RunOneMore(s0 + [ChildKilled] + [ReapErr(None)] + [ReapClose], StopReturns(0));
  }

  // ---- The failure path ----

  /** The watcher ends the whole program with a failure: startup failed, or the child was gone and no stop seen. */
  predicate Fails(s: State) {
    s.watcher == StartFailed || s.watcher == Checked(false)
  }

  /**
   An exit that Stop causes never reaches the failure path once startup has succeeded: the watcher then takes
   it only for a child that ended by itself, and never when a Stop call has begun before it looks.
   */
  lemma KilledChildIsNoFailure(steps: seq<Step>)
    requires Run(steps).Some?
    ensures var s := Run(steps).value;
            && (s.child == Dead(true) && Fails(s) ==> s.watcher == StartFailed)
            && (s.watcher == Checking ==> (Fails(Apply(s, WatcherChecks)) <==> s.stoppers == []))
  {
    RunKeepsInv(steps);
  }

  /** Startup has succeeded and the child was killed; both are permanent. */
  predicate KilledAfterStart(s: State) {
    s.child == Dead(true) && s.watcher != Starting && s.watcher != StartFailed
  }

  lemma {:induction false} KilledAfterStartIsPermanent(steps: seq<Step>, more: seq<Step>)
    requires Run(steps).Some? && KilledAfterStart(Run(steps).value) && Run(steps + more).Some?
    ensures KilledAfterStart(Run(steps + more).value)
    decreases |more|
  {
    if more == [] {
      assert steps + more == steps;
    } else {
      assert (steps + more)[..|steps + more| - 1] == steps + more[..|more| - 1];
      KilledAfterStartIsPermanent(steps, more[..|more| - 1]);
    }
  }

  /** A killed child can lead to the failure path exactly when startup is still running or has failed. */
  lemma KilledChildFailsIff(steps: seq<Step>)
    requires Run(steps).Some? && Run(steps).value.child == Dead(true)
    ensures (exists more :: Run(steps + more).Some? && Fails(Run(steps + more).value)) <==>
            !KilledAfterStart(Run(steps).value)
  {
    if Run(steps).value.watcher == Starting {
      RunOneMore(steps, StartTimesOut);
      assert Fails(Run(steps + [StartTimesOut]).value);
    } else if Run(steps).value.watcher == StartFailed {
      assert steps + [] == steps;
    } else if more :| Run(steps + more).Some? && Fails(Run(steps + more).value) {
      KilledAfterStartIsPermanent(steps, more);
      KilledChildIsNoFailure(steps + more);
    }
  }

  /** During startup it does: the loop sees the exit that Stop caused and reports it as a failure. */
  lemma StopDuringStartupFails() returns (steps: seq<Step>)
    ensures Run(steps).Some?
    ensures var s := Run(steps).value; s.stoppers == [Returned(true)] && s.child == Dead(true) && Fails(s)
  {
    StoppedDuringStartup();
    steps := STOPPED_EARLY + [StartSeesExit];
    RunOneMore(STOPPED_EARLY, StartSeesExit);
  }

  // ---- Stop comes to an end ----

  function StopWeight(p: Stopper): nat {
    match p
    case Flagged => 4
    case Unready => 3
    case Took(_) => 2
    case Cancelled => 1
    case Returned(_) => 0
  }

  function StopWork(stoppers: seq<Stopper>): nat {
    if stoppers == [] then 0 else StopWork(stoppers[..|stoppers| - 1]) + StopWeight(stoppers[|stoppers| - 1])
  }

  /** What is still to be done by the Stop calls, the child, its reaper and the watcher. */
  function Remaining(s: State): nat {
    StopWork(s.stoppers)
    + (if s.child.Alive? then 1 else 0)
    + (match s.reaper case AwaitChild => 2 case ErrRecorded => 1 case Closed => 0)
    + (match s.watcher
       case Starting => 3 case AwaitExit => 2 case Checking => 1 case StartFailed => 0 case Checked(_) => 0)
  }

  lemma {:induction false} StopWorkAfterUpdate(stoppers: seq<Stopper>, i: nat, p: Stopper)
    requires i < |stoppers|
    ensures StopWork(stoppers[i := p]) == StopWork(stoppers) - StopWeight(stoppers[i]) + StopWeight(p)
  {
    var n := |stoppers| - 1;
    if i == n {
      assert stoppers[i := p][..n] == stoppers[..n];
    } else {
      StopWorkAfterUpdate(stoppers[..n], i, p);
      assert stoppers[i := p][..n] == stoppers[..n][i := p];
    }
  }

  /** Every step but a new Stop call lowers the work that remains. */
  lemma StepLowersRemaining(s: State, step: Step)
    requires Enabled(s, step) && !step.BeginStop?
    ensures Remaining(Apply(s, step)) < Remaining(s)
  {
    match step
    case StopUnready(i) => StopWorkAfterUpdate(s.stoppers, i, Unready);
    case StopTakes(i) => StopWorkAfterUpdate(s.stoppers, i, Took(s.fields.cancel));
    case StopCancels(i) => StopWorkAfterUpdate(s.stoppers, i, if s.stoppers[i].had then Cancelled else Returned(false));
    case StopReturns(i) => StopWorkAfterUpdate(s.stoppers, i, Returned(true));
    case _ =>
  }

  /** Without new Stop calls the further steps of a run are bounded by the work that remains. */
  lemma {:induction false} FurtherStepsAreBounded(steps: seq<Step>, more: seq<Step>)
    requires Run(steps + more).Some? && BeginStop !in more
    ensures Run(steps).Some? && |more| <= Remaining(Run(steps).value) - Remaining(Run(steps + more).value)
    decreases |more|
  {
    if more == [] {
      assert steps + more == steps;
    } else {
      var n := |more| - 1;
      var all := steps + more;
      assert all[..|all| - 1] == steps + more[..n] && all[|all| - 1] == more[n] && more[n] in more;
      assert BeginStop !in more[..n];
      FurtherStepsAreBounded(steps, more[..n]);
      StepLowersRemaining(Run(steps + more[..n]).value, more[n]);
    }
  }

  /**
   Stop never hangs: while a Stop call has not returned, some step of the stoppers, of the killed child or
   of its reaper is enabled, and no exit of the child's own is needed. As every step lowers the work that
   remains, a run without new Stop calls can only come to rest with all of them returned.
   */
  lemma StopNeverHangs(steps: seq<Step>, i: nat) returns (step: Step)
    requires Run(steps).Some? && i < |Run(steps).value.stoppers| && !Run(steps).value.stoppers[i].Returned?
    ensures var s := Run(steps).value;
            && Enabled(s, step) && Remaining(Apply(s, step)) < Remaining(s)
            && (step.ChildKilled? || step.ReapErr? || step.ReapClose?
                || step.StopUnready? || step.StopTakes? || step.StopCancels? || step.StopReturns?)
  {
    RunKeepsInv(steps);
    var s := Run(steps).value;
    assert StopperOk(s, s.stoppers[i]);
    step := match s.stoppers[i]
      case Flagged => StopUnready(i)
      case Unready => StopTakes(i)
      case Took(_) => StopCancels(i)
      case _ =>
        if s.child.Alive? then ChildKilled
        else if s.reaper == AwaitChild then ReapErr(None)
        else if s.reaper == ErrRecorded then ReapClose
        else StopReturns(i);
    StepLowersRemaining(s, step);
  }
}
