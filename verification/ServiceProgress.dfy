/** No request is stuck: whoever waits, waits for a leader that can move, and the remaining work is bounded. */
module ServiceProgress {
  import opened Infra
  import opened Service
  import opened ServiceInvariant
  import L = DedupLedger

  /** The most steps a caller can still take. */
  function Weight(p: Phase): nat {
    match p
    case Entering => 5
    case Getting(_) => 4
    case Posting(_, _) => 3
    case Returning(_, _) => 2
    case Querying => 1
    case Waiting(_) => 1
    case Replied(_, _, _) => 0
  }

  function Work(callers: seq<Caller>): nat {
    if callers == [] then 0 else Work(callers[..|callers| - 1]) + Weight(callers[|callers| - 1].phase)
  }

  lemma {:induction false} WorkAfterUpdate(callers: seq<Caller>, c: nat, x: Caller)
    requires c < |callers|
    ensures Work(callers[c := x]) == Work(callers) - Weight(callers[c].phase) + Weight(x.phase)
  {
    var n := |callers| - 1;
    if c == n {
      assert callers[c := x][..n] == callers[..n];
    } else {
      WorkAfterUpdate(callers[..n], c, x);
      assert callers[c := x][..n] == callers[..n][c := x];
    }
  }

  lemma {:induction false} SomeoneHasWork(callers: seq<Caller>) returns (c: nat)
    requires Work(callers) > 0
    ensures c < |callers| && !callers[c].phase.Replied?
  {
    var n := |callers| - 1;
    if !callers[n].phase.Replied? {
      c := n;
    } else {
      c := SomeoneHasWork(callers[..n]);
    }
  }

  predicate Progresses(step: Step) {
    !step.Arrive? && !step.Elapse?
  }

  /** Every step of a caller uses up work. */
  lemma StepUsesWork(cfg: Config, s: State, step: Step)
    requires Enabled(s, step) && Progresses(step)
    ensures Work(Apply(cfg, s, step).callers) < Work(s.callers)
  {
    WorkAfterUpdate(s.callers, step.c, s.callers[step.c].(phase := NextPhase(s, step)));
  }

  /** Some step of a leader or a free caller is enabled, without a cancellation, for as long as any request is open. */
  lemma NextStepExists(cfg: Config, s: State) returns (step: Step)
    requires cfg.window > 0 && Inv(cfg, s) && Work(s.callers) > 0
    ensures Enabled(s, step) && Progresses(step) && !step.Cancel?
  {
    var c := SomeoneHasWork(s.callers);
    match s.callers[c].phase
    case Waiting(id) => step := WaiterStep(cfg, s, c, id);
    case Querying => step := FreeStep(cfg, s, c);
    case Entering => step := FreeStep(cfg, s, c);
    case Getting(id) => step := LeaderStep(cfg, s, c, id);
    case Posting(id, _) => step := LeaderStep(cfg, s, c, id);
    case Returning(id, _) => step := LeaderStep(cfg, s, c, id);
  }

  /** A query and a caller at the store's door wait for nobody. */
  lemma FreeStep(cfg: Config, s: State, c: nat) returns (step: Step)
    requires Inv(cfg, s) && c < |s.callers| && (s.callers[c].phase.Querying? || s.callers[c].phase.Entering?)
    ensures Enabled(s, step) && Progresses(step) && !step.Cancel?
  {
    assert CallerInv(s, c);
    step := if s.callers[c].phase.Querying? then Query(c, TransportError(false, false)) else EnterStore(c);
  }

  /** A waiter is woken, or its leader can move. */
  lemma WaiterStep(cfg: Config, s: State, c: nat, id: nat) returns (step: Step)
    requires cfg.window > 0 && Inv(cfg, s) && c < |s.callers| && s.callers[c].phase == Waiting(id)
    ensures Enabled(s, step) && Progresses(step) && !step.Cancel?
  {
    assert CallerInv(s, c) && RunInv(s, id);
    if s.ledger.info[id].Finished? {
      step := Wake(c);
    } else {
      step := LeaderStep(cfg, s, s.ledger.info[id].leader, id);
    }
  }

  lemma ClosureStepsAreEnabled(s: State, c: nat, answer: HttpReply)
    requires L.Shape(s.ledger) && c < |s.callers| && s.callers[c].prepared.Proceed?
    ensures s.callers[c].phase.Getting? ==> Enabled(s, GetState(c, answer))
    ensures s.callers[c].phase.Posting? ==> Enabled(s, Post(c, answer))
  {
  }

  lemma FinishIsEnabled(s: State, c: nat, id: nat)
    requires L.Shape(s.ledger) && c < |s.callers| && s.callers[c].prepared.Proceed?
    requires s.callers[c].phase.Returning? && s.callers[c].phase.id == id
    requires id < |s.ledger.info| && s.ledger.info[id].Running?
    ensures Enabled(s, FinishRun(c))
  {
  }

  /** A leader at work waits for nobody. */
  lemma LeaderStep(cfg: Config, s: State, c: nat, id: nat) returns (step: Step)
    requires cfg.window > 0 && Inv(cfg, s) && c < |s.callers| && LeadPhase(s.callers[c].phase, id)
    ensures Enabled(s, step) && Progresses(step) && !step.Cancel?
  {
    assert CallerInv(s, c);
    var answer := TransportError(false, false);
    ClosureStepsAreEnabled(s, c, answer);
    if s.callers[c].phase.Getting? {
      step := GetState(c, answer);
    } else if s.callers[c].phase.Posting? {
      step := Post(c, answer);
    } else {
      FinishIsEnabled(s, c, id);
      step := FinishRun(c);
    }
  }

  function CallerSteps(steps: seq<Step>): nat {
    if steps == [] then 0
    else CallerSteps(steps[..|steps| - 1]) + (if Progresses(steps[|steps| - 1]) then 1 else 0)
  }

  /** Without new arrivals the callers' further steps are bounded by the work left. */
  lemma {:induction false} FurtherStepsAreBounded(cfg: Config, steps: seq<Step>, more: seq<Step>)
    requires Run(cfg, steps + more).Some?
    requires forall step | step in more :: !step.Arrive?
    ensures Run(cfg, steps).Some?
    ensures CallerSteps(more) + Work(Run(cfg, steps + more).value.callers) <= Work(Run(cfg, steps).value.callers)
  {
    var n := |more| - 1;
    if more == [] {
      assert steps + more == steps;
    } else {
      assert (steps + more)[..|steps + more| - 1] == steps + more[..n];
      FurtherStepsAreBounded(cfg, steps, more[..n]);
      var before := Run(cfg, steps + more[..n]).value;
      assert (steps + more)[|steps + more| - 1] == more[n];
      if Progresses(more[n]) {
        StepUsesWork(cfg, before, more[n]);
      }
    }
  }

  /**
   No stuck state: in every reachable state with an open request some caller can take a step that needs
   neither a new arrival, nor time, nor a cancellation; every such step lowers the bounded work left;
   and once no work is left every caller has its reply.
   */
  lemma NoRequestIsStuck(cfg: Config, steps: seq<Step>)
    requires cfg.window > 0 && Run(cfg, steps).Some?
    ensures var s := Run(cfg, steps).value;
            && (Work(s.callers) > 0 ==>
                  exists step :: Enabled(s, step) && Progresses(step) && !step.Cancel?
                                 && Work(Apply(cfg, s, step).callers) < Work(s.callers))
            && (Work(s.callers) == 0 ==> forall c | 0 <= c < |s.callers| :: s.callers[c].phase.Replied?)
  {
    RunKeepsInv(cfg, steps);
    var s := Run(cfg, steps).value;
    if Work(s.callers) > 0 {
      var step := NextStepExists(cfg, s);
      StepUsesWork(cfg, s, step);
    } else {
      NoWorkLeft(s.callers);
    }
  }

  lemma {:induction false} NoWorkLeft(callers: seq<Caller>)
    requires Work(callers) == 0
    ensures forall c | 0 <= c < |callers| :: callers[c].phase.Replied?
  {
    if callers != [] {
      NoWorkLeft(callers[..|callers| - 1]);
    }
  }
}
