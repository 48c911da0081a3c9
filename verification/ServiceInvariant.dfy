/** What every step of the service machine keeps. */
module ServiceInvariant {
  import opened Common
  import opened Tools
  import opened Validate
  import opened Infra
  import opened DedupStore
  import opened Service
  import L = DedupLedger

  ghost predicate NoEffects(log: seq<Effect>, c: nat) {
    forall p | 0 <= p < |log| :: log[p].caller != c
  }

  /** At position p caller c learned that its VM is in the state its action requires. */
  ghost predicate GotRequiredState(log: seq<Effect>, p: int, c: nat, call: ActionCall) {
    && 0 <= p < |log|
    && log[p].Got? && log[p].caller == c && log[p].vmid == call.vmid
    && log[p].answer.Ok? && log[p].answer.value.vmid == call.vmid
    && log[p].answer.value.status == (if call.action == Start then "stopped" else "running")
  }

  /** Caller c did nothing upstream strictly between positions p and q. */
  ghost predicate QuietBetween(log: seq<Effect>, c: nat, p: int, q: int) {
    forall r | p < r < q && 0 <= r < |log| :: log[r].caller != c
  }

  /** Just before position q, caller c's latest effect was a GET that found the required state. */
  ghost predicate Grounded(log: seq<Effect>, q: int, c: nat, call: ActionCall) {
    exists p :: p < q && GotRequiredState(log, p, c, call) && QuietBetween(log, c, p, q)
  }

  /** Caller c's last effect is such a GET, and it has posted nothing. */
  ghost predicate ReadyToPost(log: seq<Effect>, c: nat, call: ActionCall) {
    && Grounded(log, |log|, c, call)
    && forall q | 0 <= q < |log| && log[q].caller == c :: log[q].Got? && log[q].answer.Ok?
  }

  /** The upstream error an effect ended with. */
  function ErrorOf(e: Effect): Option<InfraError> {
    match e
    case Got(_, _, answer, _) => if answer.Err? then Some(answer.error) else None
    case Posted(_, _, _, outcome, _) => if outcome.Err? then Some(outcome.error) else None
  }

  ghost predicate FailedWith(log: seq<Effect>, c: nat, e: InfraError) {
    exists q :: 0 <= q < |log| && log[q].caller == c && ErrorOf(log[q]) == Some(e)
  }

  /**
   A return agrees with the log: it reports the outcome of the caller's POST and the failure of its GET,
   claims execution only after an accepted POST, and fails only with an error the caller received.
   */
  ghost predicate ReturnAgrees(log: seq<Effect>, c: nat, call: ActionCall, ret: Return) {
    && (forall q | 0 <= q < |log| && log[q].caller == c && log[q].Posted? :: ret == PostReturn(call, log[q].outcome))
    && (forall q | 0 <= q < |log| && log[q].caller == c && log[q].Got? && log[q].answer.Err? ::
          ret == Failed(log[q].answer.error, DoNotCache))
    && (ret.value.ExecutionValue? && ret.value.x.executed ==>
          exists q :: 0 <= q < |log| && log[q].caller == c && log[q].Posted? && log[q].outcome.Ok?)
    && (ret.value.ErrorValue? ==> FailedWith(log, c, ret.value.e))
  }

  /** The shapes a closure returns: an upstream failure, a refusal for the VM's state, or an acceptance. */
  ghost predicate ReturnFits(call: ActionCall, ret: Return) {
    match ret.value
    case Nil => false
    case ErrorValue(e) => ret == Failed(e, ret.policy)
    case ExecutionValue(x) =>
      && ret.policy == Cache && ret.err.None?
      && if x.executed then x.message == Submitted(call.action, call.vmid) && x.vm.None? && x.upstreamStatus == 202
         else && x.message.AlreadyIn? && x.message.status != (if call.action == Start then "stopped" else "running")
              && x.message.action == call.action && x.message.vmid == call.vmid
              && x.vm.Some? && x.vm.value.status == x.message.status && x.vm.value.vmid == call.vmid
  }

  ghost predicate IsMutation(c: Caller) {
    c.prepared.Proceed? && c.prepared.call.action != Get
  }

  /** Caller c leads the unfinished run id. */
  ghost predicate Leads(s: State, c: nat, id: nat)
    requires c < |s.callers| && s.callers[c].prepared.Proceed?
  {
    id < |s.ledger.info| && s.ledger.info[id] == L.Running(Key(s.callers[c].prepared.call), c, s.ledger.info[id].start)
  }

  ghost predicate SharesKey(s: State, c: nat, id: nat)
    requires c < |s.callers| && s.callers[c].prepared.Proceed?
  {
    id < |s.ledger.info| && s.ledger.info[id].key == Key(s.callers[c].prepared.call)
  }

  ghost predicate RepliedInv(s: State, c: nat)
    requires c < |s.callers| && s.callers[c].phase.Replied?
  {
    var me := s.callers[c];
    match me.phase.origin
    case Direct =>
      && me.phase.result.None? && !me.phase.reply.CastPanic?
      && (me.phase.reply.Completed? ==>
            && me.prepared.Proceed? && me.phase.reply.call == me.prepared.call && me.prepared.call.action == Get
            && !me.phase.reply.executed && !me.phase.reply.deduplicated
            && me.phase.reply.message.Report? && me.phase.reply.message.vmid == me.prepared.call.vmid)
      && forall q | 0 <= q < |s.log| && s.log[q].caller == c :: !s.log[q].Posted?
    case LeaderOf(id) =>
      && IsMutation(me) && SharesKey(s, c, id)
      && s.ledger.info[id].Finished? && s.ledger.info[id].leader == c
      && me.phase.result == Some(DoResult(s.ledger.info[id].ret.value, s.ledger.info[id].ret.err, false))
      && me.phase.reply == Respond(me.prepared.call, me.prepared.warnings, me.phase.result.value)
    case FollowerOf(id) =>
      && IsMutation(me) && SharesKey(s, c, id) && s.ledger.info[id].leader != c
      && NoEffects(s.log, c)
      && me.phase.result.Some?
      && (|| me.phase.result.value == DoResult(Nil, Some(ContextDone), true)
          || (s.ledger.info[id].Finished?
              && me.phase.result.value == DoResult(s.ledger.info[id].ret.value, s.ledger.info[id].ret.err, true)))
      && me.phase.reply == Respond(me.prepared.call, me.prepared.warnings, me.phase.result.value)
  }

  ghost predicate CallerInv(s: State, c: nat)
    requires c < |s.callers|
  {
    var me := s.callers[c];
    match me.phase
    case Querying => me.prepared.Proceed? && me.prepared.call.action == Get && NoEffects(s.log, c)
    case Entering => IsMutation(me) && NoEffects(s.log, c)
    case Getting(id) => IsMutation(me) && Leads(s, c, id) && NoEffects(s.log, c)
    case Posting(id, vm) => IsMutation(me) && Leads(s, c, id) && ReadyToPost(s.log, c, me.prepared.call)
    case Returning(id, ret) =>
      && IsMutation(me) && Leads(s, c, id)
      && ReturnAgrees(s.log, c, me.prepared.call, ret) && ReturnFits(me.prepared.call, ret)
    case Waiting(id) => IsMutation(me) && SharesKey(s, c, id) && s.ledger.info[id].leader != c && NoEffects(s.log, c)
    case Replied(_, _, _) => RepliedInv(s, c)
  }

  ghost predicate CallersInv(cfg: Config, s: State) {
    forall c | 0 <= c < |s.callers| ::
      && s.callers[c].prepared == Prepare(cfg, s.callers[c].ready, s.callers[c].request, s.callers[c].selection)
      && CallerInv(s, c)
  }

  ghost predicate LeadPhase(p: Phase, id: nat) {
    (p.Getting? || p.Posting? || p.Returning?) && p.id == id
  }

  /** A run has its leader among the callers: at work while it runs, and answered once it is over. */
  ghost predicate RunInv(s: State, id: nat)
    requires id < |s.ledger.info|
  {
    var i := s.ledger.info[id];
    && i.leader < |s.callers| && IsMutation(s.callers[i.leader])
    && i.key == Key(s.callers[i.leader].prepared.call)
    && (i.Running? ==> LeadPhase(s.callers[i.leader].phase, id))
    && (i.Finished? ==>
          && s.callers[i.leader].phase.Replied? && s.callers[i.leader].phase.origin == LeaderOf(id)
          && ReturnAgrees(s.log, i.leader, s.callers[i.leader].prepared.call, i.ret)
          && ReturnFits(s.callers[i.leader].prepared.call, i.ret))
  }

  ghost predicate RunsInv(s: State) {
    forall id | 0 <= id < |s.ledger.info| :: RunInv(s, id)
  }

  /** A POST is made by the leader of its run, for the caller's own call, after a GET that found the required state. */
  ghost predicate PostInv(s: State, q: int)
    requires 0 <= q < |s.log| && s.log[q].Posted?
  {
    var e := s.log[q];
    && e.caller < |s.callers| && IsMutation(s.callers[e.caller]) && e.call == s.callers[e.caller].prepared.call
    && e.run < |s.ledger.info| && s.ledger.info[e.run].leader == e.caller && s.ledger.info[e.run].key == Key(e.call)
    && s.ledger.info[e.run].start <= e.time <= s.ledger.clock
    && (s.ledger.info[e.run].Finished? ==> e.time <= s.ledger.info[e.run].finish)
    && Grounded(s.log, q, e.caller, e.call)
  }

  ghost predicate LogInv(s: State) {
    && (forall q | 0 <= q < |s.log| :: s.log[q].caller < |s.callers|)
    && (forall q | 0 <= q < |s.log| && s.log[q].Posted? :: PostInv(s, q))
    && (forall p, q | 0 <= p < q < |s.log| && s.log[p].caller == s.log[q].caller :: s.log[p].Got? && s.log[q].Posted?)
  }

  /** An outcome after which the store keeps the result: accepted, or unknown. */
  ghost predicate Sticky(outcome: Result<int, InfraError>) {
    outcome.Ok? || outcome.error.unknown
  }

  /** Of two POSTs with one action and VM the earlier one's run is over, and a window old if its outcome was sticky. */
  ghost predicate PostsSpaced(cfg: Config, s: State, p: int, q: int)
    requires 0 <= p < |s.log| && 0 <= q < |s.log| && s.log[p].Posted? && s.log[q].Posted?
  {
    && s.log[p].run < s.log[q].run
    && (Sticky(s.log[p].outcome) ==> s.log[p].time + cfg.window <= s.log[q].time)
  }

  ghost predicate SpacingInv(cfg: Config, s: State) {
    forall p, q | 0 <= p < q < |s.log| && s.log[p].Posted? && s.log[q].Posted? && s.log[p].call == s.log[q].call ::
      PostsSpaced(cfg, s, p, q)
  }

  ghost predicate Inv(cfg: Config, s: State) {
    && L.Inv(cfg.window, s.ledger)
    && CallersInv(cfg, s) && RunsInv(s) && LogInv(s) && SpacingInv(cfg, s)
  }

  // ---- Growing the log, the callers and the ledger ----

  lemma LedgerStep(cfg: Config, s: State, step: Step)
    requires cfg.window > 0 && L.Inv(cfg.window, s.ledger) && Enabled(s, step)
    ensures L.Inv(cfg.window, NextLedger(cfg, s, step))
    ensures L.Extends(s.ledger, NextLedger(cfg, s, step))
  {
    var ev := EventOf(s, step);
    if ev.Some? {
      L.StepKeepsInv(cfg.window, s.ledger, ev.value);
      L.StepExtends(cfg.window, s.ledger, ev.value);
    }
  }

  lemma ReadyToPostGrows(log: seq<Effect>, more: seq<Effect>, c: nat, call: ActionCall)
    requires ReadyToPost(log, c, call) && NoEffects(more, c)
    ensures ReadyToPost(log + more, c, call)
  {
    var p :| p < |log| && GotRequiredState(log, p, c, call) && QuietBetween(log, c, p, |log|);
    assert GotRequiredState(log + more, p, c, call);
    assert QuietBetween(log + more, c, p, |log + more|) by {
      assert forall r | |log| <= r < |log + more| :: (log + more)[r] == more[r - |log|];
    }
  }

  lemma ReturnAgreesGrows(log: seq<Effect>, more: seq<Effect>, c: nat, call: ActionCall, ret: Return)
    requires ReturnAgrees(log, c, call, ret) && NoEffects(more, c)
    ensures ReturnAgrees(log + more, c, call, ret)
  {
    assert forall q | |log| <= q < |log + more| :: (log + more)[q] == more[q - |log|];
    if q :| 0 <= q < |log| && log[q].caller == c && log[q].Posted? && log[q].outcome.Ok? {
      assert (log + more)[q] == log[q];
    }
    if ret.value.ErrorValue? {
      var q :| 0 <= q < |log| && log[q].caller == c && ErrorOf(log[q]) == Some(ret.value.e);
      assert (log + more)[q] == log[q];
    }
  }

  lemma NoEffectsGrows(log: seq<Effect>, more: seq<Effect>, c: nat)
    requires NoEffects(log, c) && NoEffects(more, c)
    ensures NoEffects(log + more, c)
  {
    assert forall r | |log| <= r < |log + more| :: (log + more)[r] == more[r - |log|];
  }

  /** Only caller m moves from s to s', adding these effects; runs that others lead are as they were. */
  ghost predicate OnlyMoves(s: State, s': State, m: int, more: seq<Effect>) {
    && L.Shape(s.ledger) && L.Shape(s'.ledger) && L.Extends(s.ledger, s'.ledger)
    && |s.callers| <= |s'.callers|
    && s'.log == s.log + more && (forall r | 0 <= r < |more| :: more[r].caller == m)
    && (forall c | 0 <= c < |s.callers| :: s'.callers[c].prepared == s.callers[c].prepared)
    && (forall c | 0 <= c < |s.callers| && c != m :: s'.callers[c] == s.callers[c])
    && (forall id | 0 <= id < |s.ledger.info| && s.ledger.info[id].leader != m ::
        s'.ledger.info[id] == s.ledger.info[id])
  }

  lemma OtherCallerKept(s: State, s': State, m: int, more: seq<Effect>, c: nat)
    requires OnlyMoves(s, s', m, more)
    requires c < |s.callers| && c != m && CallerInv(s, c)
    ensures CallerInv(s', c)
  {
    var me := s.callers[c];
    match me.phase
    case Querying => NoEffectsGrows(s.log, more, c);
    case Entering => NoEffectsGrows(s.log, more, c);
    case Getting(id) => NoEffectsGrows(s.log, more, c);
    case Posting(id, vm) => ReadyToPostGrows(s.log, more, c, me.prepared.call);
    case Returning(id, ret) => ReturnAgreesGrows(s.log, more, c, me.prepared.call, ret);
    case Waiting(id) => NoEffectsGrows(s.log, more, c);
    case Replied(origin, result, reply) =>
      if origin.FollowerOf? {
        NoEffectsGrows(s.log, more, c);
      }
      assert forall r | |s.log| <= r < |s'.log| :: s'.log[r] == more[r - |s.log|];
  }

  lemma OtherRunKept(s: State, s': State, m: int, more: seq<Effect>, id: nat)
    requires OnlyMoves(s, s', m, more)
    requires id < |s.ledger.info| && s.ledger.info[id].leader != m && RunInv(s, id)
    ensures RunInv(s', id)
  {
    var i := s.ledger.info[id];
    if i.Finished? {
      ReturnAgreesGrows(s.log, more, i.leader, s.callers[i.leader].prepared.call, i.ret);
    }
  }

  // ---- One step ----

  /** The caller a step moves; a new caller for an arrival, none for the clock. */
  function Mover(s: State, step: Step): int {
    match step
    case Arrive(_, _, _) => |s.callers|
    case Elapse(_) => -1
    case _ => step.c
  }

  lemma OtherRunsUntouched(cfg: Config, s: State, step: Step, id: nat)
    requires Inv(cfg, s) && Enabled(s, step)
    requires id < |s.ledger.info| && s.ledger.info[id].leader != Mover(s, step)
    ensures id < |NextLedger(cfg, s, step).info| && NextLedger(cfg, s, step).info[id] == s.ledger.info[id]
  {
    var ev := EventOf(s, step);
    if ev.Some? {
      EventTouchesOneRun(cfg.window, s.ledger, ev.value, id);
    }
    if step.FinishRun? {
      assert CallerInv(s, step.c);
    }
  }

  lemma EventTouchesOneRun(window: int, l: L.Ledger, ev: L.Event, id: nat)
    requires L.Enabled(l, ev) && id < |l.info| && (ev.Complete? ==> ev.id != id)
    ensures id < |L.Apply(window, l, ev).info| && L.Apply(window, l, ev).info[id] == l.info[id]
  {
  }

  lemma OtherCallersUntouched(cfg: Config, s: State, step: Step, c: nat)
    requires Enabled(s, step) && c < |s.callers|
    ensures |s.callers| <= |NextCallers(cfg, s, step)|
    ensures NextCallers(cfg, s, step)[c].prepared == s.callers[c].prepared
    ensures c != Mover(s, step) ==> NextCallers(cfg, s, step)[c] == s.callers[c]
  {
  }

  lemma StepMovesOne(cfg: Config, s: State, step: Step)
    requires cfg.window > 0 && Inv(cfg, s) && Enabled(s, step)
    ensures L.Inv(cfg.window, NextLedger(cfg, s, step))
    ensures OnlyMoves(s, Apply(cfg, s, step), Mover(s, step), EffectsOf(s, step))
  {
    LedgerStep(cfg, s, step);
    var s' := Apply(cfg, s, step);
    assert s'.ledger == NextLedger(cfg, s, step) && s'.callers == NextCallers(cfg, s, step)
           && s'.log == s.log + EffectsOf(s, step);
    forall c | 0 <= c < |s.callers|
      ensures s'.callers[c].prepared == s.callers[c].prepared
      ensures c != Mover(s, step) ==> s'.callers[c] == s.callers[c]
    {
      OtherCallersUntouched(cfg, s, step, c);
    }
    forall id | 0 <= id < |s.ledger.info| && s.ledger.info[id].leader != Mover(s, step)
      ensures s'.ledger.info[id] == s.ledger.info[id]
    {
      OtherRunsUntouched(cfg, s, step, id);
    }
  }

  /** A step leaves every other caller, and every run another caller leads, as they were. */
  lemma OthersKept(cfg: Config, s: State, step: Step)
    requires cfg.window > 0 && Inv(cfg, s) && Enabled(s, step)
    ensures var s' := Apply(cfg, s, step);
            && L.Inv(cfg.window, s'.ledger)
            && OnlyMoves(s, s', Mover(s, step), EffectsOf(s, step))
            && (forall c | 0 <= c < |s.callers| && c != Mover(s, step) :: CallerInv(s', c))
            && (forall id | 0 <= id < |s.ledger.info| && s.ledger.info[id].leader != Mover(s, step) :: RunInv(s', id))
  {
    var s' := Apply(cfg, s, step);
    StepMovesOne(cfg, s, step);
    forall c | 0 <= c < |s.callers| && c != Mover(s, step)
      ensures CallerInv(s', c)
    {
      OtherCallerKept(s, s', Mover(s, step), EffectsOf(s, step), c);
    }
    forall id | 0 <= id < |s.ledger.info| && s.ledger.info[id].leader != Mover(s, step)
      ensures RunInv(s', id)
    {
      OtherRunKept(s, s', Mover(s, step), EffectsOf(s, step), id);
    }
  }

  /** The caller that moves, and the runs it leads, satisfy the invariant again. */
  ghost predicate MoverKept(cfg: Config, s: State, step: Step)
    requires Enabled(s, step) && !step.Elapse?
  {
    var s' := Apply(cfg, s, step);
    var m := Mover(s, step);
    && m < |s'.callers| && CallerInv(s', m)
    && forall id | 0 <= id < |s'.ledger.info| && s'.ledger.info[id].leader == m :: RunInv(s', id)
  }

  /** A caller that leads no run, seen from its phase. */
  lemma LeadsNoRun(cfg: Config, s: State, c: nat)
    requires Inv(cfg, s) && c < |s.callers|
    requires var p := s.callers[c].phase; p.Querying? || p.Entering? || p.Waiting?
    ensures forall id | 0 <= id < |s.ledger.info| :: s.ledger.info[id].leader != c
  {
    forall id | 0 <= id < |s.ledger.info|
      ensures s.ledger.info[id].leader != c
    {
      assert RunInv(s, id);
    }
  }

  /** The only run a working leader leads is its own. */
  lemma LeadsOneRun(cfg: Config, s: State, c: nat, id: nat)
    requires Inv(cfg, s) && c < |s.callers| && LeadPhase(s.callers[c].phase, id)
    ensures IsMutation(s.callers[c]) && Leads(s, c, id)
    ensures forall j | 0 <= j < |s.ledger.info| && s.ledger.info[j].leader == c :: j == id
  {
    assert CallerInv(s, c);
    forall j | 0 <= j < |s.ledger.info| && s.ledger.info[j].leader == c
      ensures j == id
    {
      assert RunInv(s, j);
    }
  }

  lemma ArriveKeepsMover(cfg: Config, s: State, step: Step)
    requires cfg.window > 0 && Inv(cfg, s) && Enabled(s, step) && step.Arrive?
    ensures MoverKept(cfg, s, step)
  {
    forall id | 0 <= id < |s.ledger.info|
      ensures s.ledger.info[id].leader != |s.callers|
    {
      assert RunInv(s, id);
    }
  }

  lemma QueryKeepsMover(cfg: Config, s: State, step: Step)
    requires cfg.window > 0 && Inv(cfg, s) && Enabled(s, step) && step.Query?
    ensures MoverKept(cfg, s, step)
  {
    var c := step.c;
    var s' := Apply(cfg, s, step);
    assert CallerInv(s, c);
    LeadsNoRun(cfg, s, c);
    var vmid := s.callers[c].prepared.call.vmid;
    assert s'.log == s.log + [Got(c, vmid, GetVM(vmid, step.answer), s.ledger.clock)];
    QueriedCaller(s, s', c, step.answer);
  }

  lemma QueriedCaller(s: State, s': State, c: nat, answer: HttpReply)
    requires c < |s.callers| && CallerInv(s, c) && s.callers[c].phase.Querying?
    requires |s'.callers| == |s.callers| && s'.ledger == s.ledger
    requires |s'.log| == |s.log| + 1 && s'.log[..|s.log|] == s.log && s'.log[|s.log|].Got?
    requires var call := s.callers[c].prepared.call;
             s'.callers[c] == s.callers[c].(phase :=
               Replied(Direct, None, QueryReply(call, s.callers[c].prepared.warnings, GetVM(call.vmid, answer))))
    ensures CallerInv(s', c)
  {
    assert forall q | 0 <= q < |s.log| :: s'.log[q] == s'.log[..|s.log|][q] == s.log[q];
  }

  lemma EnterKeepsMover(cfg: Config, s: State, step: Step)
    requires cfg.window > 0 && Inv(cfg, s) && Enabled(s, step) && step.EnterStore?
    ensures MoverKept(cfg, s, step)
  {
    assert CallerInv(s, step.c);
    LeadsNoRun(cfg, s, step.c);
    if Joins(s.ledger.store, Key(s.callers[step.c].prepared.call), s.ledger.clock) {
      JoinKeepsMover(cfg, s, step);
    } else {
      LeadKeepsMover(cfg, s, step);
    }
  }

  lemma JoinKeepsMover(cfg: Config, s: State, step: Step)
    requires cfg.window > 0 && Inv(cfg, s) && Enabled(s, step) && step.EnterStore?
    requires IsMutation(s.callers[step.c]) && NoEffects(s.log, step.c)
    requires Joins(s.ledger.store, Key(s.callers[step.c].prepared.call), s.ledger.clock)
    requires forall id | 0 <= id < |s.ledger.info| :: s.ledger.info[id].leader != step.c
    ensures MoverKept(cfg, s, step)
  {
    var c := step.c;
    var s' := Apply(cfg, s, step);
    var id := s.ledger.store.entries[Key(s.callers[c].prepared.call)];
    assert s'.log == s.log && s'.ledger.info == s.ledger.info;
    assert s'.callers[c] == s.callers[c].(phase := Waiting(id));
    assert s.ledger.info[id].key == Key(s.callers[c].prepared.call);
  }

  lemma LeadKeepsMover(cfg: Config, s: State, step: Step)
    requires cfg.window > 0 && Inv(cfg, s) && Enabled(s, step) && step.EnterStore?
    requires IsMutation(s.callers[step.c]) && NoEffects(s.log, step.c)
    requires !Joins(s.ledger.store, Key(s.callers[step.c].prepared.call), s.ledger.clock)
    requires forall id | 0 <= id < |s.ledger.info| :: s.ledger.info[id].leader != step.c
    ensures MoverKept(cfg, s, step)
  {
    var c := step.c;
    var s' := Apply(cfg, s, step);
    assert s'.log == s.log;
    assert s'.ledger.info == s.ledger.info + [L.Running(Key(s.callers[c].prepared.call), c, s.ledger.clock)];
    assert s'.callers[c] == s.callers[c].(phase := Getting(|s.ledger.info|));
    assert RunInv(s', |s.ledger.info|);
  }

  /** A leader that goes on working on its run, with what its next phase needs of the log. */
  lemma WorkingLeader(s: State, s': State, c: nat, id: nat, phase: Phase)
    requires c < |s.callers| && IsMutation(s.callers[c]) && Leads(s, c, id)
    requires forall j | 0 <= j < |s.ledger.info| && s.ledger.info[j].leader == c :: j == id
    requires |s'.callers| == |s.callers| && s'.callers[c] == s.callers[c].(phase := phase)
    requires s'.ledger == s.ledger
    requires LeadPhase(phase, id) && !phase.Getting?
    requires phase.Posting? ==> ReadyToPost(s'.log, c, s.callers[c].prepared.call)
    requires phase.Returning? ==>
               && ReturnAgrees(s'.log, c, s.callers[c].prepared.call, phase.ret)
               && ReturnFits(s.callers[c].prepared.call, phase.ret)
    ensures CallerInv(s', c)
    ensures forall j | 0 <= j < |s'.ledger.info| && s'.ledger.info[j].leader == c :: RunInv(s', j)
  {
  }

  lemma GetKeepsMover(cfg: Config, s: State, step: Step)
    requires cfg.window > 0 && Inv(cfg, s) && Enabled(s, step) && step.GetState?
    ensures MoverKept(cfg, s, step)
  {
    var c := step.c;
    var id, call := s.callers[c].phase.id, s.callers[c].prepared.call;
    assert CallerInv(s, c);
    LeadsOneRun(cfg, s, c, id);
    var s' := Apply(cfg, s, step);
    var e := EffectsOf(s, step)[0];
    GetIsClassified(s.log, e, c, call, step.answer);
    assert s'.ledger == s.ledger && s'.log == s.log + [e];
    WorkingLeader(s, s', c, id, NextPhase(s, step));
  }

  /** What the closure does after the GET: it may post only if the VM is in the required state. */
  lemma GetIsClassified(log: seq<Effect>, e: Effect, c: nat, call: ActionCall, answer: HttpReply)
    requires call.action != Get && NoEffects(log, c)
    requires e.Got? && e.caller == c && e.vmid == call.vmid && e.answer == GetVM(call.vmid, answer)
    ensures CheckGet(call, e.answer).Mutable? ==> ReadyToPost(log + [e], c, call)
    ensures CheckGet(call, e.answer).Settled? ==>
              && ReturnAgrees(log + [e], c, call, CheckGet(call, e.answer).ret)
              && ReturnFits(call, CheckGet(call, e.answer).ret)
  {
    var q := |log|;
    assert (log + [e])[q] == e;
    assert forall r | 0 <= r < q :: (log + [e])[r] == log[r];
    if CheckGet(call, e.answer).Mutable? {
      assert GotRequiredState(log + [e], q, c, call) && QuietBetween(log + [e], c, q, q + 1);
    }
  }

  lemma PostKeepsMover(cfg: Config, s: State, step: Step)
    requires cfg.window > 0 && Inv(cfg, s) && Enabled(s, step) && step.Post?
    ensures MoverKept(cfg, s, step)
  {
    var c := step.c;
    var id, call := s.callers[c].phase.id, s.callers[c].prepared.call;
    assert CallerInv(s, c);
    LeadsOneRun(cfg, s, c, id);
    var s' := Apply(cfg, s, step);
    var e := EffectsOf(s, step)[0];
    PostReturnFits(call, step.answer);
    PostReturnAgrees(s.log, e, c, call);
    assert s'.ledger == s.ledger && s'.log == s.log + [e];
    WorkingLeader(s, s', c, id, NextPhase(s, step));
  }

  lemma PostReturnFits(call: ActionCall, answer: HttpReply)
    requires call.action != Get
    ensures ReturnFits(call, PostReturn(call, Mutate(call.action, answer)))
  {
  }

  lemma PostReturnAgrees(log: seq<Effect>, e: Effect, c: nat, call: ActionCall)
    requires ReadyToPost(log, c, call) && e.Posted? && e.caller == c
    ensures ReturnAgrees(log + [e], c, call, PostReturn(call, e.outcome))
  {
    assert (log + [e])[|log|] == e;
    assert forall q | 0 <= q < |log| :: (log + [e])[q] == log[q];
  }

  lemma FinishKeepsMover(cfg: Config, s: State, step: Step)
    requires cfg.window > 0 && Inv(cfg, s) && Enabled(s, step) && step.FinishRun?
    ensures MoverKept(cfg, s, step)
  {
    var c := step.c;
    var id := s.callers[c].phase.id;
    assert CallerInv(s, c);
    LeadsOneRun(cfg, s, c, id);
    StepMovesOne(cfg, s, step);
    var s' := Apply(cfg, s, step);
    var result := DoResult(s.callers[c].phase.ret.value, s.callers[c].phase.ret.err, false);
    assert s'.log == s.log;
    assert s'.ledger.info[id] == L.Finished(s.ledger.info[id].key, c, s.ledger.info[id].start, s.ledger.clock,
                                            s.callers[c].phase.ret);
    assert s'.callers[c].phase == Replied(LeaderOf(id), Some(result),
                                          Respond(s.callers[c].prepared.call, s.callers[c].prepared.warnings, result));
    FinishedLeader(s, s', c, id);
    assert forall j | 0 <= j < |s'.ledger.info| :: s'.ledger.info[j].leader == s.ledger.info[j].leader;
  }

  lemma FinishedLeader(s: State, s': State, c: nat, id: nat)
    requires c < |s.callers| && CallerInv(s, c) && s.callers[c].phase.Returning? && s.callers[c].phase.id == id
    requires |s'.callers| == |s.callers| && s'.callers[c].prepared == s.callers[c].prepared && s'.log == s.log
    requires id < |s'.ledger.info| && s'.ledger.info[id].Finished? && s'.ledger.info[id].leader == c
    requires s'.ledger.info[id].key == s.ledger.info[id].key && s'.ledger.info[id].ret == s.callers[c].phase.ret
    requires var p := s.callers[c].phase;
             var result := DoResult(p.ret.value, p.ret.err, false);
             s'.callers[c].phase ==
               Replied(LeaderOf(id), Some(result),
                       Respond(s.callers[c].prepared.call, s.callers[c].prepared.warnings, result))
    ensures CallerInv(s', c) && RunInv(s', id)
  {
  }

  lemma FollowerKeepsMover(cfg: Config, s: State, step: Step)
    requires cfg.window > 0 && Inv(cfg, s) && Enabled(s, step) && (step.Wake? || step.Cancel?)
    ensures MoverKept(cfg, s, step)
  {
    assert CallerInv(s, step.c);
    LeadsNoRun(cfg, s, step.c);
    var s' := Apply(cfg, s, step);
    assert s'.log == s.log;
  }

  // ---- The log ----

  /** What the log says about earlier effects stays true when one caller moves. */
  lemma OldLogIsKept(cfg: Config, s: State, s': State, m: int, more: seq<Effect>)
    requires OnlyMoves(s, s', m, more) && LogInv(s) && SpacingInv(cfg, s)
    ensures forall q | 0 <= q < |s.log| :: s'.log[q] == s.log[q] && s'.log[q].caller < |s'.callers|
    ensures forall q | 0 <= q < |s.log| && s'.log[q].Posted? :: PostInv(s', q)
    ensures forall p, q | 0 <= p < q < |s.log| && s'.log[p].Posted? && s'.log[q].Posted?
            && s'.log[p].call == s'.log[q].call ::
              PostsSpaced(cfg, s', p, q)
  {
    assert forall q | 0 <= q < |s.log| :: s'.log[q] == s.log[q];
    forall q | 0 <= q < |s.log| && s'.log[q].Posted?
      ensures PostInv(s', q)
    {
      assert PostInv(s, q);
      GroundedGrows(s.log, more, q, s.log[q].caller, s.log[q].call);
    }
    forall p, q | 0 <= p < q < |s.log| && s'.log[p].Posted? && s'.log[q].Posted? && s'.log[p].call == s'.log[q].call
      ensures PostsSpaced(cfg, s', p, q)
    {
      assert PostsSpaced(cfg, s, p, q);
    }
  }

  lemma SilenceKeepsLog(cfg: Config, s: State, s': State, m: int)
    requires OnlyMoves(s, s', m, []) && LogInv(s) && SpacingInv(cfg, s)
    ensures LogInv(s') && SpacingInv(cfg, s')
  {
    OldLogIsKept(cfg, s, s', m, []);
    assert s'.log == s.log;
  }

  lemma NewGetKeepsLog(cfg: Config, s: State, s': State, c: nat, e: Effect)
    requires OnlyMoves(s, s', c, [e]) && LogInv(s) && SpacingInv(cfg, s)
    requires e.Got? && NoEffects(s.log, c) && c < |s.callers|
    ensures LogInv(s') && SpacingInv(cfg, s')
  {
    OldLogIsKept(cfg, s, s', c, [e]);
    assert s'.log[|s.log|] == [e][0];
  }

  lemma GroundedGrows(log: seq<Effect>, more: seq<Effect>, q: int, c: nat, call: ActionCall)
    requires 0 <= q <= |log| && Grounded(log, q, c, call)
    ensures Grounded(log + more, q, c, call)
  {
    var p :| p < q && GotRequiredState(log, p, c, call) && QuietBetween(log, c, p, q);
    assert GotRequiredState(log + more, p, c, call) && QuietBetween(log + more, c, p, q);
  }

  /** A POST whose run is over: the run ended after it, and was cached if the outcome was sticky. */
  lemma PostOfFinishedRun(cfg: Config, s: State, p: int)
    requires Inv(cfg, s) && 0 <= p < |s.log| && s.log[p].Posted? && s.log[p].run < |s.ledger.info|
    requires s.ledger.info[s.log[p].run].Finished?
    ensures s.log[p].time <= s.ledger.info[s.log[p].run].finish
    ensures Sticky(s.log[p].outcome) ==> s.ledger.info[s.log[p].run].ret.policy == Cache
  {
    assert PostInv(s, p) && RunInv(s, s.log[p].run);
    assert s.ledger.info[s.log[p].run].ret == PostReturn(s.log[p].call, s.log[p].outcome);
  }

  /** A POST about to be made is later than every earlier one of its key, and a window later than the sticky ones. */
  lemma NewPostIsSpaced(cfg: Config, s: State, step: Step, p: int)
    requires cfg.window > 0 && Inv(cfg, s) && Enabled(s, step) && step.Post?
    requires 0 <= p < |s.log| && s.log[p].Posted? && s.log[p].call == s.callers[step.c].prepared.call
    ensures s.log[p].run < s.callers[step.c].phase.id
    ensures Sticky(s.log[p].outcome) ==> s.log[p].time + cfg.window <= s.ledger.clock
  {
    var c := step.c;
    var id, r := s.callers[c].phase.id, s.log[p].run;
    assert CallerInv(s, c) && PostInv(s, p);
    var info := s.ledger.info;
    assert info[id].Running? && info[id].leader == c && info[r].leader != c && info[r].key == info[id].key;
    RunningIsLatest(cfg, s, r, id);
    PostOfFinishedRun(cfg, s, p);
  }

  /** Another run of an unfinished run's key is earlier, and over a window ago if it was cached. */
  lemma RunningIsLatest(cfg: Config, s: State, r: nat, id: nat)
    requires L.Inv(cfg.window, s.ledger) && r < |s.ledger.info| && id < |s.ledger.info| && r != id
    requires s.ledger.info[id].Running? && s.ledger.info[r].key == s.ledger.info[id].key
    ensures r < id && s.ledger.info[r].Finished?
    ensures s.ledger.info[r].ret.policy == Cache ==> s.ledger.info[r].finish + cfg.window <= s.ledger.clock
  {
    var info := s.ledger.info;
    assert r < id by {
      assert !L.Spaced(cfg.window, info[id], info[r]);
    }
    assert L.Spaced(cfg.window, info[r], info[id]);
    assert info[id].start <= s.ledger.clock;
  }

  lemma NewPostKeepsLog(cfg: Config, s: State, s': State, c: nat, e: Effect)
    requires OnlyMoves(s, s', c, [e]) && LogInv(s) && SpacingInv(cfg, s)
    requires e.Posted? && c < |s.callers| && ReadyToPost(s.log, c, e.call)
    requires PostInv(s', |s.log|)
    requires forall p | 0 <= p < |s.log| && s.log[p].Posted? && s.log[p].call == e.call ::
               s.log[p].run < e.run && (Sticky(s.log[p].outcome) ==> s.log[p].time + cfg.window <= e.time)
    ensures LogInv(s') && SpacingInv(cfg, s')
  {
    OldLogIsKept(cfg, s, s', c, [e]);
    assert s'.log[|s.log|] == [e][0];
  }

  // ---- Putting the parts together ----

  lemma MoverIsKept(cfg: Config, s: State, step: Step)
    requires cfg.window > 0 && Inv(cfg, s) && Enabled(s, step) && !step.Elapse?
    ensures MoverKept(cfg, s, step)
  {
    match step
    case Arrive(_, _, _) => ArriveKeepsMover(cfg, s, step);
    case Query(_, _) => QueryKeepsMover(cfg, s, step);
    case EnterStore(_) => EnterKeepsMover(cfg, s, step);
    case GetState(_, _) => GetKeepsMover(cfg, s, step);
    case Post(_, _) => PostKeepsMover(cfg, s, step);
    case FinishRun(_) => FinishKeepsMover(cfg, s, step);
    case Wake(_) => FollowerKeepsMover(cfg, s, step);
    case Cancel(_) => FollowerKeepsMover(cfg, s, step);
  }

  lemma LogIsKept(cfg: Config, s: State, step: Step)
    requires cfg.window > 0 && Inv(cfg, s) && Enabled(s, step)
    ensures var s' := Apply(cfg, s, step); LogInv(s') && SpacingInv(cfg, s')
  {
    var s' := Apply(cfg, s, step);
    StepMovesOne(cfg, s, step);
    if EffectsOf(s, step) == [] {
      SilenceKeepsLog(cfg, s, s', Mover(s, step));
    } else if step.Post? {
      PostIsKept(cfg, s, step);
    } else {
      assert CallerInv(s, step.c);
      NewGetKeepsLog(cfg, s, s', step.c, EffectsOf(s, step)[0]);
    }
  }

  lemma PostIsKept(cfg: Config, s: State, step: Step)
    requires cfg.window > 0 && Inv(cfg, s) && Enabled(s, step) && step.Post?
    ensures var s' := Apply(cfg, s, step); LogInv(s') && SpacingInv(cfg, s')
  {
    var s' := Apply(cfg, s, step);
    var e := EffectsOf(s, step)[0];
    StepMovesOne(cfg, s, step);
    assert CallerInv(s, step.c);
    assert L.RunningInv(s.ledger);
    GroundedGrows(s.log, [e], |s.log|, step.c, e.call);
    assert PostInv(s', |s.log|);
    forall p | 0 <= p < |s.log| && s.log[p].Posted? && s.log[p].call == e.call
      ensures s.log[p].run < e.run && (Sticky(s.log[p].outcome) ==> s.log[p].time + cfg.window <= e.time)
    {
      NewPostIsSpaced(cfg, s, step, p);
    }
    NewPostKeepsLog(cfg, s, s', step.c, e);
  }

  lemma StepKeepsInv(cfg: Config, s: State, step: Step)
    requires cfg.window > 0 && Inv(cfg, s) && Enabled(s, step)
    ensures Inv(cfg, Apply(cfg, s, step))
  {
    var s' := Apply(cfg, s, step);
    OthersKept(cfg, s, step);
    LogIsKept(cfg, s, step);
    if !step.Elapse? {
      MoverIsKept(cfg, s, step);
    }
    NewRunsAreTheMovers(cfg, s, step);
    forall c | 0 <= c < |s'.callers|
      ensures s'.callers[c].prepared == Prepare(cfg, s'.callers[c].ready, s'.callers[c].request,
                                                s'.callers[c].selection)
      ensures CallerInv(s', c)
    {
    }
    forall id | 0 <= id < |s'.ledger.info|
      ensures RunInv(s', id)
    {
    }
  }

  /** A run that a step creates is led by the caller that moves. */
  lemma NewRunsAreTheMovers(cfg: Config, s: State, step: Step)
    requires L.Shape(s.ledger) && Enabled(s, step)
    ensures forall id | 0 <= id < |NextLedger(cfg, s, step).info| ::
              (id < |s.ledger.info| && NextLedger(cfg, s, step).info[id].leader == s.ledger.info[id].leader)
              || NextLedger(cfg, s, step).info[id].leader == Mover(s, step)
  {
  }

  /** The invariant holds in every reachable state. */
  lemma {:induction false} RunKeepsInv(cfg: Config, steps: seq<Step>)
    requires cfg.window > 0 && Run(cfg, steps).Some?
    ensures Inv(cfg, Run(cfg, steps).value)
  {
    if steps != [] {
      var n := |steps| - 1;
      RunKeepsInv(cfg, steps[..n]);
      StepKeepsInv(cfg, Run(cfg, steps[..n]).value, steps[n]);
    }
  }
}
