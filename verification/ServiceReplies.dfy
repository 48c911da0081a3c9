/**
 What each caller is told, in terms of the requests that it sent itself and of their answers, in every run: the
 reply of a query, of a leader, of a follower and of a refused request.
 */
module ServiceReplies {
  import opened Common
  import opened Tools
  import opened Api
  import opened ChatInput
  import opened Validate
  import opened Infra
  import opened DedupStore
  import opened Service
  import opened ServiceInvariant
  import opened ServicePrepare
  import opened ServiceTheorems

  // ---- One caller's own part of the log ----

  /** The effects of caller c, in order. */
  function Trace(log: seq<Effect>, c: nat): seq<Effect> {
    if log == [] then []
    else
      var n := |log| - 1;
      Trace(log[..n], c) + (if log[n].caller == c then [log[n]] else [])
  }

  // ---- What the answers mean ----

  /** An upstream failure as the client sees it: its own code, and 504 for a timeout or else 502. */
  function GatewayRefusal(e: InfraError): Reply {
    Refused(ApiError(UpstreamCode(e.code), if e.networkClass == Timeout then 504 else 502))
  }

  /** A query's one GET, and the reply it leads to. */
  predicate Queried(trace: seq<Effect>, c: nat, call: ActionCall, warnings: seq<Warning>, reply: Reply) {
    && |trace| == 1 && trace[0].Got? && trace[0].caller == c && trace[0].vmid == call.vmid
    && match trace[0].answer
       case Err(e) => reply == GatewayRefusal(e)
       case Ok(vm) =>
         vm.vmid == call.vmid &&
         reply == Completed(call, Report(vm.vmid, vm.name, vm.status, vm.uptime), false, false, 200, Some(vm),
                            warnings)
  }

  /** A leader's GET, its POST if the VM was in the state the action needs, and what it returns to the store. */
  predicate Returned(trace: seq<Effect>, c: nat, call: ActionCall, ret: Return) {
    && trace != [] && trace[0].Got? && trace[0].caller == c && trace[0].vmid == call.vmid
    && match trace[0].answer
       case Err(e) => |trace| == 1 && ret == Return(ErrorValue(e), DoNotCache, Some(Upstream(e)))
       case Ok(vm) =>
         && vm.vmid == call.vmid
         && if vm.status != (if call.action == Start then "stopped" else "running") then
              && |trace| == 1
              && ret == Return(ExecutionValue(Execution(AlreadyIn(vm.status, call.action, call.vmid), Some(vm), 0,
                                                        false)), Cache, None)
            else
              && |trace| == 2 && trace[1].Posted? && trace[1].caller == c && trace[1].call == call
              && match trace[1].outcome
                 case Err(e) =>
                   ret == Return(ErrorValue(e), if e.unknown then Cache else DoNotCache, Some(Upstream(e)))
                 case Ok(status) =>
                   && status == 202
                   && ret == Return(ExecutionValue(Execution(Submitted(call.action, call.vmid), None, 202, true)),
                                    Cache, None)
  }

  /** The same for what the leader itself is told. */
  predicate Led(trace: seq<Effect>, c: nat, call: ActionCall, warnings: seq<Warning>, reply: Reply) {
    && trace != [] && trace[0].Got? && trace[0].caller == c && trace[0].vmid == call.vmid
    && match trace[0].answer
       case Err(e) => |trace| == 1 && reply == GatewayRefusal(e)
       case Ok(vm) =>
         && vm.vmid == call.vmid
         && if vm.status != (if call.action == Start then "stopped" else "running") then
              && |trace| == 1
              && reply == Completed(call, AlreadyIn(vm.status, call.action, call.vmid), false, false, 0, Some(vm),
                                    warnings)
            else
              && |trace| == 2 && trace[1].Posted? && trace[1].caller == c && trace[1].call == call
              && match trace[1].outcome
                 case Err(e) => reply == GatewayRefusal(e)
                 case Ok(status) =>
                   && status == 202
                   && reply == Completed(call, Submitted(call.action, call.vmid), true, false, 202, None, warnings)
  }

  /** The GET that lets a leader go on to its POST. */
  predicate FoundNeededState(trace: seq<Effect>, c: nat, call: ActionCall) {
    && |trace| == 1 && trace[0].Got? && trace[0].caller == c && trace[0].vmid == call.vmid
    && trace[0].answer.Ok? && trace[0].answer.value.vmid == call.vmid
    && trace[0].answer.value.status == (if call.action == Start then "stopped" else "running")
  }

  // ---- The invariant ----

  predicate TraceFits(trace: seq<Effect>, c: nat, me: Caller) {
    match me.prepared
    case Rejected(e) => trace == [] && me.phase == Replied(Direct, None, Refused(e))
    case Proceed(call, warnings) =>
      match me.phase
      case Querying => call.action == Get && trace == []
      case Entering => call.action != Get && trace == []
      case Getting(_) => call.action != Get && trace == []
      case Waiting(_) => call.action != Get && trace == []
      case Posting(_, _) => call.action != Get && FoundNeededState(trace, c, call)
      case Returning(_, ret) => call.action != Get && Returned(trace, c, call, ret)
      case Replied(Direct, _, reply) => call.action == Get && Queried(trace, c, call, warnings, reply)
      case Replied(LeaderOf(_), _, reply) => call.action != Get && Led(trace, c, call, warnings, reply)
      case Replied(FollowerOf(_), _, reply) => call.action != Get && trace == []
  }

  predicate TracesFit(s: State) {
    forall c | 0 <= c < |s.callers| :: TraceFits(Trace(s.log, c), c, s.callers[c])
  }

  lemma QueryFits(trace: seq<Effect>, c: nat, me: Caller, answer: HttpReply, time: int)
    requires TraceFits(trace, c, me) && me.prepared.Proceed? && me.phase.Querying?
    ensures var call := me.prepared.call;
            var vm := GetVM(call.vmid, answer);
            TraceFits(trace + [Got(c, call.vmid, vm, time)], c,
                      me.(phase := Replied(Direct, None, QueryReply(call, me.prepared.warnings, vm))))
  {
    GetIsExact(me.prepared.call.vmid, answer);
  }

  lemma GetFits(trace: seq<Effect>, c: nat, me: Caller, answer: HttpReply, time: int)
    requires TraceFits(trace, c, me) && me.prepared.Proceed? && me.phase.Getting?
    ensures var call := me.prepared.call;
            var vm := GetVM(call.vmid, answer);
            TraceFits(trace + [Got(c, call.vmid, vm, time)], c,
                      me.(phase := match CheckGet(call, vm)
                                   case Mutable(found) => Posting(me.phase.id, found)
                                   case Settled(ret) => Returning(me.phase.id, ret)))
  {
    GetIsExact(me.prepared.call.vmid, answer);
  }

  lemma PostFits(trace: seq<Effect>, c: nat, me: Caller, answer: HttpReply, time: int)
    requires TraceFits(trace, c, me) && me.prepared.Proceed? && me.phase.Posting?
    ensures var call := me.prepared.call;
            var outcome := Mutate(call.action, answer);
            TraceFits(trace + [Posted(c, me.phase.id, call, outcome, time)], c,
                      me.(phase := Returning(me.phase.id, PostReturn(call, outcome))))
  {
    MutateIsExact(me.prepared.call.action, answer);
  }

  lemma FinishFits(trace: seq<Effect>, c: nat, me: Caller)
    requires TraceFits(trace, c, me) && me.prepared.Proceed? && me.phase.Returning?
    ensures var result := DoResult(me.phase.ret.value, me.phase.ret.err, false);
            TraceFits(trace, c, me.(phase := Replied(LeaderOf(me.phase.id), Some(result),
                                                     Respond(me.prepared.call, me.prepared.warnings, result))))
  {
  }

  lemma MoverFits(cfg: Config, s: State, step: Step)
    requires TracesFit(s) && Enabled(s, step) && !step.Arrive? && !step.Elapse?
    ensures TraceFits(Trace(s.log, step.c) + EffectsOf(s, step), step.c,
                      s.callers[step.c].(phase := NextPhase(s, step)))
  {
    var c, me, now := step.c, s.callers[step.c], s.ledger.clock;
    var trace := Trace(s.log, c);
    assert TraceFits(trace, c, me);
    assert trace + [] == trace;
    match step
    case Query(_, answer) => QueryFits(trace, c, me, answer, now);
    case GetState(_, answer) => GetFits(trace, c, me, answer, now);
    case Post(_, answer) => PostFits(trace, c, me, answer, now);
    case FinishRun(_) => FinishFits(trace, c, me);
    case _ =>
  }

  lemma {:induction false} TraceConcat(log: seq<Effect>, more: seq<Effect>, c: nat)
    ensures Trace(log + more, c) == Trace(log, c) + Trace(more, c)
  {
    if more == [] {
      assert log + more == log;
    } else {
      var n := |more| - 1;
      TraceConcat(log, more[..n], c);
      assert (log + more)[..|log + more| - 1] == log + more[..n];
    }
  }

  lemma TraceOfEffects(s: State, step: Step, c: nat)
    requires Enabled(s, step)
    ensures Trace(EffectsOf(s, step), c) ==
            if !step.Arrive? && !step.Elapse? && step.c == c then EffectsOf(s, step) else []
  {
    var e := EffectsOf(s, step);
    if e != [] {
      assert e[..0] == [] && Trace(e[..0], c) == [];
    }
  }

  lemma StepKeepsTraces(cfg: Config, s: State, step: Step)
    requires TracesFit(s) && Enabled(s, step) && forall q | 0 <= q < |s.log| :: s.log[q].caller < |s.callers|
    ensures TracesFit(Apply(cfg, s, step))
  {
    var s' := Apply(cfg, s, step);
    forall c | 0 <= c < |s'.callers|
      ensures TraceFits(Trace(s'.log, c), c, s'.callers[c])
    {
      TraceConcat(s.log, EffectsOf(s, step), c);
      TraceOfEffects(s, step, c);
      if c == |s.callers| {
        NewcomerFits(cfg, s, step);
      } else if !step.Arrive? && !step.Elapse? && step.c == c {
        MoverFits(cfg, s, step);
      } else {
        assert TraceFits(Trace(s.log, c), c, s.callers[c]);
        assert Trace(s.log, c) + [] == Trace(s.log, c);
      }
    }
  }

  lemma {:induction false} NoTrace(log: seq<Effect>, c: nat)
    requires forall q | 0 <= q < |log| :: log[q].caller != c
    ensures Trace(log, c) == []
  {
    if log != [] {
      NoTrace(log[..|log| - 1], c);
    }
  }

  lemma NewcomerFits(cfg: Config, s: State, step: Step)
    requires Enabled(s, step) && step.Arrive? && forall q | 0 <= q < |s.log| :: s.log[q].caller < |s.callers|
    ensures TraceFits(Trace(s.log, |s.callers|), |s.callers|, NextCallers(cfg, s, step)[|s.callers|])
  {
    NoTrace(s.log, |s.callers|);
  }

  lemma {:induction false} RunKeepsTraces(cfg: Config, steps: seq<Step>)
    requires cfg.window > 0 && Run(cfg, steps).Some?
    ensures TracesFit(Run(cfg, steps).value)
  {
    if steps != [] {
      var n := |steps| - 1;
      RunKeepsTraces(cfg, steps[..n]);
      RunKeepsInv(cfg, steps[..n]);
      StepKeepsTraces(cfg, Run(cfg, steps[..n]).value, steps[n]);
    }
  }

  // ---- What every run guarantees ----

  /** A request that is refused before the upstream API is touched is told why, and sent nothing. */
  lemma RejectionsAreReported(cfg: Config, steps: seq<Step>, c: nat)
    requires cfg.window > 0 && Run(cfg, steps).Some? && c < |Run(cfg, steps).value.callers|
    ensures var s := Run(cfg, steps).value;
            var me := s.callers[c];
            && me.prepared == Prepare(cfg, me.ready, me.request, me.selection)
            && (me.prepared.Rejected? ==>
                  Trace(s.log, c) == [] && me.phase.Replied? && me.phase.reply == Refused(me.prepared.error))
  {
    RunKeepsTraces(cfg, steps);
    RunKeepsInv(cfg, steps);
    var s := Run(cfg, steps).value;
    assert TraceFits(Trace(s.log, c), c, s.callers[c]);
  }

  /** A query that has replied sent one GET of its own, and reports the VM or the failure that this GET gave. */
  lemma QueriesReportTheirGet(cfg: Config, steps: seq<Step>, c: nat)
    requires cfg.window > 0 && Run(cfg, steps).Some? && c < |Run(cfg, steps).value.callers|
    requires var me := Run(cfg, steps).value.callers[c];
             me.prepared.Proceed? && me.prepared.call.action == Get && me.phase.Replied?
    ensures var s := Run(cfg, steps).value;
            var me := s.callers[c];
            var trace := Trace(s.log, c);
            && |trace| == 1 && trace[0].Got? && trace[0].vmid == me.prepared.call.vmid
            && (trace[0].answer.Err? ==> me.phase.reply == GatewayRefusal(trace[0].answer.error))
            && (trace[0].answer.Ok? ==>
                  var vm := trace[0].answer.value;
                  me.phase.reply == Completed(me.prepared.call, Report(vm.vmid, vm.name, vm.status, vm.uptime),
                                              false, false, 200, Some(vm), Warnings(me.request)))
  {
    RunKeepsTraces(cfg, steps);
    RunKeepsInv(cfg, steps);
    var s := Run(cfg, steps).value;
    var me := s.callers[c];
    assert TraceFits(Trace(s.log, c), c, me);
    ProceedsIff(cfg, me.ready, me.request, me.selection, me.prepared.call, me.prepared.warnings);
  }

  /** A leader's reply says what its own GET found and, if it posted, what its own POST came to. */
  lemma LeadersReportTheirOwn(cfg: Config, steps: seq<Step>, c: nat)
    requires cfg.window > 0 && Run(cfg, steps).Some? && c < |Run(cfg, steps).value.callers|
    requires var p := Run(cfg, steps).value.callers[c].phase; p.Replied? && p.origin.LeaderOf?
    ensures var s := Run(cfg, steps).value;
            var me := s.callers[c];
            && me.prepared.Proceed? && me.prepared.call.action != Get
            && Led(Trace(s.log, c), c, me.prepared.call, Warnings(me.request), me.phase.reply)
  {
    RunKeepsTraces(cfg, steps);
    RunKeepsInv(cfg, steps);
    var s := Run(cfg, steps).value;
    var me := s.callers[c];
    assert TraceFits(Trace(s.log, c), c, me);
    ProceedsIff(cfg, me.ready, me.request, me.selection, me.prepared.call, me.prepared.warnings);
  }

  /** What a follower is told when its leader was told this: the same, but not as executed by itself. */
  function Repeated(reply: Reply, warnings: seq<Warning>): Reply {
    if reply.Completed? then reply.(executed := false, deduplicated := true, warnings := warnings) else reply
  }

  /**
   A follower sends nothing. If it was cancelled while it waited it is refused as an unfinished upstream request;
   otherwise it is told what its leader was told, marked as deduplicated, with its own warnings.
   */
  lemma FollowersRepeatTheirLeader(cfg: Config, steps: seq<Step>, c: nat)
    requires cfg.window > 0 && Run(cfg, steps).Some? && c < |Run(cfg, steps).value.callers|
    requires var p := Run(cfg, steps).value.callers[c].phase; p.Replied? && p.origin.FollowerOf?
    ensures var s := Run(cfg, steps).value;
            var me := s.callers[c];
            var id := me.phase.origin.run;
            && Trace(s.log, c) == []
            && (me.phase.result == Some(DoResult(Nil, Some(ContextDone), true)) ==>
                  me.phase.reply == Refused(ApiError(UpstreamRequestFailed, 502)))
            && (me.phase.result != Some(DoResult(Nil, Some(ContextDone), true)) ==>
                  && id < |s.ledger.info| && s.ledger.info[id].leader < |s.callers|
                  && var leader := s.callers[s.ledger.info[id].leader];
                     && leader.phase.Replied? && leader.phase.origin == LeaderOf(id)
                     && leader.prepared.Proceed? && me.prepared.Proceed? && leader.prepared.call == me.prepared.call
                     && me.phase.reply == Repeated(leader.phase.reply, Warnings(me.request)))
  {
    RunKeepsTraces(cfg, steps);
    RunKeepsInv(cfg, steps);
    var s := Run(cfg, steps).value;
    var me := s.callers[c];
    assert TraceFits(Trace(s.log, c), c, me);
    FollowerAnswersWithItsResult(cfg, s, c);
    if me.phase.result != Some(DoResult(Nil, Some(ContextDone), true)) {
      FollowersShareTheirLeadersResult(cfg, steps, c);
      var l := s.ledger.info[me.phase.origin.run].leader;
      LeaderAnswersWithItsResult(cfg, s, l);
      RespondRepeats(me.prepared.call, s.callers[l].prepared.warnings, me.prepared.warnings,
                     s.callers[l].phase.result.value);
    }
  }

  lemma RespondRepeats(call: ActionCall, theirs: seq<Warning>, mine: seq<Warning>, r: DoResult)
    requires !r.deduplicated
    ensures Respond(call, mine, r.(deduplicated := true)) == Repeated(Respond(call, theirs, r), mine)
  {
  }

  lemma FollowerAnswersWithItsResult(cfg: Config, s: State, c: nat)
    requires Inv(cfg, s) && c < |s.callers| && s.callers[c].phase.Replied? && s.callers[c].phase.origin.FollowerOf?
    ensures var me := s.callers[c];
            && me.prepared.Proceed? && me.prepared.warnings == Warnings(me.request) && me.phase.result.Some?
            && me.phase.reply == Respond(me.prepared.call, me.prepared.warnings, me.phase.result.value)
  {
    var me := s.callers[c];
    assert CallerInv(s, c);
    ProceedsIff(cfg, me.ready, me.request, me.selection, me.prepared.call, me.prepared.warnings);
  }

  lemma LeaderAnswersWithItsResult(cfg: Config, s: State, c: nat)
    requires Inv(cfg, s) && c < |s.callers| && s.callers[c].phase.Replied? && s.callers[c].phase.origin.LeaderOf?
    ensures var me := s.callers[c];
            && me.prepared.Proceed? && me.phase.result.Some?
            && me.phase.reply == Respond(me.prepared.call, me.prepared.warnings, me.phase.result.value)
  {
    assert CallerInv(s, c);
    assert RunInv(s, s.callers[c].phase.origin.run);
  }

  /** The deduplicated flag is the follower's and nobody else's, and the warnings are the caller's own. */
  lemma OnlyFollowersAreDeduplicated(cfg: Config, steps: seq<Step>, c: nat)
    requires cfg.window > 0 && Run(cfg, steps).Some? && c < |Run(cfg, steps).value.callers|
    requires var p := Run(cfg, steps).value.callers[c].phase; p.Replied? && p.reply.Completed?
    ensures var me := Run(cfg, steps).value.callers[c];
            && (me.phase.reply.deduplicated <==> me.phase.origin.FollowerOf?)
            && me.phase.reply.warnings == Warnings(me.request)
  {
    var me := Run(cfg, steps).value.callers[c];
    match me.phase.origin
    case Direct =>
      RejectionsAreReported(cfg, steps, c);
      DirectIsAQuery(cfg, steps, c);
      QueriesReportTheirGet(cfg, steps, c);
    case LeaderOf(_) => LeadersReportTheirOwn(cfg, steps, c);
    case FollowerOf(_) => FollowersRepeatTheirLeader(cfg, steps, c);
  }

  lemma DirectIsAQuery(cfg: Config, steps: seq<Step>, c: nat)
    requires cfg.window > 0 && Run(cfg, steps).Some? && c < |Run(cfg, steps).value.callers|
    requires var me := Run(cfg, steps).value.callers[c];
             me.prepared.Proceed? && me.phase.Replied? && me.phase.origin.Direct?
    ensures Run(cfg, steps).value.callers[c].prepared.call.action == Get
  {
    RunKeepsTraces(cfg, steps);
    var s := Run(cfg, steps).value;
    assert TraceFits(Trace(s.log, c), c, s.callers[c]);
  }

  /** What a leader is about to publish for later callers is what its leader's own requests came to. */
  lemma ReturnsAreTheLeadersOwn(cfg: Config, steps: seq<Step>, c: nat)
    requires cfg.window > 0 && Run(cfg, steps).Some? && c < |Run(cfg, steps).value.callers|
    requires Run(cfg, steps).value.callers[c].phase.Returning?
    ensures var s := Run(cfg, steps).value;
            var me := s.callers[c];
            me.prepared.Proceed? && Returned(Trace(s.log, c), c, me.prepared.call, me.phase.ret)
  {
    RunKeepsTraces(cfg, steps);
    var s := Run(cfg, steps).value;
    assert TraceFits(Trace(s.log, c), c, s.callers[c]);
  }
}
