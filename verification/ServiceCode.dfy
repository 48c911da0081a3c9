/**
 `Complete` as code (internal/managed/service.go): the checks before the store, the closure, and the
 whole call over the store object. A call that nobody interrupts is shown to be a piece of a machine run,
 so what holds of every run holds of the code.
 */
module ServiceCode {
  import opened Common
  import opened Tools
  import opened Api
  import opened ChatInput
  import opened Safety
  import opened Validate
  import opened Infra
  import opened DedupStore
  import opened Service
  import L = DedupLedger

  /** A request that leaves for the upstream API. */
  datatype Sent = SentGet(vmid: nat) | SentPost(call: ActionCall)

  function SentBy(e: Effect): Sent {
    match e
    case Got(_, vmid, _, _) => SentGet(vmid)
    case Posted(_, _, call, _, _) => SentPost(call)
  }

  method PrepareCall(cfg: Config, ready: bool, request: ChatRequest, selection: Selection) returns (p: Prepared)
    ensures p == Prepare(cfg, ready, request, selection)
  {
    if !ready {
      return Rejected(ApiError(ModelNotReady, 503));
    }
    var extracted := ExtractInput(request, cfg.maxMessage);
    if extracted.Err? {
      return Rejected(extracted.error);
    }
    if request.model != cfg.modelId {
      return Rejected(ApiError(ModelNotFound, 404));
    }
    var input := AnalyzeInput(extracted.value.original);
    if input.Err? {
      return Rejected(input.error);
    }
    if selection.NotSelected? {
      return Rejected(selection.error);
    }
    var call := ValidateToolCall(input.value, selection.call, cfg.allowForceStop);
    if call.Err? {
      return Rejected(call.error);
    }
    p := Proceed(call.value, extracted.value.warnings);
  }

  /** What the closure returns, given the answers it would receive. */
  function ClosureReturn(call: ActionCall, getAnswer: HttpReply, postAnswer: HttpReply): Return {
    match CheckGet(call, GetVM(call.vmid, getAnswer))
    case Settled(ret) => ret
    case Mutable(_) => PostReturn(call, Mutate(call.action, postAnswer))
  }

  /** The requests it sends. */
  function ClosureSent(call: ActionCall, getAnswer: HttpReply): seq<Sent> {
    [SentGet(call.vmid)] + (if CheckGet(call, GetVM(call.vmid, getAnswer)).Mutable? then [SentPost(call)] else [])
  }

  /** The closure: GET, check the state, and POST only if it is the required one. */
  method Closure(call: ActionCall, getAnswer: HttpReply, postAnswer: HttpReply) returns (ret: Return, sent: seq<Sent>)
    requires call.action != Get
    ensures ret == ClosureReturn(call, getAnswer, postAnswer)
    ensures sent == ClosureSent(call, getAnswer)
    ensures SentPost(call) in sent <==>
              exists vm ::
                GetVM(call.vmid, getAnswer) == Ok(vm)
                && vm.status == (if call.action == Start then "stopped" else "running")
    ensures ret.policy == DoNotCache <==>
              || GetVM(call.vmid, getAnswer).Err?
              || (SentPost(call) in sent && postAnswer.Answer? && postAnswer.status != 202)
  {
    sent := [SentGet(call.vmid)];
    var vm := GetVM(call.vmid, getAnswer);
    if vm.Err? {
      return Return(ErrorValue(vm.error), DoNotCache, Some(Upstream(vm.error))), sent;
    }
    var decision := CheckState(call.action, vm.value.status, call.vmid);
    if decision.Refuse? {
      return Return(ExecutionValue(Execution(decision.message, Some(vm.value), 0, false)), Cache, None), sent;
    }
    sent := sent + [SentPost(call)];
    var upstream := Mutate(call.action, postAnswer);
    if upstream.Err? {
      var policy := DoNotCache;
      if upstream.error.unknown {
        policy := Cache;
      }
      return Return(ErrorValue(upstream.error), policy, Some(Upstream(upstream.error))), sent;
    }
    ret := Return(ExecutionValue(Execution(Submitted(call.action, call.vmid), None, upstream.value, true)), Cache,
                  None);
  }

  lemma RunOneMore(cfg: Config, steps: seq<Step>, step: Step)
    requires Run(cfg, steps).Some? && Enabled(Run(cfg, steps).value, step)
    ensures Run(cfg, steps + [step]) == Some(Apply(cfg, Run(cfg, steps).value, step))
  {
    assert (steps + [step])[..|steps|] == steps;
  }

  /** The machine's steps for a request that arrives after a run. */
  lemma ArriveInMachine(cfg: Config, before: seq<Step>, ready: bool, request: ChatRequest, selection: Selection)
    returns (after: seq<Step>)
    requires Run(cfg, before).Some? && L.Shape(Run(cfg, before).value.ledger)
    ensures Run(cfg, after).Some?
    ensures var s := Run(cfg, before).value;
            var p := Prepare(cfg, ready, request, selection);
            Run(cfg, after).value == State(s.ledger,
                                           s.callers + [Caller(ready, request, selection, p, FirstPhase(p))], s.log)
  {
    after := before + [Arrive(ready, request, selection)];
    RunOneMore(cfg, before, Arrive(ready, request, selection));
    assert Run(cfg, before).value.log + [] == Run(cfg, before).value.log;
  }

  /** One more step of the last caller, with the state it leads to. */
  lemma LastCallerMoves(cfg: Config, before: seq<Step>, step: Step, c: nat) returns (after: seq<Step>)
    requires Run(cfg, before).Some? && Enabled(Run(cfg, before).value, step)
    requires !step.Arrive? && !step.Elapse? && step.c == c == |Run(cfg, before).value.callers| - 1
    ensures Run(cfg, after).Some?
    ensures var s := Run(cfg, before).value;
            Run(cfg, after).value == State(NextLedger(cfg, s, step),
                                           s.callers[..c] + [s.callers[c].(phase := NextPhase(s, step))],
                                           s.log + EffectsOf(s, step))
  {
    var s := Run(cfg, before).value;
    after := before + [step];
    RunOneMore(cfg, before, step);
    assert s.callers[c := s.callers[c].(phase := NextPhase(s, step))] ==
           s.callers[..c] + [s.callers[c].(phase := NextPhase(s, step))];
  }

  /** The log has grown by just these requests. */
  ghost predicate LogGrows(before: seq<Effect>, after: seq<Effect>, sent: seq<Sent>) {
    && |after| == |before| + |sent| && after[..|before|] == before
    && forall i | 0 <= i < |sent| :: SentBy(after[|before| + i]) == sent[i]
  }

  /** How a call ends in the machine: the replies, effects and store it leaves. */
  ghost predicate Ends(s: State, t: State, store: StoreState, reply: Option<Reply>, sent: seq<Sent>) {
    var n := |s.callers|;
    && |t.callers| == n + 1 && t.callers[..n] == s.callers
    && t.ledger.store == store
    && (reply.Some? ==> t.callers[n].phase.Replied? && t.callers[n].phase.reply == reply.value)
    && (reply.None? ==> t.callers[n].phase.Waiting?)
    && LogGrows(s.log, t.log, sent)
  }

  lemma RejectionInMachine(cfg: Config, before: seq<Step>, ready: bool, request: ChatRequest, selection: Selection)
    returns (after: seq<Step>)
    requires Run(cfg, before).Some? && L.Shape(Run(cfg, before).value.ledger)
    requires Prepare(cfg, ready, request, selection).Rejected?
    ensures Run(cfg, after).Some?
    ensures var s := Run(cfg, before).value;
            Ends(s, Run(cfg, after).value, s.ledger.store,
                 Some(Refused(Prepare(cfg, ready, request, selection).error)), [])
  {
    after := ArriveInMachine(cfg, before, ready, request, selection);
  }

  lemma QueryInMachine(cfg: Config, before: seq<Step>, ready: bool, request: ChatRequest, selection: Selection,
                       answer: HttpReply)
    returns (after: seq<Step>)
    requires Run(cfg, before).Some? && L.Shape(Run(cfg, before).value.ledger)
    requires Prepare(cfg, ready, request, selection).Proceed?
             && Prepare(cfg, ready, request, selection).call.action == Get
    ensures Run(cfg, after).Some?
    ensures var s := Run(cfg, before).value;
            var p := Prepare(cfg, ready, request, selection);
            Ends(s, Run(cfg, after).value, s.ledger.store,
                 Some(QueryReply(p.call, p.warnings, GetVM(p.call.vmid, answer))), [SentGet(p.call.vmid)])
  {
    var c := |Run(cfg, before).value.callers|;
    after := ArriveInMachine(cfg, before, ready, request, selection);
    after := LastCallerMoves(cfg, after, Query(c, answer), c);
  }

  /** The new caller enters the store and joins a live entry. */
  lemma FollowerEnters(cfg: Config, before: seq<Step>, ready: bool, request: ChatRequest, selection: Selection)
    returns (after: seq<Step>)
    requires Run(cfg, before).Some? && L.Shape(Run(cfg, before).value.ledger)
    requires Prepare(cfg, ready, request, selection).Proceed?
             && Prepare(cfg, ready, request, selection).call.action != Get
    requires var s := Run(cfg, before).value;
             Joins(s.ledger.store, Key(Prepare(cfg, ready, request, selection).call), s.ledger.clock)
    ensures Run(cfg, after).Some?
    ensures var s := Run(cfg, before).value;
            var p := Prepare(cfg, ready, request, selection);
            var id := EnterId(s.ledger.store, Key(p.call), s.ledger.clock);
            Run(cfg, after).value ==
              State(s.ledger, s.callers + [Caller(ready, request, selection, p, Waiting(id))], s.log)
  {
    var s := Run(cfg, before).value;
    var c := |s.callers|;
    after := ArriveInMachine(cfg, before, ready, request, selection);
    after := LastCallerMoves(cfg, after, EnterStore(c), c);
    assert s.log + [] == s.log;
  }

  lemma WakeInMachine(cfg: Config, before: seq<Step>, c: nat) returns (after: seq<Step>)
    requires Run(cfg, before).Some? && L.Shape(Run(cfg, before).value.ledger)
             && c == |Run(cfg, before).value.callers| - 1
    requires var s := Run(cfg, before).value;
             var me := s.callers[c];
             && me.prepared.Proceed? && me.phase.Waiting? && me.phase.id < |s.ledger.store.heap|
             && s.ledger.store.heap[me.phase.id].done
    ensures Run(cfg, after).Some?
    ensures var s, t := Run(cfg, before).value, Run(cfg, after).value;
            var me := s.callers[c];
            var cell := s.ledger.store.heap[me.phase.id];
            var result := DoResult(cell.value, cell.err, true);
            && t.ledger == s.ledger && t.log == s.log
            && t.callers == s.callers[..c] + [me.(phase := Replied(FollowerOf(me.phase.id), Some(result),
                                                                   Respond(me.prepared.call, me.prepared.warnings,
                                                                           result)))]
  {
    var s := Run(cfg, before).value;
    after := LastCallerMoves(cfg, before, Wake(c), c);
    assert s.log + [] == s.log;
  }

  lemma FollowerInMachine(cfg: Config, before: seq<Step>, ready: bool, request: ChatRequest, selection: Selection)
    returns (after: seq<Step>)
    requires Run(cfg, before).Some? && L.Shape(Run(cfg, before).value.ledger)
    requires Prepare(cfg, ready, request, selection).Proceed?
             && Prepare(cfg, ready, request, selection).call.action != Get
    requires var s := Run(cfg, before).value;
             Joins(s.ledger.store, Key(Prepare(cfg, ready, request, selection).call), s.ledger.clock)
    ensures Run(cfg, after).Some?
    ensures var s := Run(cfg, before).value;
            var p := Prepare(cfg, ready, request, selection);
            var cell := s.ledger.store.heap[EnterId(s.ledger.store, Key(p.call), s.ledger.clock)];
            Ends(s, Run(cfg, after).value, s.ledger.store,
                 if cell.done then Some(Respond(p.call, p.warnings, DoResult(cell.value, cell.err, true)))
                 else None, [])
  {
    var s := Run(cfg, before).value;
    var c := |s.callers|;
    after := FollowerEnters(cfg, before, ready, request, selection);
    var t := Run(cfg, after).value;
    assert t.callers[..c] == s.callers;
    if s.ledger.store.heap[t.callers[c].phase.id].done {
      after := WakeInMachine(cfg, after, c);
    }
  }

  /** The new caller enters the store and leads a new run. */
  lemma LeaderEnters(cfg: Config, before: seq<Step>, ready: bool, request: ChatRequest, selection: Selection)
    returns (after: seq<Step>)
    requires Run(cfg, before).Some? && L.Shape(Run(cfg, before).value.ledger)
    requires Prepare(cfg, ready, request, selection).Proceed?
             && Prepare(cfg, ready, request, selection).call.action != Get
    requires var s := Run(cfg, before).value;
             !Joins(s.ledger.store, Key(Prepare(cfg, ready, request, selection).call), s.ledger.clock)
    ensures Run(cfg, after).Some?
    ensures var s := Run(cfg, before).value;
            var p := Prepare(cfg, ready, request, selection);
            var c, l := |s.callers|, s.ledger;
            Run(cfg, after).value ==
              State(Entered(l, Key(p.call), c),
                    s.callers + [Caller(ready, request, selection, p, Getting(|l.store.heap|))], s.log)
  {
    var s := Run(cfg, before).value;
    var c := |s.callers|;
    after := ArriveInMachine(cfg, before, ready, request, selection);
    after := LastCallerMoves(cfg, after, EnterStore(c), c);
    assert s.log + [] == s.log;
  }

  lemma LogGrowsTwice(a: seq<Effect>, b: seq<Effect>, c: seq<Effect>, first: seq<Sent>, second: seq<Sent>)
    requires LogGrows(a, b, first) && LogGrows(b, c, second)
    ensures LogGrows(a, c, first + second)
  {
    assert c[..|a|] == b[..|a|];
    assert forall k | 0 <= k < |b| :: c[k] == c[..|b|][k] == b[k];
    forall i | 0 <= i < |first + second|
      ensures SentBy(c[|a| + i]) == (first + second)[i]
    {
      assert i >= |first| ==> c[|a| + i] == c[|b| + (i - |first|)];
    }
  }

  /** The last caller's phase has changed, the ledger has not, and the log has grown by these requests. */
  ghost predicate LastMoved(s: State, t: State, phase: Phase, sent: seq<Sent>)
    requires s.callers != []
  {
    var c := |s.callers| - 1;
    && t.ledger == s.ledger
    && t.callers == s.callers[..c] + [s.callers[c].(phase := phase)]
    && LogGrows(s.log, t.log, sent)
  }

  /** The closure's GET. */
  lemma GetInMachine(cfg: Config, before: seq<Step>, c: nat, call: ActionCall, getAnswer: HttpReply)
    returns (after: seq<Step>)
    requires Run(cfg, before).Some? && L.Shape(Run(cfg, before).value.ledger)
             && c == |Run(cfg, before).value.callers| - 1
    requires var me := Run(cfg, before).value.callers[c];
             me.prepared.Proceed? && me.prepared.call == call && me.phase.Getting?
    ensures Run(cfg, after).Some?
    ensures var s := Run(cfg, before).value;
            var id := s.callers[c].phase.id;
            LastMoved(s, Run(cfg, after).value,
                      match CheckGet(call, GetVM(call.vmid, getAnswer))
                      case Mutable(vm) => Posting(id, vm)
                      case Settled(ret) => Returning(id, ret),
                      [SentGet(call.vmid)])
  {
    after := LastCallerMoves(cfg, before, GetState(c, getAnswer), c);
  }

  /** The closure's POST. */
  lemma PostInMachine(cfg: Config, before: seq<Step>, c: nat, call: ActionCall, postAnswer: HttpReply)
    returns (after: seq<Step>)
    requires Run(cfg, before).Some? && L.Shape(Run(cfg, before).value.ledger)
             && c == |Run(cfg, before).value.callers| - 1
    requires var me := Run(cfg, before).value.callers[c];
             me.prepared.Proceed? && me.prepared.call == call && me.phase.Posting?
    ensures Run(cfg, after).Some?
    ensures var s := Run(cfg, before).value;
            LastMoved(s, Run(cfg, after).value,
                      Returning(s.callers[c].phase.id, PostReturn(call, Mutate(call.action, postAnswer))),
                      [SentPost(call)])
  {
    after := LastCallerMoves(cfg, before, Post(c, postAnswer), c);
  }

  lemma LastMovedTwice(s: State, t: State, u: State, p: Phase, q: Phase, first: seq<Sent>, second: seq<Sent>)
    requires s.callers != [] && LastMoved(s, t, p, first) && LastMoved(t, u, q, second)
    ensures LastMoved(s, u, q, first + second)
  {
    LogGrowsTwice(s.log, t.log, u.log, first, second);
    var c := |s.callers| - 1;
    assert t.callers[..c] == s.callers[..c] && t.callers[c] == s.callers[c].(phase := p);
  }

  /** The last caller, about to start its closure, runs it. */
  lemma ClosureInMachine(cfg: Config, before: seq<Step>, c: nat, call: ActionCall, getAnswer: HttpReply,
                         postAnswer: HttpReply)
    returns (after: seq<Step>)
    requires Run(cfg, before).Some? && L.Shape(Run(cfg, before).value.ledger)
             && c == |Run(cfg, before).value.callers| - 1
    requires var me := Run(cfg, before).value.callers[c];
             me.prepared.Proceed? && me.prepared.call == call && me.phase.Getting?
    ensures Run(cfg, after).Some?
    ensures var s := Run(cfg, before).value;
            LastMoved(s, Run(cfg, after).value,
                      Returning(s.callers[c].phase.id, ClosureReturn(call, getAnswer, postAnswer)),
                      ClosureSent(call, getAnswer))
  {
    var s := Run(cfg, before).value;
    after := GetInMachine(cfg, before, c, call, getAnswer);
    var t := Run(cfg, after).value;
    if t.callers[c].phase.Posting? {
      after := PostInMachine(cfg, after, c, call, postAnswer);
      var u := Run(cfg, after).value;
      LastMovedTwice(s, t, u, t.callers[c].phase, u.callers[c].phase, [SentGet(call.vmid)], [SentPost(call)]);
    } else {
      assert [SentGet(call.vmid)] + [] == [SentGet(call.vmid)];
    }
  }

  /** Time passes, and the last caller finishes its run. */
  lemma FinishInMachine(cfg: Config, before: seq<Step>, c: nat, later: int) returns (after: seq<Step>)
    requires Run(cfg, before).Some? && L.Shape(Run(cfg, before).value.ledger)
             && c == |Run(cfg, before).value.callers| - 1
    requires var s := Run(cfg, before).value;
             var me := s.callers[c];
             && me.prepared.Proceed? && me.phase.Returning? && s.ledger.clock <= later
             && me.phase.id < |s.ledger.info| && s.ledger.info[me.phase.id].Running?
    ensures Run(cfg, after).Some?
    ensures var s, t := Run(cfg, before).value, Run(cfg, after).value;
            var me := s.callers[c];
            var ret := me.phase.ret;
            var result := DoResult(ret.value, ret.err, false);
            && t.ledger.store == CompleteState(s.ledger.store, me.phase.id, s.ledger.info[me.phase.id].key, ret,
                                               later, cfg.window)
            && t.callers == s.callers[..c] + [me.(phase := Replied(LeaderOf(me.phase.id), Some(result),
                                                                   Respond(me.prepared.call, me.prepared.warnings,
                                                                           result)))]
            && t.log == s.log
  {
    var s := Run(cfg, before).value;
    RunOneMore(cfg, before, Elapse(later));
    after := before + [Elapse(later)];
    assert s.log + [] == s.log;
    after := LastCallerMoves(cfg, after, FinishRun(c), c);
  }

  /** A leader's whole call: enter, run the closure, let time pass, finish. */
  lemma LeaderInMachine(cfg: Config, before: seq<Step>, ready: bool, request: ChatRequest, selection: Selection,
                        getAnswer: HttpReply, postAnswer: HttpReply, later: int) returns (after: seq<Step>)
    requires Run(cfg, before).Some? && L.Shape(Run(cfg, before).value.ledger)
             && Run(cfg, before).value.ledger.clock <= later
    requires Prepare(cfg, ready, request, selection).Proceed?
             && Prepare(cfg, ready, request, selection).call.action != Get
    requires var s := Run(cfg, before).value;
             !Joins(s.ledger.store, Key(Prepare(cfg, ready, request, selection).call), s.ledger.clock)
    ensures Run(cfg, after).Some?
    ensures var s := Run(cfg, before).value;
            var p := Prepare(cfg, ready, request, selection);
            var ret := ClosureReturn(p.call, getAnswer, postAnswer);
            var entered := EnterState(s.ledger.store, Key(p.call), s.ledger.clock);
            Ends(s, Run(cfg, after).value,
                 CompleteState(entered, |s.ledger.store.heap|, Key(p.call), ret, later, cfg.window),
                 Some(Respond(p.call, p.warnings, DoResult(ret.value, ret.err, false))),
                 ClosureSent(p.call, getAnswer))
  {
    var s := Run(cfg, before).value;
    var p := Prepare(cfg, ready, request, selection);
    after := LeaderEnters(cfg, before, ready, request, selection);
    var me := Run(cfg, after).value.callers[|s.callers|];
    after := LeaderWorks(cfg, s, after, me, getAnswer, postAnswer);
    after := LeaderFinishes(cfg, s, after, me, ClosureReturn(p.call, getAnswer, postAnswer),
                            ClosureSent(p.call, getAnswer), later);
  }

  /** The ledger when caller c has just become the leader of a new run. */
  function Entered(l: L.Ledger, key: string, c: nat): (l': L.Ledger)
    requires L.Shape(l)
    ensures !Joins(l.store, key, l.clock) ==> L.Shape(l')
  {
    L.Ledger(EnterState(l.store, key, l.clock), l.info + [L.Running(key, c, l.clock)], l.clock)
  }

  /** The leader's closure is over: the new caller holds its return, and its requests are at the end of the log. */
  ghost predicate Worked(s: State, t: State, me: Caller, ret: Return, sent: seq<Sent>)
    requires L.Shape(s.ledger) && me.prepared.Proceed?
  {
    && t.ledger == Entered(s.ledger, Key(me.prepared.call), |s.callers|)
    && t.callers == s.callers + [me.(phase := Returning(|s.ledger.store.heap|, ret))]
    && LogGrows(s.log, t.log, sent)
  }

  lemma LeaderWorks(cfg: Config, s: State, mid: seq<Step>, me: Caller, getAnswer: HttpReply, postAnswer: HttpReply)
    returns (after: seq<Step>)
    requires L.Shape(s.ledger) && me.prepared.Proceed? && me.phase == Getting(|s.ledger.store.heap|)
    requires !Joins(s.ledger.store, Key(me.prepared.call), s.ledger.clock)
    requires Run(cfg, mid) ==
             Some(State(Entered(s.ledger, Key(me.prepared.call), |s.callers|), s.callers + [me], s.log))
    ensures Run(cfg, after).Some?
    ensures var call := me.prepared.call;
            Worked(s, Run(cfg, after).value, me, ClosureReturn(call, getAnswer, postAnswer),
                   ClosureSent(call, getAnswer))
  {
    var c := |s.callers|;
    var s1 := Run(cfg, mid).value;
    assert s1.callers == s.callers + [me] && s1.callers[c] == me && s1.callers[..c] == s.callers;
    assert L.Shape(s1.ledger);
    after := ClosureInMachine(cfg, mid, c, me.prepared.call, getAnswer, postAnswer);
    var ret := ClosureReturn(me.prepared.call, getAnswer, postAnswer);
    assert Run(cfg, after).value.callers == s.callers + [me.(phase := Returning(|s.ledger.store.heap|, ret))];
  }

  /** From the end of a new leader's closure to its reply. */
  lemma LeaderFinishes(cfg: Config, s: State, mid: seq<Step>, me: Caller, ret: Return, sent: seq<Sent>, later: int)
    returns (after: seq<Step>)
    requires L.Shape(s.ledger) && s.ledger.clock <= later && me.prepared.Proceed?
    requires !Joins(s.ledger.store, Key(me.prepared.call), s.ledger.clock)
    requires Run(cfg, mid).Some? && Worked(s, Run(cfg, mid).value, me, ret, sent)
    ensures Run(cfg, after).Some?
    ensures var key, p := Key(me.prepared.call), me.prepared;
            Ends(s, Run(cfg, after).value,
                 CompleteState(EnterState(s.ledger.store, key, s.ledger.clock), |s.ledger.store.heap|, key, ret, later,
                               cfg.window),
                 Some(Respond(p.call, p.warnings, DoResult(ret.value, ret.err, false))), sent)
  {
    var c, id := |s.callers|, |s.ledger.store.heap|;
    var s2 := Run(cfg, mid).value;
    assert s2.callers[c] == me.(phase := Returning(id, ret)) && s2.callers[..c] == s.callers;
    assert s2.ledger.info[id] == L.Running(Key(me.prepared.call), c, s.ledger.clock);
    after := FinishInMachine(cfg, mid, c, later);
  }

  /** What the store, the reply and the sent requests of an uninterrupted mutation are, from the store it finds. */
  ghost predicate MutationEffect(st: StoreState, st': StoreState, call: ActionCall, warnings: seq<Warning>,
                                 getAnswer: HttpReply, postAnswer: HttpReply, now: int, later: int, window: int,
                                 reply: Option<Reply>, sent: seq<Sent>)
    requires WellFormed(st)
  {
    var id := EnterId(st, Key(call), now);
    if Joins(st, Key(call), now) then
      && st' == st && sent == []
      && reply == if st.heap[id].done then
           Some(Respond(call, warnings, DoResult(st.heap[id].value, st.heap[id].err, true))) else None
    else
      var ret := ClosureReturn(call, getAnswer, postAnswer);
      && st' == CompleteState(EnterState(st, Key(call), now), id, Key(call), ret, later, window)
      && reply == Some(Respond(call, warnings, DoResult(ret.value, ret.err, false)))
      && sent == ClosureSent(call, getAnswer)
  }

  lemma MutationInMachine(cfg: Config, before: seq<Step>, ready: bool, request: ChatRequest, selection: Selection,
                          getAnswer: HttpReply, postAnswer: HttpReply, later: int, st': StoreState,
                          reply: Option<Reply>, sent: seq<Sent>)
    returns (after: seq<Step>)
    requires Run(cfg, before).Some? && L.Shape(Run(cfg, before).value.ledger)
             && Run(cfg, before).value.ledger.clock <= later
    requires Prepare(cfg, ready, request, selection).Proceed?
             && Prepare(cfg, ready, request, selection).call.action != Get
    requires var l := Run(cfg, before).value.ledger;
             var p := Prepare(cfg, ready, request, selection);
             MutationEffect(l.store, st', p.call, p.warnings, getAnswer, postAnswer, l.clock, later, cfg.window,
                            reply, sent)
    ensures Run(cfg, after).Some? && Ends(Run(cfg, before).value, Run(cfg, after).value, st', reply, sent)
  {
    var l := Run(cfg, before).value.ledger;
    if Joins(l.store, Key(Prepare(cfg, ready, request, selection).call), l.clock) {
      after := FollowerInMachine(cfg, before, ready, request, selection);
    } else {
      after := LeaderInMachine(cfg, before, ready, request, selection, getAnswer, postAnswer, later);
    }
  }

  /** The unlocked closure and the second critical section of a leader. */
  method Lead(store: Store, call: ActionCall, e: Entry, ghost id: nat, getAnswer: HttpReply, postAnswer: HttpReply,
              later: int)
    returns (ret: Return, sent: seq<Sent>)
    requires store.Valid() && call.action != Get
    requires id < |store.cells| && store.cells[id] == e && !e.done
    modifies store, e
    ensures store.Valid() && ret == ClosureReturn(call, getAnswer, postAnswer)
    ensures store.model == CompleteState(old(store.model), id, Key(call), ret, later, store.window)
    ensures sent == ClosureSent(call, getAnswer)
  {
    ret, sent := Closure(call, getAnswer, postAnswer);
    store.Finish(id, e, Key(call), ret, later);
  }

  /** `Do` and the response, for a mutation nobody interrupts; None when it would block on an entry in flight. */
  method Deduplicated(store: Store, call: ActionCall, warnings: seq<Warning>,
                      getAnswer: HttpReply, postAnswer: HttpReply, now: int, later: int)
    returns (reply: Option<Reply>, sent: seq<Sent>)
    requires store.Valid() && call.action != Get
    modifies store
    ensures store.Valid()
    ensures MutationEffect(old(store.model), store.model, call, warnings, getAnswer, postAnswer, now, later,
                           store.window, reply, sent)
  {
    ghost var id := EnterId(store.model, Key(call), now);
    var joined, e := store.Enter(Key(call), now);
    if joined {
      if !e.done {
        return None, [];
      }
      return Some(Respond(call, warnings, DoResult(e.value, e.err, true))), [];
    }
    var ret;
    ret, sent := Lead(store, call, e, id, getAnswer, postAnswer, later);
    reply := Some(Respond(call, warnings, DoResult(ret.value, ret.err, false)));
  }

  /**
   The whole call, when no other caller's step falls inside it: `now` is the time of its first critical
   section and `later` of its second. None means that it would block on an entry still in flight.
   The store it leaves, its reply and what it sends are those of a machine run that extends the given one.
   */
  method Complete(cfg: Config, store: Store, ready: bool, request: ChatRequest, selection: Selection,
                  getAnswer: HttpReply, postAnswer: HttpReply, now: int, later: int, ghost before: seq<Step>)
    returns (reply: Option<Reply>, sent: seq<Sent>, ghost after: seq<Step>)
    requires store.Valid() && store.window == cfg.window && now <= later
    requires Run(cfg, before).Some? && L.Shape(Run(cfg, before).value.ledger)
    requires Run(cfg, before).value.ledger.store == store.model && Run(cfg, before).value.ledger.clock == now
    modifies store
    ensures store.Valid()
    ensures Run(cfg, after).Some? && Ends(Run(cfg, before).value, Run(cfg, after).value, store.model, reply, sent)
  {
    var p := PrepareCall(cfg, ready, request, selection);
    if p.Rejected? {
      after := RejectionInMachine(cfg, before, ready, request, selection);
      return Some(Refused(p.error)), [], after;
    }
    if p.call.action == Get {
      var vm := GetVM(p.call.vmid, getAnswer);
      after := QueryInMachine(cfg, before, ready, request, selection, getAnswer);
      return Some(QueryReply(p.call, p.warnings, vm)), [SentGet(p.call.vmid)], after;
    }
    reply, sent := Deduplicated(store, p.call, p.warnings, getAnswer, postAnswer, now, later);
    after := MutationInMachine(cfg, before, ready, request, selection, getAnswer, postAnswer, later, store.model,
                               reply, sent);
  }
}
