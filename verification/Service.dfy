/**
 Any number of concurrent `Complete` calls (internal/managed/service.go) over one store, as atomic
 steps. The model's reply, the readiness flag, every upstream answer, cancellation and the clock are
 chosen by the environment. The log records every GET and POST in the order they happen.
 */
module Service {
  import opened Common
  import opened Decimal
  import opened Tools
  import opened Api
  import opened ChatInput
  import opened Safety
  import opened Validate
  import opened Infra
  import opened DedupStore
  import L = DedupLedger

  datatype Config = Config(modelId: string, maxMessage: nat, allowForceStop: bool, window: int)

  // ---- Before the store: readiness, extraction, analysis, selection, validation ----

  /** What the selector gives back for the text it is sent. */
  datatype Selection = Selected(call: ToolCall) | NotSelected(error: ApiError)

  datatype Prepared = Rejected(error: ApiError) | Proceed(call: ActionCall, warnings: seq<Warning>)

  /** The input as the selector and the validator see it, or the error that stops the request before them. */
  function InputOf(cfg: Config, ready: bool, request: ChatRequest): Result<Input, ApiError> {
    if !ready then Err(ApiError(ModelNotReady, 503))
    else
      var extracted := Extract(request, cfg.maxMessage);
      if extracted.Err? then Err(extracted.error)
      else if request.model != cfg.modelId then Err(ApiError(ModelNotFound, 404))
      else Analyze(extracted.value.original)
  }

  function Prepare(cfg: Config, ready: bool, request: ChatRequest, selection: Selection): Prepared {
    var input := InputOf(cfg, ready, request);
    if input.Err? then Rejected(input.error)
    else if selection.NotSelected? then Rejected(selection.error)
    else
      var validated := Validated(input.value, selection.call, cfg.allowForceStop);
      if validated.Err? then Rejected(validated.error) else Proceed(validated.value, Warnings(request))
  }

  // ---- The closure given to the store ----

  function Key(call: ActionCall): string {
    ActionName(call.action) + ":" + Format(call.vmid)
  }

  function Failed(e: InfraError, policy: Policy): Return {
    Return(ErrorValue(e), policy, Some(Upstream(e)))
  }

  datatype AfterGet = Mutable(vm: VM) | Settled(ret: Return)

  function CheckGet(call: ActionCall, answer: Result<VM, InfraError>): AfterGet {
    match answer
    case Err(e) => Settled(Failed(e, DoNotCache))
    case Ok(vm) =>
      match CheckState(call.action, vm.status, call.vmid)
      case Execute => Mutable(vm)
      case Refuse(m) => Settled(Return(ExecutionValue(Execution(m, Some(vm), 0, false)), Cache, None))
  }

  function PostReturn(call: ActionCall, outcome: Result<int, InfraError>): Return {
    match outcome
    case Err(e) => Failed(e, if e.unknown then Cache else DoNotCache)
    case Ok(status) => Return(ExecutionValue(Execution(Submitted(call.action, call.vmid), None, status, true)), Cache,
                              None)
  }

  // ---- The response ----

  datatype Reply =
    | Completed(call: ActionCall, message: Notice, executed: bool, deduplicated: bool, upstreamStatus: int,
                vm: Option<VM>, warnings: seq<Warning>)
    | Refused(error: ApiError)
    | CastPanic

  /** The tail of `Complete` after `Do` has returned; the cast of the value panics unless it is an execution. */
  function Respond(call: ActionCall, warnings: seq<Warning>, r: DoResult): Reply {
    match r.err
    case Some(Upstream(e)) => Refused(ToApiError(e))
    case Some(ContextDone) => Refused(ApiError(UpstreamRequestFailed, 502))
    case None =>
      if r.value.ExecutionValue? then
        var x := r.value.x;
        Completed(call, x.message, x.executed && !r.deduplicated, r.deduplicated, x.upstreamStatus, x.vm, warnings)
      else CastPanic
  }

  function QueryReply(call: ActionCall, warnings: seq<Warning>, answer: Result<VM, InfraError>): Reply {
    match answer
    case Err(e) => Refused(ToApiError(e))
    case Ok(vm) => Completed(call, Report(vm.vmid, vm.name, vm.status, vm.uptime), false, false, 200, Some(vm),
                             warnings)
  }

  // ---- The machine ----

  /** How a caller came to its reply: without the store, as the leader of a run, or as a follower of one. */
  datatype Origin = Direct | LeaderOf(run: nat) | FollowerOf(run: nat)

  datatype Phase =
    | Querying
    | Entering
    | Getting(id: nat)
    | Posting(id: nat, vm: VM)
    | Returning(id: nat, ret: Return)
    | Waiting(id: nat)
    | Replied(origin: Origin, result: Option<DoResult>, reply: Reply)

  datatype Caller = Caller(ready: bool, request: ChatRequest, selection: Selection, prepared: Prepared, phase: Phase)

  datatype Effect =
    | Got(caller: nat, vmid: nat, answer: Result<VM, InfraError>, time: int)
    | Posted(caller: nat, run: nat, call: ActionCall, outcome: Result<int, InfraError>, time: int)

  datatype State = State(ledger: L.Ledger, callers: seq<Caller>, log: seq<Effect>)

  datatype Step =
    | Arrive(ready: bool, request: ChatRequest, selection: Selection)
    | Query(c: nat, answer: HttpReply)
    | EnterStore(c: nat)
    | GetState(c: nat, answer: HttpReply)
    | Post(c: nat, answer: HttpReply)
    | FinishRun(c: nat)
    | Wake(c: nat)
    | Cancel(c: nat)
    | Elapse(to: int)

  const INITIAL: State := State(L.INITIAL, [], [])

  function FirstPhase(p: Prepared): Phase {
    match p
    case Rejected(e) => Replied(Direct, None, Refused(e))
    case Proceed(call, _) => if call.action == Get then Querying else Entering
  }

  /** The store event a step performs, if it touches the store or the clock. */
  function EventOf(s: State, step: Step): Option<L.Event> {
    match step
    case EnterStore(c) =>
      if c < |s.callers| && s.callers[c].prepared.Proceed? then Some(L.Enter(c, Key(s.callers[c].prepared.call)))
      else None
    case FinishRun(c) =>
      if c < |s.callers| && s.callers[c].phase.Returning?
      then Some(L.Complete(s.callers[c].phase.id, s.callers[c].phase.ret))
      else None
    case Wake(c) =>
      if c < |s.callers| && s.callers[c].phase.Waiting? then Some(L.Read(s.callers[c].phase.id)) else None
    case Elapse(to) => Some(L.Tick(to))
    case _ => None
  }

  predicate InPhase(s: State, step: Step) {
    match step
    case Arrive(_, _, _) => true
    case Elapse(_) => true
    case Query(c, _) => c < |s.callers| && s.callers[c].prepared.Proceed? && s.callers[c].phase.Querying?
    case EnterStore(c) => c < |s.callers| && s.callers[c].prepared.Proceed? && s.callers[c].phase.Entering?
    case GetState(c, _) => c < |s.callers| && s.callers[c].prepared.Proceed? && s.callers[c].phase.Getting?
    case Post(c, _) => c < |s.callers| && s.callers[c].prepared.Proceed? && s.callers[c].phase.Posting?
    case FinishRun(c) => c < |s.callers| && s.callers[c].prepared.Proceed? && s.callers[c].phase.Returning?
    case Wake(c) => c < |s.callers| && s.callers[c].prepared.Proceed? && s.callers[c].phase.Waiting?
    case Cancel(c) => c < |s.callers| && s.callers[c].prepared.Proceed? && s.callers[c].phase.Waiting?
  }

  predicate Enabled(s: State, step: Step) {
    && L.Shape(s.ledger)
    && InPhase(s, step)
    && (EventOf(s, step).Some? ==> L.Enabled(s.ledger, EventOf(s, step).value))
  }

  function NextLedger(cfg: Config, s: State, step: Step): L.Ledger
    requires Enabled(s, step)
  {
    var ev := EventOf(s, step);
    if ev.Some? then L.Apply(cfg.window, s.ledger, ev.value) else s.ledger
  }

  /** The phase a caller goes to. */
  function NextPhase(s: State, step: Step): Phase
    requires Enabled(s, step) && !step.Arrive? && !step.Elapse?
  {
    var me := s.callers[step.c];
    var call, warnings := me.prepared.call, me.prepared.warnings;
    var st, now := s.ledger.store, s.ledger.clock;
    match step
    case Query(_, answer) => Replied(Direct, None, QueryReply(call, warnings, GetVM(call.vmid, answer)))
    case EnterStore(_) =>
      var id := EnterId(st, Key(call), now);
      if Joins(st, Key(call), now) then Waiting(id) else Getting(id)
    case GetState(_, answer) =>
      (match CheckGet(call, GetVM(call.vmid, answer))
       case Mutable(vm) => Posting(me.phase.id, vm)
       case Settled(ret) => Returning(me.phase.id, ret))
    case Post(_, answer) => Returning(me.phase.id, PostReturn(call, Mutate(call.action, answer)))
    case FinishRun(_) =>
      var result := DoResult(me.phase.ret.value, me.phase.ret.err, false);
      Replied(LeaderOf(me.phase.id), Some(result), Respond(call, warnings, result))
    case Wake(_) =>
      var cell := st.heap[me.phase.id];
      var result := DoResult(cell.value, cell.err, true);
      Replied(FollowerOf(me.phase.id), Some(result), Respond(call, warnings, result))
    case Cancel(_) =>
      var result := DoResult(Nil, Some(ContextDone), true);
      Replied(FollowerOf(me.phase.id), Some(result), Respond(call, warnings, result))
  }

  /** The request a step sends upstream, with its classified answer. */
  function EffectsOf(s: State, step: Step): seq<Effect>
    requires Enabled(s, step)
  {
    match step
    case Query(c, answer) =>
      var call := s.callers[c].prepared.call;
      [Got(c, call.vmid, GetVM(call.vmid, answer), s.ledger.clock)]
    case GetState(c, answer) =>
      var call := s.callers[c].prepared.call;
      [Got(c, call.vmid, GetVM(call.vmid, answer), s.ledger.clock)]
    case Post(c, answer) =>
      var call := s.callers[c].prepared.call;
      [Posted(c, s.callers[c].phase.id, call, Mutate(call.action, answer), s.ledger.clock)]
    case _ => []
  }

  function NextCallers(cfg: Config, s: State, step: Step): seq<Caller>
    requires Enabled(s, step)
  {
    match step
    case Arrive(ready, request, selection) =>
      var p := Prepare(cfg, ready, request, selection);
      s.callers + [Caller(ready, request, selection, p, FirstPhase(p))]
    case Elapse(_) => s.callers
    case _ => s.callers[step.c := s.callers[step.c].(phase := NextPhase(s, step))]
  }

  function Apply(cfg: Config, s: State, step: Step): State
    requires Enabled(s, step)
  {
    State(NextLedger(cfg, s, step), NextCallers(cfg, s, step), s.log + EffectsOf(s, step))
  }

  /** The state after a list of steps, if each was enabled in turn. */
  function Run(cfg: Config, steps: seq<Step>): Option<State> {
    if steps == [] then Some(INITIAL)
    else
      var n := |steps| - 1;
      var before := Run(cfg, steps[..n]);
      if before.Some? && Enabled(before.value, steps[n]) then Some(Apply(cfg, before.value, steps[n])) else None
  }

  // ---- The machine drives the store ----

  /** The store events of a run. */
  function EventsOf(cfg: Config, steps: seq<Step>): seq<L.Event> {
    if steps == [] then []
    else
      var n := |steps| - 1;
      var before := Run(cfg, steps[..n]);
      EventsOf(cfg, steps[..n]) +
      (if before.Some? && EventOf(before.value, steps[n]).Some? then [EventOf(before.value, steps[n]).value] else [])
  }

  /** The store's part of every run of the service is a run of the store, so the store's theorems hold in it. */
  lemma {:induction false} ServiceRunsTheStore(cfg: Config, steps: seq<Step>)
    requires Run(cfg, steps).Some?
    ensures L.Run(cfg.window, EventsOf(cfg, steps)) == Some(Run(cfg, steps).value.ledger)
  {
    if steps != [] {
      var n := |steps| - 1;
      ServiceRunsTheStore(cfg, steps[..n]);
      var before := Run(cfg, steps[..n]).value;
      var events := EventsOf(cfg, steps);
      if EventOf(before, steps[n]).Some? {
        assert events[..|events| - 1] == EventsOf(cfg, steps[..n]);
      } else {
        assert events == EventsOf(cfg, steps[..n]);
      }
    }
  }

  // ---- Keys ----

  /** The string key is injective: two calls share a key only when action and VM agree. */
  lemma KeyIsInjective(a: ActionCall, b: ActionCall)
    requires Key(a) == Key(b)
    ensures a == b
  {
    var m, n := |ActionName(a.action)|, |ActionName(b.action)|;
    KeySplits(a);
    KeySplits(b);
    assert Key(a)[m] == ':' && Key(b)[m] == ':';
    assert Key(a)[m + 1..] == Format(a.vmid) && Key(b)[n + 1..] == Format(b.vmid);
    FormatIsInjective(a.vmid, b.vmid);
    NamesDifferInLength(a.action, b.action);
  }

  lemma KeySplits(a: ActionCall)
    ensures forall i | 0 <= i < |Key(a)| :: Key(a)[i] == ':' <==> i == |ActionName(a.action)|
  {
    var m := |ActionName(a.action)|;
    assert forall i | 0 <= i < m :: ActionName(a.action)[i] != ':';
    assert forall i | 0 <= i < |Format(a.vmid)| :: IsDigit(Format(a.vmid)[i]) && Key(a)[m + 1 + i] == Format(a.vmid)[i];
  }

  lemma NamesDifferInLength(a: Action, b: Action)
    requires |ActionName(a)| == |ActionName(b)|
    ensures a == b
  {
  }
}
