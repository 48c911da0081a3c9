/** What every run of the service guarantees, for any number of concurrent requests and any environment. */
module ServiceTheorems {
  import opened Common
  import opened Text
  import opened Tools
  import opened ChatInput
  import opened Validate
  import opened Gate
  import opened Rules
  import opened RuleProofs
  import opened Infra
  import opened DedupStore
  import opened Service
  import opened ServiceInvariant
  import opened ServicePrepare
  import Rate

  // ---- Every POST is one the user's own words ask for ----

  /**
   What must be true of a request before a mutation may be sent for it, in terms of its final message alone: that
   it is a user's text within the limit, and that the written rules grant the call.
   */
  ghost predicate Warranted(cfg: Config, request: ChatRequest, call: ActionCall) {
    && request.model == cfg.modelId
    && call.action != Get && (call.action == Stop ==> cfg.allowForceStop)
    && exists text :: Readable(cfg, request, text) && Grants(TrimSpace(text), call.action, call.vmid)
  }

  lemma PreparedMutationIsWarranted(cfg: Config, ready: bool, request: ChatRequest, selection: Selection)
    requires Prepare(cfg, ready, request, selection).Proceed?
    requires Prepare(cfg, ready, request, selection).call.action != Get
    ensures ready && Warranted(cfg, request, Prepare(cfg, ready, request, selection).call)
  {
    var p := Prepare(cfg, ready, request, selection);
    ProceedsIff(cfg, ready, request, selection, p.call, p.warnings);
  }

  /**
   Trace safety: in every interleaving, a POST is made for a warranted request, by the leader of its run,
   and the caller's latest effect before it was a GET of the same VM that found the required state.
   */
  lemma EveryPostIsWarranted(cfg: Config, steps: seq<Step>, q: nat)
    requires cfg.window > 0 && Run(cfg, steps).Some?
    requires q < |Run(cfg, steps).value.log| && Run(cfg, steps).value.log[q].Posted?
    ensures var s := Run(cfg, steps).value;
            var e := s.log[q];
            && e.caller < |s.callers|
            && e.run < |s.ledger.info| && s.ledger.info[e.run].leader == e.caller
            && Warranted(cfg, s.callers[e.caller].request, e.call)
            && Grounded(s.log, q, e.caller, e.call)
  {
    RunKeepsInv(cfg, steps);
    var s := Run(cfg, steps).value;
    assert PostInv(s, q);
    var c := s.callers[s.log[q].caller];
    PreparedMutationIsWarranted(cfg, c.ready, c.request, c.selection);
  }

  /** The trimmed text of a request's last message. */
  function FinalTextOf(request: ChatRequest): string {
    if request.messages == [] then ""
    else
      var text := FinalText(request.messages[|request.messages| - 1].content);
      if text.Some? then TrimSpace(text.value) else ""
  }

  /** A restart that names a second action, all markers of which go when the restart markers are removed. */
  predicate SplicedRestart(t: string, a: Action) {
    a == Reboot && OnlyRestartMarkers(t) && NothingLeft(t, Reboot)
  }

  /** No POST is made for a text with a condition, batch or sequence marker, or with a negation. */
  lemma PostsAreUnconditional(cfg: Config, steps: seq<Step>, q: nat)
    requires cfg.window > 0 && Run(cfg, steps).Some?
    requires q < |Run(cfg, steps).value.log| && Run(cfg, steps).value.log[q].Posted?
    ensures var s := Run(cfg, steps).value;
            && s.log[q].caller < |s.callers|
            && var t := FinalTextOf(s.callers[s.log[q].caller].request);
               && !Contains(t, "如果") && !Contains(t, "假如") && !Contains(t, "要是")
               && !Contains(t, "确认后") && !Contains(t, "完成后")
               && !Contains(t, "全部") && !Contains(t, "所有") && !Contains(t, "分别")
               && !Contains(t, "依次") && !Contains(t, "然后") && !Contains(t, "接着")
               && !(Contains(t, "等") && Contains(t, "再"))
               && !Contains(t, "不要") && !Contains(t, "别") && !Contains(t, "禁止") && !Contains(t, "取消")
               && !Contains(t, "无需") && !Contains(t, "不允许") && !Contains(t, "不是") && !Contains(t, "没有")
               && !Contains(t, "没开")
  {
    EveryPostIsWarranted(cfg, steps, q);
    var s := Run(cfg, steps).value;
    WarrantedTextIsGranted(cfg, s.callers[s.log[q].caller].request, s.log[q].call);
  }

  lemma WarrantedTextIsGranted(cfg: Config, request: ChatRequest, call: ActionCall)
    requires Warranted(cfg, request, call)
    ensures Grants(FinalTextOf(request), call.action, call.vmid) && call.action != Get
  {
  }

  /** Before every POST its caller's latest effect is a GET that found the state the action needs. */
  lemma PostsFollowTheirGet(cfg: Config, steps: seq<Step>, q: nat) returns (p: nat)
    requires cfg.window > 0 && Run(cfg, steps).Some?
    requires q < |Run(cfg, steps).value.log| && Run(cfg, steps).value.log[q].Posted?
    ensures var log := Run(cfg, steps).value.log;
            && p < q && log[p].Got? && log[p].caller == log[q].caller && log[p].answer.Ok?
            && log[p].vmid == log[q].call.vmid == log[p].answer.value.vmid
            && (log[q].call.action == Start ==> log[p].answer.value.status == "stopped")
            && (log[q].call.action != Start ==> log[p].answer.value.status == "running")
            && forall r | p < r < q :: log[r].caller != log[q].caller
  {
    EveryPostIsWarranted(cfg, steps, q);
    var log := Run(cfg, steps).value.log;
    var i :| i < q && GotRequiredState(log, i, log[q].caller, log[q].call) && QuietBetween(log, log[q].caller, i, q);
    p := i;
  }

  lemma WarrantedNamesOneAction(cfg: Config, request: ChatRequest, call: ActionCall)
    requires Warranted(cfg, request, call)
    ensures forall b, m, i | NamesAt(FinalTextOf(request), b, m, i) ::
              b == call.action || SplicedRestart(FinalTextOf(request), call.action)
  {
    var t, a := FinalTextOf(request), call.action;
    GrantedIsSupported(t, a, call.vmid);
    SupportedCountIff(t, a);
    forall b, m, i | NamesAt(t, b, m, i) && b != a
      ensures SplicedRestart(t, a)
    {
      TwoActionsLeaveReboot(t, a, b, m, i);
    }
  }

  /** So every action that a POST's text names is the one posted, unless it is such a restart. */
  lemma PostNamesOneAction(cfg: Config, steps: seq<Step>, q: nat, b: Action, m: string, i: int)
    requires cfg.window > 0 && Run(cfg, steps).Some?
    requires q < |Run(cfg, steps).value.log| && Run(cfg, steps).value.log[q].Posted?
    ensures var s := Run(cfg, steps).value;
            var e := s.log[q];
            && e.caller < |s.callers|
            && var t := FinalTextOf(s.callers[e.caller].request);
               NamesAt(t, b, m, i) ==> b == e.call.action || SplicedRestart(t, e.call.action)
  {
    EveryPostIsWarranted(cfg, steps, q);
    var s := Run(cfg, steps).value;
    WarrantedNamesOneAction(cfg, s.callers[s.log[q].caller].request, s.log[q].call);
  }

  /** A caller sends at most one GET and at most one POST, the GET first. */
  lemma OneGetThenOnePost(cfg: Config, steps: seq<Step>, p: nat, q: nat)
    requires cfg.window > 0 && Run(cfg, steps).Some?
    requires p < q < |Run(cfg, steps).value.log|
    requires Run(cfg, steps).value.log[p].caller == Run(cfg, steps).value.log[q].caller
    ensures Run(cfg, steps).value.log[p].Got? && Run(cfg, steps).value.log[q].Posted?
  {
    RunKeepsInv(cfg, steps);
  }

  /** Whatever the model answers, two requests with one final message can only be executed as one and the same call. */
  lemma FinalMessageDecidesTheCall(cfg: Config, r1: ChatRequest, r2: ChatRequest, m1: Selection, m2: Selection)
    requires SameFinalMessage(r1, r2)
    requires Prepare(cfg, true, r1, m1).Proceed? && Prepare(cfg, true, r2, m2).Proceed?
    ensures Prepare(cfg, true, r1, m1).call == Prepare(cfg, true, r2, m2).call
  {
    OnlyTheFinalMessageCounts(r1, r2, cfg.maxMessage);
    var input := InputOf(cfg, true, r1).value;
    assert InputOf(cfg, true, r2).value == input;
    ExecutableActionIsUnique(input, m1.call, m2.call, cfg.allowForceStop, cfg.allowForceStop);
  }

  // ---- POSTs are spaced ----

  /** Of two POSTs for one action and VM, an accepted or unknown earlier one is at least a window before the later. */
  lemma PostsAreSpaced(cfg: Config, steps: seq<Step>, p: nat, q: nat)
    requires cfg.window > 0 && Run(cfg, steps).Some?
    requires var log := Run(cfg, steps).value.log;
             p < q < |log| && log[p].Posted? && log[q].Posted? && log[p].call == log[q].call && Sticky(log[p].outcome)
    ensures var log := Run(cfg, steps).value.log; log[p].time + cfg.window <= log[q].time
  {
    RunKeepsInv(cfg, steps);
    assert PostsSpaced(cfg, Run(cfg, steps).value, p, q);
  }

  /** The times of the accepted or unknown POSTs of a call within the closed interval. */
  function StickyPosts(log: seq<Effect>, call: ActionCall, from: int, to: int): seq<Option<int>> {
    seq(|log|, n requires 0 <= n < |log| =>
      var e := log[n];
      if e.Posted? && e.call == call && (e.outcome.Ok? || e.outcome.error.unknown) && from <= e.time <= to
      then Some(e.time) else None)
  }

  /** An interval of length t sees at most 1 + t / window possibly effective POSTs of one action on one VM. */
  lemma PostRateIsBounded(cfg: Config, steps: seq<Step>, call: ActionCall, from: int, t: nat)
    requires cfg.window > 0 && Run(cfg, steps).Some?
    ensures var log := Run(cfg, steps).value.log;
            |set q | 0 <= q < |log| && log[q].Posted? && log[q].call == call
                     && (log[q].outcome.Ok? || log[q].outcome.error.unknown) && from <= log[q].time <= from + t|
            <= 1 + t / cfg.window
  {
    var log := Run(cfg, steps).value.log;
    var marks := StickyPosts(log, call, from, from + t);
    forall i, j | 0 <= i < j < |marks| && marks[i].Some? && marks[j].Some?
      ensures marks[i].value + cfg.window <= marks[j].value
    {
      PostsAreSpaced(cfg, steps, i, j);
    }
    Rate.CountIsBounded(marks, cfg.window, from, t);
    assert (set q | 0 <= q < |marks| && marks[q].Some?) ==
           set q | 0 <= q < |log| && log[q].Posted? && log[q].call == call
                   && (log[q].outcome.Ok? || log[q].outcome.error.unknown) && from <= log[q].time <= from + t;
  }

  // ---- Results ----

  /** A follower that is not cancelled returns exactly its leader's value and error, marked as deduplicated. */
  lemma FollowersShareTheirLeadersResult(cfg: Config, steps: seq<Step>, c: nat)
    requires cfg.window > 0 && Run(cfg, steps).Some? && c < |Run(cfg, steps).value.callers|
    requires var p := Run(cfg, steps).value.callers[c].phase;
             p.Replied? && p.origin.FollowerOf? && p.result != Some(DoResult(Nil, Some(ContextDone), true))
    ensures var s := Run(cfg, steps).value;
            var p := s.callers[c].phase;
            && p.origin.run < |s.ledger.info|
            && var leader := s.ledger.info[p.origin.run].leader;
               && leader < |s.callers| && leader != c
               && s.callers[leader].phase.Replied? && s.callers[leader].phase.origin == LeaderOf(p.origin.run)
               && s.callers[leader].phase.result.Some? && !s.callers[leader].phase.result.value.deduplicated
               && p.result == Some(s.callers[leader].phase.result.value.(deduplicated := true))
               && s.callers[c].prepared.Proceed? && s.callers[leader].prepared.Proceed?
               && s.callers[c].prepared.call == s.callers[leader].prepared.call
  {
    RunKeepsInv(cfg, steps);
    var s := Run(cfg, steps).value;
    var id := s.callers[c].phase.origin.run;
    assert CallerInv(s, c);
    LeaderOfFinished(cfg, s, id);
    KeyIsInjective(s.callers[c].prepared.call, s.callers[s.ledger.info[id].leader].prepared.call);
  }

  /** Who led a finished run has replied with what it published. */
  lemma LeaderOfFinished(cfg: Config, s: State, id: nat)
    requires Inv(cfg, s) && id < |s.ledger.info| && s.ledger.info[id].Finished?
    ensures var i := s.ledger.info[id];
            && i.leader < |s.callers| && IsMutation(s.callers[i.leader])
            && i.key == Key(s.callers[i.leader].prepared.call)
            && s.callers[i.leader].phase.Replied? && s.callers[i.leader].phase.origin == LeaderOf(id)
            && s.callers[i.leader].phase.result == Some(DoResult(i.ret.value, i.ret.err, false))
  {
    assert RunInv(s, id);
    assert CallerInv(s, s.ledger.info[id].leader);
  }

  /** What a reply may say about its own request. */
  ghost predicate Faithful(s: State, c: nat)
    requires c < |s.callers| && s.callers[c].phase.Replied? && s.callers[c].phase.reply.Completed?
  {
    var me := s.callers[c];
    var r := me.phase.reply;
    && me.prepared.Proceed? && r.call == me.prepared.call
    && (r.call.action == Get ==> r.message.Report? && r.message.vmid == r.call.vmid)
    && (r.call.action != Get ==>
          || r.message == Submitted(r.call.action, r.call.vmid)
          || (r.message.AlreadyIn? && r.message.action == r.call.action && r.message.vmid == r.call.vmid
              && r.message.status != (if r.call.action == Start then "stopped" else "running")))
    && (r.executed ==>
          && !r.deduplicated && r.upstreamStatus == 202
          && exists q :: 0 <= q < |s.log| && s.log[q].Posted? && s.log[q].caller == c && s.log[q].call == r.call
                         && s.log[q].outcome.Ok?)
  }

  /** The value that reaches a reply fits the caller's own call, whoever produced it. */
  lemma ResultFits(cfg: Config, s: State, c: nat, id: nat)
    requires Inv(cfg, s) && c < |s.callers| && IsMutation(s.callers[c]) && SharesKey(s, c, id)
             && s.ledger.info[id].Finished?
    ensures ReturnFits(s.callers[c].prepared.call, s.ledger.info[id].ret)
  {
    assert RunInv(s, id);
    KeyIsInjective(s.callers[c].prepared.call, s.callers[s.ledger.info[id].leader].prepared.call);
  }

  ghost predicate ReplyIsFaithful(s: State, c: nat)
    requires c < |s.callers| && s.callers[c].phase.Replied?
  {
    !s.callers[c].phase.reply.CastPanic? && (s.callers[c].phase.reply.Completed? ==> Faithful(s, c))
  }

  lemma LeaderIsFaithful(cfg: Config, s: State, c: nat)
    requires Inv(cfg, s) && c < |s.callers| && s.callers[c].phase.Replied? && s.callers[c].phase.origin.LeaderOf?
    ensures ReplyIsFaithful(s, c)
  {
    var id := s.callers[c].phase.origin.run;
    assert CallerInv(s, c) && RunInv(s, id);
    forall q | 0 <= q < |s.log| && s.log[q].Posted? && s.log[q].caller == c
      ensures s.log[q].call == s.callers[c].prepared.call
    {
      assert PostInv(s, q);
    }
  }

  lemma FollowerIsFaithful(cfg: Config, s: State, c: nat)
    requires Inv(cfg, s) && c < |s.callers| && s.callers[c].phase.Replied? && s.callers[c].phase.origin.FollowerOf?
    ensures ReplyIsFaithful(s, c)
  {
    var id := s.callers[c].phase.origin.run;
    assert CallerInv(s, c);
    if s.ledger.info[id].Finished? {
      ResultFits(cfg, s, c, id);
    }
  }

  /**
   The cast of the stored value never fails, and every successful reply, first-hand or deduplicated, is
   about the caller's own action and VM; it claims execution only for the caller's own accepted POST.
   */
  lemma RepliesAreFaithful(cfg: Config, steps: seq<Step>, c: nat)
    requires cfg.window > 0 && Run(cfg, steps).Some? && c < |Run(cfg, steps).value.callers|
    requires Run(cfg, steps).value.callers[c].phase.Replied?
    ensures var s := Run(cfg, steps).value;
            !s.callers[c].phase.reply.CastPanic? && (s.callers[c].phase.reply.Completed? ==> Faithful(s, c))
  {
    RunKeepsInv(cfg, steps);
    var s := Run(cfg, steps).value;
    match s.callers[c].phase.origin
    case Direct => assert CallerInv(s, c);
    case LeaderOf(_) => LeaderIsFaithful(cfg, s, c);
    case FollowerOf(_) => FollowerIsFaithful(cfg, s, c);
  }

  /** A return that agrees with the log fails exactly when an upstream answer did, and with that error. */
  lemma FailureMatchesLog(log: seq<Effect>, c: nat, call: ActionCall, ret: Return)
    requires ReturnAgrees(log, c, call, ret)
    ensures ret.value.ErrorValue? <==> exists e :: FailedWith(log, c, e)
    ensures forall e | FailedWith(log, c, e) :: ret == Failed(e, ret.policy)
  {
    forall e | FailedWith(log, c, e)
      ensures ret == Failed(e, ret.policy)
    {
      var q :| 0 <= q < |log| && log[q].caller == c && ErrorOf(log[q]) == Some(e);
    }
  }

  ghost predicate PostedWithUnknownOutcome(log: seq<Effect>, c: nat) {
    exists q :: 0 <= q < |log| && log[q].caller == c && log[q].Posted? && log[q].outcome.Err?
        && log[q].outcome.error.unknown
  }

  lemma KeptFailureMatchesLog(log: seq<Effect>, c: nat, call: ActionCall, ret: Return)
    requires ReturnAgrees(log, c, call, ret) && ret.value.ErrorValue?
    ensures ret.policy == Cache <==> PostedWithUnknownOutcome(log, c)
  {
    var q :| 0 <= q < |log| && log[q].caller == c && ErrorOf(log[q]) == Some(ret.value.e);
    assert log[q].Posted? ==> ret == PostReturn(call, log[q].outcome);
  }

  /**
   Failures are reported as they happened: a leader is refused exactly when its own GET or POST failed,
   with that error; and a failure is kept for later callers only when a POST's outcome is unknown.
   */
  lemma FailuresAreHonest(cfg: Config, steps: seq<Step>, c: nat)
    requires cfg.window > 0 && Run(cfg, steps).Some? && c < |Run(cfg, steps).value.callers|
    requires Run(cfg, steps).value.callers[c].phase.Replied? && Run(cfg, steps).value.callers[c].phase.origin.LeaderOf?
    ensures var s := Run(cfg, steps).value;
            var p := s.callers[c].phase;
            && (p.reply.Refused? <==> exists e :: FailedWith(s.log, c, e))
            && (forall e | FailedWith(s.log, c, e) :: p.reply == Refused(ToApiError(e)))
            && p.origin.run < |s.ledger.info| && s.ledger.info[p.origin.run].Finished?
            && (p.reply.Refused? ==>
                  (s.ledger.info[p.origin.run].ret.policy == Cache <==> PostedWithUnknownOutcome(s.log, c)))
  {
    RunKeepsInv(cfg, steps);
    var s := Run(cfg, steps).value;
    var id := s.callers[c].phase.origin.run;
    assert CallerInv(s, c) && RunInv(s, id);
    var call, ret := s.callers[c].prepared.call, s.ledger.info[id].ret;
    FailureMatchesLog(s.log, c, call, ret);
    if ret.value.ErrorValue? {
      KeptFailureMatchesLog(s.log, c, call, ret);
    }
  }

  // ---- Conservation of the executed flag ----

  /** The callers whose reply claims execution. */
  function Claimants(s: State): set<nat> {
    set c | 0 <= c < |s.callers| && s.callers[c].phase.Replied? && s.callers[c].phase.reply.Completed?
            && s.callers[c].phase.reply.executed
  }

  /** The accepted POSTs whose sender has replied. */
  function Acceptances(s: State): set<nat> {
    set q | 0 <= q < |s.log| && s.log[q].Posted? && s.log[q].outcome.Ok?
            && s.log[q].caller < |s.callers| && s.callers[s.log[q].caller].phase.Replied?
  }

  lemma AcceptanceIsClaimed(cfg: Config, s: State, q: nat)
    requires Inv(cfg, s) && q in Acceptances(s)
    ensures s.log[q].caller in Claimants(s)
  {
    var c, id := s.log[q].caller, s.log[q].run;
    assert PostInv(s, q) && RunInv(s, id) && CallerInv(s, c);
  }

  lemma ClaimIsAccepted(cfg: Config, s: State, c: nat) returns (q: nat)
    requires Inv(cfg, s) && c in Claimants(s)
    ensures q in Acceptances(s) && s.log[q].caller == c
  {
    assert CallerInv(s, c);
    assert s.callers[c].phase.origin.LeaderOf?;
    var id := s.callers[c].phase.origin.run;
    assert RunInv(s, id);
    assert s.ledger.info[id].ret.value.x.executed;
    q :| 0 <= q < |s.log| && s.log[q].caller == c && s.log[q].Posted? && s.log[q].outcome.Ok?;
  }

  /** When no caller sent two of them, the senders of a set of effects are as many as the effects. */
  lemma {:induction false} SendersAreAsMany(log: seq<Effect>, qs: set<nat>) returns (cs: set<nat>)
    requires forall q | q in qs :: q < |log|
    requires forall p, q | p in qs && q in qs && log[p].caller == log[q].caller :: p == q
    ensures |cs| == |qs| && forall c :: c in cs <==> exists q | q in qs :: log[q].caller == c
    decreases |qs|
  {
    if qs == {} {
      cs := {};
    } else {
      var q :| q in qs;
      var rest := SendersAreAsMany(log, qs - {q});
      cs := rest + {log[q].caller};
    }
  }

  /**
   Conservation: exactly one reply claims each accepted POST whose sender has replied, however many
   followers share it; so the replies with the executed flag are as many as those POSTs.
   */
  lemma ExecutionsAreConserved(cfg: Config, steps: seq<Step>)
    requires cfg.window > 0 && Run(cfg, steps).Some?
    ensures var s := Run(cfg, steps).value;
            && |Claimants(s)| == |Acceptances(s)|
            && (forall q | q in Acceptances(s) :: s.log[q].caller in Claimants(s))
            && (forall c | c in Claimants(s) :: exists q | q in Acceptances(s) :: s.log[q].caller == c)
            && (forall p, q | p in Acceptances(s) && q in Acceptances(s) && s.log[p].caller == s.log[q].caller ::
                p == q)
  {
    RunKeepsInv(cfg, steps);
    var s := Run(cfg, steps).value;
    forall q | q in Acceptances(s)
      ensures s.log[q].caller in Claimants(s)
    {
      AcceptanceIsClaimed(cfg, s, q);
    }
    forall c | c in Claimants(s)
      ensures exists q | q in Acceptances(s) :: s.log[q].caller == c
    {
      var q := ClaimIsAccepted(cfg, s, c);
    }
    var cs := SendersAreAsMany(s.log, Acceptances(s));
    assert cs == Claimants(s);
  }
}
