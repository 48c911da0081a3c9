/** Earlier messages, client tools and sampling settings change nothing but the warnings. */
module ServiceHistory {
  import opened ChatInput
  import opened Service

  /** The same step, up to what an arriving request says beyond its model and final message. */
  predicate Twins(a: Step, b: Step) {
    if a.Arrive? && b.Arrive? then
      a.ready == b.ready && a.selection == b.selection && SameFinalMessage(a.request, b.request)
    else a == b
  }

  function QuietReply(r: Reply): Reply {
    if r.Completed? then r.(warnings := []) else r
  }

  function QuietPhase(p: Phase): Phase {
    if p.Replied? then p.(reply := QuietReply(p.reply)) else p
  }

  function QuietPrepared(p: Prepared): Prepared {
    if p.Proceed? then p.(warnings := []) else p
  }

  /** Two callers that differ at most in their request's history and their warnings. */
  predicate AlikeCallers(a: Caller, b: Caller) {
    && a.selection == b.selection
    && QuietPrepared(a.prepared) == QuietPrepared(b.prepared)
    && QuietPhase(a.phase) == QuietPhase(b.phase)
  }

  predicate Alike(s: State, t: State) {
    && s.ledger == t.ledger && s.log == t.log
    && |s.callers| == |t.callers|
    && forall c | 0 <= c < |s.callers| :: AlikeCallers(s.callers[c], t.callers[c])
  }

  /** The selector is sent the same text, and the outcome of preparation is the same up to warnings. */
  lemma PreparationIgnoresHistory(cfg: Config, ready: bool, r1: ChatRequest, r2: ChatRequest, selection: Selection)
    requires SameFinalMessage(r1, r2)
    ensures InputOf(cfg, ready, r1) == InputOf(cfg, ready, r2)
    ensures QuietPrepared(Prepare(cfg, ready, r1, selection)) == QuietPrepared(Prepare(cfg, ready, r2, selection))
  {
    OnlyTheFinalMessageCounts(r1, r2, cfg.maxMessage);
  }

  lemma ArrivalIgnoresHistory(cfg: Config, s: State, t: State, a: Step, b: Step)
    requires Alike(s, t) && Twins(a, b) && Enabled(s, a) && a.Arrive?
    ensures Enabled(t, b) && Alike(Apply(cfg, s, a), Apply(cfg, t, b))
  {
    PreparationIgnoresHistory(cfg, a.ready, a.request, b.request, a.selection);
    var n := |s.callers|;
    var s', t' := Apply(cfg, s, a), Apply(cfg, t, b);
    assert AlikeCallers(s'.callers[n], t'.callers[n]);
    assert forall c | 0 <= c < n :: s'.callers[c] == s.callers[c] && t'.callers[c] == t.callers[c];
  }

  lemma StepIgnoresHistory(cfg: Config, s: State, t: State, a: Step, b: Step)
    requires Alike(s, t) && Twins(a, b) && Enabled(s, a)
    ensures Enabled(t, b) && Alike(Apply(cfg, s, a), Apply(cfg, t, b))
  {
    if a.Arrive? {
      ArrivalIgnoresHistory(cfg, s, t, a, b);
    } else if !a.Elapse? {
      assert AlikeCallers(s.callers[a.c], t.callers[a.c]);
      assert Enabled(t, b) && QuietPhase(NextPhase(s, a)) == QuietPhase(NextPhase(t, b));
    }
  }

  /**
   Non-interference: two runs whose requests differ only in history take the same steps, send the same
   GETs and POSTs at the same times, leave the same store, and give replies that differ at most in warnings.
   */
  lemma {:induction false} HistoryDoesNotInterfere(cfg: Config, steps1: seq<Step>, steps2: seq<Step>)
    requires |steps1| == |steps2| && forall n | 0 <= n < |steps1| :: Twins(steps1[n], steps2[n])
    requires Run(cfg, steps1).Some?
    ensures Run(cfg, steps2).Some? && Alike(Run(cfg, steps1).value, Run(cfg, steps2).value)
  {
    if steps1 != [] {
      var n := |steps1| - 1;
      HistoryDoesNotInterfere(cfg, steps1[..n], steps2[..n]);
      StepIgnoresHistory(cfg, Run(cfg, steps1[..n]).value, Run(cfg, steps2[..n]).value, steps1[n], steps2[n]);
    }
  }
}
