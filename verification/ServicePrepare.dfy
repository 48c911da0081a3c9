/** What happens to a request before the store and the upstream API are touched, outcome by outcome. */
module ServicePrepare {
  import opened Common
  import opened Text
  import opened Tools
  import opened Api
  import opened ChatInput
  import opened Safety
  import opened Validate
  import opened Gate
  import opened Rules
  import opened RuleProofs
  import opened Service

  /** The last message is a user's text, which is not empty when trimmed and within the limit. */
  ghost predicate Readable(cfg: Config, request: ChatRequest, text: string) {
    HasText(request, text) && 0 < |TrimSpace(text)| <= cfg.maxMessage
  }

  lemma TextIsUnique(request: ChatRequest, a: string, b: string)
    requires HasText(request, a) && HasText(request, b)
    ensures a == b
  {
  }

  /** The refusals before the text is analysed. */
  lemma EarlyRefusals(cfg: Config, ready: bool, request: ChatRequest, selection: Selection)
    ensures var p := Prepare(cfg, ready, request, selection);
            var readable := exists text :: Readable(cfg, request, text);
            && (!ready ==> p == Rejected(ApiError(ModelNotReady, 503)))
            && (ready && !readable ==> p == Rejected(ApiError(UserMessageRequired, 400)))
            && (ready && readable && request.model != cfg.modelId ==> p == Rejected(ApiError(ModelNotFound, 404)))
  {
    var x := Extract(request, cfg.maxMessage);
    if x.Ok? {
      ExtractIsExact(request, cfg.maxMessage, x.value.original);
      var text :| HasText(request, text) && x.value.original == TrimSpace(text)
                  && 0 < |TrimSpace(text)| <= cfg.maxMessage;
      assert Readable(cfg, request, text);
    }
    if text :| Readable(cfg, request, text) {
      ExtractIsExact(request, cfg.maxMessage, TrimSpace(text));
    }
    ExtractIsExact(request, cfg.maxMessage, "");
  }

  /** From the analysis on: its refusal, the selector's, the validator's, or the call with the request's warnings. */
  lemma LateOutcomes(cfg: Config, request: ChatRequest, selection: Selection, text: string)
    requires Readable(cfg, request, text) && request.model == cfg.modelId
    ensures var p := Prepare(cfg, true, request, selection);
            var input := Analyze(TrimSpace(text));
            && (input.Err? ==> p == Rejected(input.error))
            && (input.Ok? && selection.NotSelected? ==> p == Rejected(selection.error))
            && (input.Ok? && selection.Selected? ==>
                  var called := Validated(input.value, selection.call, cfg.allowForceStop);
                  && (called.Err? ==> p == Rejected(called.error))
                  && (called.Ok? ==> p == Proceed(called.value, Warnings(request))))
  {
    ExtractIsExact(request, cfg.maxMessage, TrimSpace(text));
  }

  /** What the model must have sent for the call to be made, and the setting it needs. */
  predicate Selects(cfg: Config, selection: Selection, call: ActionCall) {
    && selection == Selected(ToolCall("function", ToolName(call.action), Decoded(call.vmid, false)))
    && (call.action == Stop ==> cfg.allowForceStop)
  }

  /**
   Exactly when a request proceeds, as which call, and with which warnings: readiness, the model's name, a readable
   text that the written rules grant, the one tool call for it, and force stop enabled if it is one.
   */
  lemma ProceedsIff(cfg: Config, ready: bool, request: ChatRequest, selection: Selection, call: ActionCall,
                    warnings: seq<Warning>)
    ensures Prepare(cfg, ready, request, selection) == Proceed(call, warnings) <==>
            && ready && request.model == cfg.modelId
            && (exists text :: Readable(cfg, request, text) && Grants(TrimSpace(text), call.action, call.vmid))
            && Selects(cfg, selection, call)
            && warnings == Warnings(request)
  {
    EarlyRefusals(cfg, ready, request, selection);
    if text :| ready && request.model == cfg.modelId && Readable(cfg, request, text) {
      ReadableProceedsIff(cfg, request, selection, text, call, warnings);
      forall other | Readable(cfg, request, other)
        ensures other == text
      {
        TextIsUnique(request, text, other);
      }
    }
  }

  lemma ReadableProceedsIff(cfg: Config, request: ChatRequest, selection: Selection, text: string, call: ActionCall,
                            warnings: seq<Warning>)
    requires Readable(cfg, request, text) && request.model == cfg.modelId
    ensures Prepare(cfg, true, request, selection) == Proceed(call, warnings) <==>
            Grants(TrimSpace(text), call.action, call.vmid) && Selects(cfg, selection, call)
            && warnings == Warnings(request)
  {
    LateOutcomes(cfg, request, selection, text);
    TrimIsIdempotent(text);
    TextProceedsIff(cfg, selection, TrimSpace(text), call);
  }

  lemma TextProceedsIff(cfg: Config, selection: Selection, t: string, call: ActionCall)
    requires TrimSpace(t) == t
    ensures Analyze(t).Ok? && selection.Selected?
            && Validated(Analyze(t).value, selection.call, cfg.allowForceStop) == Ok(call) <==>
            Grants(t, call.action, call.vmid) && Selects(cfg, selection, call)
  {
    if Analyze(t).Ok? && selection.Selected? {
      var input, a := Analyze(t).value, call.action;
      CallIsAcceptedIff(input, selection.call, cfg.allowForceStop, call);
      if call.vmid == input.vmid {
        CallIsAcceptedIff(input, CallFor(a, call.vmid), true, call);
      }
    }
    PassesIffGranted(t, call.action, call.vmid);
  }

  lemma CallIsAcceptedIff(input: Input, sent: ToolCall, allow: bool, call: ActionCall)
    ensures Validated(input, sent, allow) == Ok(call) <==>
            && call.vmid == input.vmid > 0 && sent == ToolCall("function", ToolName(call.action), Decoded(call.vmid, false))
            && AsksNothingElse(input.original, call.action) && Asks(input.original, call.action)
            && !(input.hasNegation && call.action != Get) && (call.action == Stop ==> allow)
  {
    AcceptedIff(input, sent, allow, call.action);
    MetadataIs(call.action);
    DominatesIff(input.original, call.action);
    AsksIff(input.original, call.action);
  }
}
