/**
 The check on the model's tool call (internal/managed/validate_granite.go). The table of actions is
 a Go map, ranged over in an arbitrary order by both loops.
 */
module Validate {
  import opened Common
  import opened Text
  import opened Tools
  import opened Safety
  import opened Api

  /** What decoding a tool call's JSON arguments gives. */
  datatype ToolArgs = Undecodable | Decoded(vmid: int, trailing: bool)

  datatype ToolCall = ToolCall(kind: string, name: string, args: ToolArgs)

  datatype ActionCall = ActionCall(action: Action, vmid: nat)

  function ActionNamed(name: string): Option<Action> {
    if exists a | a in ALL_ACTIONS :: MetadataOf(a).toolName == name then
      (forall a, b | a in ALL_ACTIONS && b in ALL_ACTIONS && MetadataOf(a).toolName == name
                    && MetadataOf(b).toolName == name
         ensures a == b { ToolNamesAreDistinct(a, b); }
       var a :| a in ALL_ACTIONS && MetadataOf(a).toolName == name;
       Some(a))
    else None
  }

  /** The first longest marker that occurs in the text, or "" when none does. */
  function Longest(text: string, markers: seq<string>): string {
    if markers == [] then ""
    else
      var n := |markers| - 1;
      var best := Longest(text, markers[..n]);
      if Contains(text, markers[n]) && |markers[n]| > |best| then markers[n] else best
  }

  function Matched(text: string, a: Action): string {
    Longest(text, Evidence(a))
  }

  /** Every marker of another action found in the text lies inside this action's longest match. */
  predicate Dominates(text: string, a: Action) {
    forall b, m | b in ALL_ACTIONS && b != a && m in Evidence(b) && Contains(text, m) :: Contains(Matched(text, a), m)
  }

  function CallError(code: Code): ApiError {
    ApiError(code, 422)
  }

  function Validated(input: Input, call: ToolCall, allowForceStop: bool): Result<ActionCall, ApiError> {
    var named := ActionNamed(call.name);
    if call.kind != "function" || named.None? then Err(CallError(InvalidToolCall))
    else if call.args.Undecodable? || call.args.vmid <= 0 || call.args.trailing then Err(CallError(InvalidToolCall))
    else if call.args.vmid != input.vmid then Err(CallError(VmidMismatch))
    else
      var a := named.value;
      if !Dominates(input.original, a) then Err(CallError(AmbiguousManagedCommand))
      else if input.hasNegation && MetadataOf(a).mutation then Err(CallError(NegatedMutation))
      else if !ContainsAny(input.original, Evidence(a)) then Err(CallError(AmbiguousManagedCommand))
      else if a == Stop && !allowForceStop then Err(ApiError(ForceStopDisabled, 403))
      else Ok(ActionCall(a, input.vmid))
  }

  lemma {:induction false} LongestIsLongest(text: string, markers: seq<string>)
    ensures var best := Longest(text, markers);
            && Contains(text, best)
            && (best == "" || best in markers)
            && forall m | m in markers && Contains(text, m) :: |m| <= |best|
  {
    if markers == [] {
      assert OccursAt(text, "", 0);
    } else {
      LongestIsLongest(text, markers[..|markers| - 1]);
    }
  }

  // ---- The loops ----

  /** The first loop: whatever the order, the action whose tool has the given name. */
  method FindAction(name: string) returns (r: Option<Action>)
    ensures r == ActionNamed(name)
  {
    var rest := ALL_ACTIONS;
    while rest != {}
      invariant forall a | a in ALL_ACTIONS && a !in rest :: MetadataOf(a).toolName != name
      decreases rest
    {
      var candidate :| candidate in rest;
      if MetadataOf(candidate).toolName == name {
        forall a | a in ALL_ACTIONS && MetadataOf(a).toolName == name
          ensures a == candidate
        {
          ToolNamesAreDistinct(a, candidate);
        }
        assert candidate in ALL_ACTIONS;
        return Some(candidate);
      }
      rest := rest - {candidate};
    }
    r := None;
  }

  method LongestMatch(text: string, markers: seq<string>) returns (best: string)
    ensures best == Longest(text, markers)
  {
    best := "";
    for i := 0 to |markers|
      invariant best == Longest(text, markers[..i])
    {
      assert markers[..i + 1][..i] == markers[..i];
      if Contains(text, markers[i]) && |markers[i]| > |best| {
        best := markers[i];
      }
    }
    assert markers[..|markers|] == markers;
  }

  /** The second loop: whatever the order, whether no other action has a marker outside the match. */
  method CheckOthers(text: string, action: Action, matched: string) returns (ok: bool)
    requires matched == Matched(text, action)
    ensures ok == Dominates(text, action)
  {
    var rest := ALL_ACTIONS;
    while rest != {}
      invariant forall b, m | b in ALL_ACTIONS && b !in rest && b != action && m in Evidence(b) && Contains(text, m) ::
          Contains(matched, m)
      decreases rest
    {
      var other :| other in rest;
      rest := rest - {other};
      if other != action {
        var markers := Evidence(other);
        for i := 0 to |markers|
          invariant forall m | m in markers[..i] && Contains(text, m) :: Contains(matched, m)
        {
          if Contains(text, markers[i]) && !Contains(matched, markers[i]) {
            assert markers[i] in Evidence(other);
            return false;
          }
        }
      }
    }
    ok := true;
  }

  /** The same call or the same error for every order in which the two loops range over the table. */
  method ValidateToolCall(input: Input, call: ToolCall, allowForceStop: bool) returns (r: Result<ActionCall, ApiError>)
    ensures r == Validated(input, call, allowForceStop)
  {
    var named := FindAction(call.name);
    if call.kind != "function" || named.None? {
      return Err(CallError(InvalidToolCall));
    }
    if call.args.Undecodable? || call.args.vmid <= 0 {
      return Err(CallError(InvalidToolCall));
    }
    if call.args.trailing {
      return Err(CallError(InvalidToolCall));
    }
    if call.args.vmid != input.vmid {
      return Err(CallError(VmidMismatch));
    }
    var action := named.value;
    var matched := LongestMatch(input.original, Evidence(action));
    var dominates := CheckOthers(input.original, action, matched);
    if !dominates {
      return Err(CallError(AmbiguousManagedCommand));
    }
    if input.hasNegation && MetadataOf(action).mutation {
      return Err(CallError(NegatedMutation));
    }
    var grounded := ContainsMarker(input.original, Evidence(action));
    if !grounded {
      return Err(CallError(AmbiguousManagedCommand));
    }
    if action == Stop && !allowForceStop {
      return Err(ApiError(ForceStopDisabled, 403));
    }
    r := Ok(ActionCall(action, call.args.vmid));
  }

  // ---- What the model can and cannot choose ----

  /** The text alone supports this action: it holds a marker of it, and no foreign marker outside the longest one. */
  predicate Supports(text: string, a: Action) {
    ContainsAny(text, Evidence(a)) && Dominates(text, a)
  }

  /** A text supports at most one action. */
  lemma SupportIsUnique(text: string, a: Action, b: Action)
    requires Supports(text, a) && Supports(text, b)
    ensures a == b
  {
    var ma, mb := Matched(text, a), Matched(text, b);
    LongestIsLongest(text, Evidence(a));
    LongestIsLongest(text, Evidence(b));
    EvidenceIsNotEmpty(a);
    EvidenceIsNotEmpty(b);
    assert a in ALL_ACTIONS && b in ALL_ACTIONS;
    if a != b {
      assert Contains(ma, mb) && Contains(mb, ma);
      ContainsIsAntisymmetric(ma, mb);
      EvidenceIsDisjoint(a, b, ma);
    }
  }

  lemma EvidenceIsNotEmpty(a: Action)
    ensures "" !in Evidence(a)
  {
  }

  /**
   The untrusted model cannot choose between two executable actions: for one text and VM ID, any two
   tool calls that are accepted, under any two force-stop settings, denote the same action and VM.
   */
  lemma ExecutableActionIsUnique(input: Input, c1: ToolCall, c2: ToolCall, allow1: bool, allow2: bool)
    requires Validated(input, c1, allow1).Ok? && Validated(input, c2, allow2).Ok?
    ensures Validated(input, c1, allow1) == Validated(input, c2, allow2)
  {
    SupportIsUnique(input.original, Validated(input, c1, allow1).value.action,
                    Validated(input, c2, allow2).value.action);
  }

  /** Exactly when a call is accepted. */
  lemma AcceptedIff(input: Input, call: ToolCall, allow: bool, a: Action)
    ensures Validated(input, call, allow) == Ok(ActionCall(a, input.vmid)) <==>
            && call == ToolCall("function", MetadataOf(a).toolName, Decoded(input.vmid, false))
            && input.vmid > 0
            && Supports(input.original, a)
            && !(input.hasNegation && MetadataOf(a).mutation)
            && (a == Stop ==> allow)
  {
    assert a in ALL_ACTIONS;
    if call.name == MetadataOf(a).toolName {
      ToolNamesAreDistinct(a, ActionNamed(call.name).value);
    }
  }

  /** An accepted action's match contains every other action's marker in the text. */
  lemma ForeignMarkersLieInsideTheMatch(text: string, a: Action, b: Action, m: string)
    requires Supports(text, a) && b != a && m in Evidence(b) && Contains(text, m)
    ensures exists longest | longest in Evidence(a) ::
              && Contains(text, longest) && Contains(longest, m) && |m| < |longest|
              && forall other | other in Evidence(a) && Contains(text, other) :: |other| <= |longest|
  {
    var longest := Matched(text, a);
    LongestIsLongest(text, Evidence(a));
    EvidenceIsNotEmpty(a);
    assert b in ALL_ACTIONS;
    assert longest in Evidence(a);
    if |m| >= |longest| {
      ContainsBoundsLength(longest, m);
      ContainsIsAntisymmetric(longest, m);
      EvidenceIsDisjoint(a, b, m);
    }
    ContainsBoundsLength(longest, m);
  }

  lemma ContainsBoundsLength(a: string, b: string)
    requires Contains(a, b)
    ensures |b| <= |a|
    ensures |b| == |a| ==> Contains(b, a)
  {
    var i :| 0 <= i <= |a| - |b| && OccursAt(a, b, i);
    if |b| == |a| {
      assert a[0..|b|] == a;
      assert OccursAt(b, a, 0);
    }
  }

  /** A four-character marker decides: a text that holds one supports no other action. */
  lemma LongMarkersDecide(text: string, a: Action, b: Action, m: string)
    requires Supports(text, a) && Contains(text, m)
    requires m in Evidence(b) && |m| >= 4
    ensures a == b
  {
    EvidenceIsShort(a);
    if a != b {
      ForeignMarkersLieInsideTheMatch(text, a, b, m);
    }
  }

  /** A forced word can only be executed as a forced stop, and "restart anew" only as a reboot. */
  lemma ForcedWordsOnlyStop(text: string, a: Action)
    requires Supports(text, a)
    ensures ContainsAny(text, ["强制停止", "强制关机", "强制断电"]) ==> a == Stop
    ensures Contains(text, "重新启动") ==> a == Reboot
  {
    if m :| m in Evidence(Stop) && Contains(text, m) {
      LongMarkersDecide(text, a, Stop, m);
    }
    if Contains(text, "重新启动") {
      assert Evidence(Reboot)[1] == "重新启动";
      LongMarkersDecide(text, a, Reboot, "重新启动");
    }
  }

  lemma EvidenceIsShort(a: Action)
    ensures forall m | m in Evidence(a) :: |m| <= 4
  {
  }
}
