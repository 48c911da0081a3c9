/** The tables and loops of the text gate follow the written rules, outcome by outcome. */
module RuleProofs {
  import opened Common
  import opened Text
  import opened Decimal
  import opened Tools
  import opened Api
  import opened Safety
  import opened Validate
  import opened Gate
  import opened Rules

  // ---- Lists of markers ----

  lemma AnyOfCons(t: string, m: string, ms: seq<string>)
    ensures ContainsAny(t, [m] + ms) <==> Contains(t, m) || ContainsAny(t, ms)
  {
    assert forall x | x in [m] + ms :: x == m || x in ms;
    assert m in [m] + ms;
  }

  lemma AnyOf2(t: string, a: string, b: string)
    ensures ContainsAny(t, [a, b]) <==> Contains(t, a) || Contains(t, b)
  {
    var ms := [a, b];
    assert ms[0] == a && ms[1] == b;
  }

  lemma AnyOf3(t: string, a: string, b: string, c: string)
    ensures ContainsAny(t, [a, b, c]) <==> Contains(t, a) || Contains(t, b) || Contains(t, c)
  {
    AnyOfCons(t, a, [b, c]);
    AnyOf2(t, b, c);
    assert [a, b, c] == [a] + [b, c];
  }

  lemma AnyOf4(t: string, a: string, b: string, c: string, d: string)
    ensures ContainsAny(t, [a, b, c, d]) <==> Contains(t, a) || Contains(t, b) || Contains(t, c) || Contains(t, d)
  {
    AnyOfCons(t, a, [b, c, d]);
    AnyOf3(t, b, c, d);
    assert [a, b, c, d] == [a] + [b, c, d];
  }

  lemma AnyOf5(t: string, a: string, b: string, c: string, d: string, e: string)
    ensures ContainsAny(t, [a, b, c, d, e]) <==>
            Contains(t, a) || Contains(t, b) || Contains(t, c) || Contains(t, d) || Contains(t, e)
  {
    AnyOfCons(t, a, [b, c, d, e]);
    AnyOf4(t, b, c, d, e);
    assert [a, b, c, d, e] == [a] + [b, c, d, e];
  }

  lemma AnyOfConcat(t: string, x: seq<string>, y: seq<string>)
    ensures ContainsAny(t, x + y) <==> ContainsAny(t, x) || ContainsAny(t, y)
  {
    assert forall m :: m in x + y <==> m in x || m in y;
  }

  lemma ConditionalIff(t: string)
    ensures IsComplex(t) <==> Conditional(t)
  {
    AnyOfConcat(t, CONDITIONS, BATCHES);
    AnyOf5(t, "如果", "假如", "要是", "确认后", "完成后");
    AnyOf2(t, "全部", "所有");
    AnyOf4(t, "分别", "依次", "然后", "接着");
    AnyOfConcat(t, ["全部", "所有"], ["分别", "依次", "然后", "接着"]);
    assert BATCHES == ["全部", "所有"] + ["分别", "依次", "然后", "接着"];
  }

  lemma NegatedIff(t: string)
    ensures ContainsAny(t, NEGATIONS) <==> Negated(t)
  {
    AnyOf5(t, "不要", "别", "禁止", "取消", "无需");
    AnyOf4(t, "不允许", "不是", "没有", "没开");
    AnyOfConcat(t, ["不要", "别", "禁止", "取消", "无需"], ["不允许", "不是", "没有", "没开"]);
    assert NEGATIONS == ["不要", "别", "禁止", "取消", "无需"] + ["不允许", "不是", "没有", "没开"];
  }

  lemma ShutdownMarkers(t: string)
    ensures ContainsAny(t, Evidence(Shutdown)) <==> AsksShutdown(t)
  {
    var x, y: seq<string> := ["正常关闭", "正常关机", "优雅关机"], ["关掉", "关闭", "关机"];
    AnyOf3(t, "正常关闭", "正常关机", "优雅关机");
    AnyOf3(t, "关掉", "关闭", "关机");
    AnyOfConcat(t, x, y);
    assert Evidence(Shutdown) == x + y;
  }

  lemma AsksIff(t: string, a: Action)
    ensures ContainsAny(t, Evidence(a)) <==> Asks(t, a)
  {
    match a
    case Get => AnyOf5(t, "查询", "查看", "状态", "运行吗", "开着吗");
    case Start => AnyOf4(t, "开启", "启动", "开机", "打开");
    case Shutdown => ShutdownMarkers(t);
    case Stop => AnyOf3(t, "强制停止", "强制关机", "强制断电");
    case Reboot => AnyOf2(t, "重启", "重新启动");
  }

  // ---- What is asked besides the action ----

  /** What is in the text of action b is covered by the longest match of action a. */
  predicate Covered(t: string, a: Action, b: Action) {
    forall m | m in Evidence(b) && Contains(t, m) :: Contains(Matched(t, a), m)
  }

  /** The table has all five actions. */
  lemma TableIsComplete(a: Action)
    ensures a in ALL_ACTIONS
  {
    match a
    case Get =>
    case Start =>
    case Shutdown =>
    case Stop =>
    case Reboot =>
  }

  lemma DominatesIffCovered(t: string, a: Action)
    ensures Dominates(t, a) <==>
            && (a != Get ==> Covered(t, a, Get)) && (a != Start ==> Covered(t, a, Start))
            && (a != Shutdown ==> Covered(t, a, Shutdown)) && (a != Stop ==> Covered(t, a, Stop))
            && (a != Reboot ==> Covered(t, a, Reboot))
  {
    forall b: Action ensures b in ALL_ACTIONS {
      TableIsComplete(b);
    }
    if forall b | b != a :: Covered(t, a, b) {
      forall b, m | b in ALL_ACTIONS && b != a && m in Evidence(b) && Contains(t, m)
        ensures Contains(Matched(t, a), m)
      {
        assert Covered(t, a, b);
      }
    }
    if Dominates(t, a) {
      forall b | b != a ensures Covered(t, a, b) {
      }
    }
  }

  lemma StopMatchIff(t: string)
    ensures Matched(t, Stop) == "强制关机" <==> Contains(t, "强制关机") && !Contains(t, "强制停止")
  {
    LongestIsLongest(t, Evidence(Stop));
    if Matched(t, Stop) == "强制关机" {
      StopMatchIsFirst(t);
    } else {
      var one, two := Evidence(Stop)[..1], Evidence(Stop)[..2];
      assert two[..1] == one && one[..0] == [];
      assert !Contains(t, "强制停止") ==> Longest(t, one) == "";
      assert !Contains(t, "强制停止") && Contains(t, "强制关机") ==> Longest(t, two) == "强制关机";
    }
  }

  lemma RebootMatchIff(t: string)
    ensures Matched(t, Reboot) == "重新启动" <==> Contains(t, "重新启动")
  {
    LongestIsLongest(t, Evidence(Reboot));
    if Contains(t, "重新启动") {
      LongRestartIsTheMatch(t);
    }
  }

  /** A match covers a marker of another action in two cases only. */
  lemma MatchCoversIff(t: string, a: Action, b: Action, m: string)
    requires a != b && m in Evidence(b)
    ensures Contains(Matched(t, a), m) <==>
            || (a == Stop && m == "关机" && Contains(t, "强制关机") && !Contains(t, "强制停止"))
            || (a == Reboot && m == "启动" && Contains(t, "重新启动"))
  {
    LongestIsLongest(t, Evidence(a));
    StopMatchIff(t);
    RebootMatchIff(t);
    EvidenceIsNotEmpty(b);
    if Contains(Matched(t, a), m) {
      TwoMarkersNest(a, Matched(t, a), b, m);
    }
    PairsNest();
  }

  lemma PairsNest()
    ensures Contains("强制关机", "关机") && Contains("重新启动", "启动")
  {
    assert "强制关机"[2..4] == "关机" && OccursAt("强制关机", "关机", 2);
    assert "重新启动"[2..4] == "启动" && OccursAt("重新启动", "启动", 2);
  }

  lemma CoveredIff(t: string, a: Action, b: Action)
    requires a != b && !(a == Stop && b == Shutdown) && !(a == Reboot && b == Start)
    ensures Covered(t, a, b) <==> !Asks(t, b)
  {
    AsksIff(t, b);
    forall m | m in Evidence(b)
      ensures !Contains(Matched(t, a), m)
    {
      MatchCoversIff(t, a, b, m);
      NestedMarkersBelong(b, m);
    }
  }

  lemma NestedMarkersBelong(b: Action, m: string)
    requires m in Evidence(b)
    ensures (m == "关机" ==> b == Shutdown) && (m == "启动" ==> b == Start)
  {
  }

  lemma StopCoversIff(t: string)
    ensures Covered(t, Stop, Shutdown) <==>
            && !Contains(t, "正常关闭") && !Contains(t, "正常关机") && !Contains(t, "优雅关机")
            && !Contains(t, "关闭") && !Contains(t, "关掉")
            && (Contains(t, "关机") ==> Contains(t, "强制关机") && !Contains(t, "强制停止"))
  {
    var ms := Evidence(Shutdown);
    assert ms[0] == "正常关闭" && ms[1] == "正常关机" && ms[2] == "优雅关机";
    assert ms[3] == "关掉" && ms[4] == "关闭" && ms[5] == "关机";
    forall m | m in ms
      ensures Contains(Matched(t, Stop), m) <==>
              m == "关机" && Contains(t, "强制关机") && !Contains(t, "强制停止")
    {
      MatchCoversIff(t, Stop, Shutdown, m);
    }
  }

  lemma RebootCoversIff(t: string)
    ensures Covered(t, Reboot, Start) <==>
            && !Contains(t, "开启") && !Contains(t, "开机") && !Contains(t, "打开")
            && (Contains(t, "启动") ==> Contains(t, "重新启动"))
  {
    var ms := Evidence(Start);
    assert ms[0] == "开启" && ms[1] == "启动" && ms[2] == "开机" && ms[3] == "打开";
    forall m | m in ms
      ensures Contains(Matched(t, Reboot), m) <==> m == "启动" && Contains(t, "重新启动")
    {
      MatchCoversIff(t, Reboot, Start, m);
    }
  }

  /** The second check of the validator, action by action and marker by marker. */
  lemma DominatesIff(t: string, a: Action)
    ensures Dominates(t, a) <==> AsksNothingElse(t, a)
  {
    DominatesIffCovered(t, a);
    forall b | b != a && !(a == Stop && b == Shutdown) && !(a == Reboot && b == Start)
      ensures Covered(t, a, b) <==> !Asks(t, b)
    {
      CoveredIff(t, a, b);
    }
    StopCoversIff(t);
    RebootCoversIff(t);
  }

  // ---- The count of actions ----

  lemma {:induction false} StripConcat(x: seq<Marker>, y: seq<Marker>, t: string)
    ensures Strip(x + y, t).0 == Strip(y, Strip(x, t).0).0
    decreases |x|
  {
    if x == [] {
      assert x + y == y;
    } else {
      assert (x + y)[1..] == x[1..] + y;
      StripConcat(x[1..], y, if Contains(t, x[0]) then RemoveAll(t, x[0]) else t);
    }
  }

  lemma Strip1(a: Marker, t: string)
    ensures Strip([a], t).0 == RemoveAll(t, a)
  {
    assert [a][1..] == [];
    if !Contains(t, a) {
      RemoveAllOfAbsentMarker(t, a);
    }
  }

  lemma Strip2(a: Marker, b: Marker, t: string)
    ensures Strip([a, b], t).0 == RemoveAll(RemoveAll(t, a), b)
  {
    Strip1(a, t);
    Strip1(b, RemoveAll(t, a));
    StripConcat([a], [b], t);
    assert [a] + [b] == [a, b];
  }

  lemma Strip3(a: Marker, b: Marker, c: Marker, t: string)
    ensures Strip([a, b, c], t).0 == RemoveAll(RemoveAll(RemoveAll(t, a), b), c)
  {
    Strip2(a, b, t);
    Strip1(c, RemoveAll(RemoveAll(t, a), b));
    StripConcat([a, b], [c], t);
    assert [a, b] + [c] == [a, b, c];
  }

  lemma Strip5(a: Marker, b: Marker, c: Marker, d: Marker, e: Marker, t: string)
    ensures Strip([a, b, c, d, e], t).0 == RemoveAll(RemoveAll(RemoveAll(RemoveAll(RemoveAll(t, a), b), c), d), e)
  {
    Strip3(a, b, c, t);
    Strip2(d, e, RemoveAll(RemoveAll(RemoveAll(t, a), b), c));
    StripConcat([a, b, c], [d, e], t);
    assert [a, b, c] + [d, e] == [a, b, c, d, e];
  }

  lemma ResidualsAre(t: string)
    ensures Residual(t, 0) == t && Residual(t, 1) == WithoutForced(t)
    ensures Residual(t, 2) == WithoutRestart(WithoutForced(t))
    ensures Residual(t, 3) == WithoutShutdown(WithoutRestart(WithoutForced(t)))
  {
    Strip3("强制停止", "强制关机", "强制断电", t);
    Strip2("重新启动", "重启", WithoutForced(t));
    Strip5("正常关闭", "正常关机", "优雅关机", "关闭", "关机", WithoutRestart(WithoutForced(t)));
    assert Residual(t, 1) == Strip(ACTION_GROUPS[0], Residual(t, 0)).0;
    assert Residual(t, 2) == Strip(ACTION_GROUPS[1], Residual(t, 1)).0;
    assert Residual(t, 3) == Strip(ACTION_GROUPS[2], Residual(t, 2)).0;
  }

  lemma GroupsAskFor(t: string)
    ensures ContainsAny(t, ACTION_GROUPS[0]) <==> AsksStop(t)
    ensures ContainsAny(t, ACTION_GROUPS[1]) <==> AsksReboot(t)
    ensures ContainsAny(t, ACTION_GROUPS[2]) <==> AsksCountedShutdown(t)
    ensures ContainsAny(t, ACTION_GROUPS[3]) <==> AsksStart(t)
  {
    AnyOf3(t, "强制停止", "强制关机", "强制断电");
    AnyOf2(t, "重新启动", "重启");
    AnyOf5(t, "正常关闭", "正常关机", "优雅关机", "关闭", "关机");
    AnyOf4(t, "开启", "启动", "开机", "打开");
  }

  /** The count, with every marker and every removal written out. */
  lemma CountIs(t: string)
    ensures ActionCount(t) == Counted(t)
  {
    ResidualsAre(t);
    GroupsAskFor(Residual(t, 0));
    GroupsAskFor(Residual(t, 1));
    GroupsAskFor(Residual(t, 2));
    GroupsAskFor(Residual(t, 3));
    assert Hits(t, 1) == One(Hit(t, 0)) && Hits(t, 2) == Hits(t, 1) + One(Hit(t, 1));
    assert Hits(t, 3) == Hits(t, 2) + One(Hit(t, 2)) && Hits(t, 4) == Hits(t, 3) + One(Hit(t, 3));
  }

  // ---- The check before the model, outcome by outcome ----

  lemma IdIff(t: string, v: nat)
    ensures OnlyId(t, v) <==> IsTheId(t, v)
  {
  }

  /** Every outcome of the analysis, in the order in which the code looks for them. */
  lemma AnalysisIsExact(text: string)
    ensures var t := TrimSpace(text);
            var inRange := forall u: nat | Names(t, u) :: 0 < u < 9223372036854775808;
            var oneId := exists v: nat :: IsTheId(t, v);
            && (!inRange ==> Analyze(text) == Err(ApiError(InvalidVmid, 422)))
            && (inRange && !oneId ==> Analyze(text) == Err(ApiError(SingleVmidRequired, 422)))
            && (oneId && Conditional(t) ==> Analyze(text) == Err(ApiError(ComplexManagedCommand, 422)))
            && (oneId && !Conditional(t) && Counted(t) > 1 ==> Analyze(text) == Err(ApiError(MultipleActions, 422)))
            && (forall v: nat | IsTheId(t, v) && !Conditional(t) && Counted(t) <= 1 ::
                  Analyze(text) == Ok(Input(t, v, Negated(t))))
  {
    var t := TrimSpace(text);
    forall v: nat ensures OnlyId(t, v) <==> IsTheId(t, v) {
      IdIff(t, v);
    }
    IdErrorsAreExact(text);
    StructureErrorsAreExact(text);
    ConditionalIff(t);
    NegatedIff(t);
    CountIs(t);
    forall v: nat | IsTheId(t, v) && !Conditional(t) && Counted(t) <= 1
      ensures Analyze(text) == Ok(Input(t, v, Negated(t)))
    {
      AnalyzeIsExact(text, v);
    }
  }

  /** The refusal of conditions, batches and sequences, marker by marker. */
  lemma ConditionalsAreRefused(text: string, v: nat)
    requires IsTheId(TrimSpace(text), v)
    ensures var t := TrimSpace(text);
            Analyze(text) == Err(ApiError(ComplexManagedCommand, 422)) <==>
              || Contains(t, "如果") || Contains(t, "假如") || Contains(t, "要是")
              || Contains(t, "确认后") || Contains(t, "完成后")
              || Contains(t, "全部") || Contains(t, "所有") || Contains(t, "分别")
              || Contains(t, "依次") || Contains(t, "然后") || Contains(t, "接着")
              || (Contains(t, "等") && Contains(t, "再"))
  {
    AnalysisIsExact(text);
  }

  // ---- The check after the model, outcome by outcome ----

  lemma MetadataIs(a: Action)
    ensures MetadataOf(a).toolName == ToolName(a) == "pve_vm_" + ActionName(a) && (MetadataOf(a).mutation <==> a != Get)
    ensures a != Get ==> MetadataOf(a).requiredState == if a == Start then "stopped" else "running"
  {
  }

  lemma NamedIff(name: string, a: Action)
    ensures ActionNamed(name) == Some(a) <==> name == ToolName(a)
  {
    TableIsComplete(a);
    MetadataIs(a);
    if ActionNamed(name).Some? {
      MetadataIs(ActionNamed(name).value);
    }
    if name == ToolName(a) {
      ToolNamesAreDistinct(a, ActionNamed(name).value);
    }
  }

  /** The arguments hold a positive VM ID and nothing after it. */
  predicate GoodArgs(args: ToolArgs) {
    args.Decoded? && args.vmid > 0 && !args.trailing
  }

  /** Every outcome of the check on a tool call that is of no known form. */
  lemma BadCallIsRefused(input: Input, call: ToolCall, allow: bool)
    requires call.kind != "function" || !GoodArgs(call.args) || forall a :: call.name != ToolName(a)
    ensures Validated(input, call, allow) == Err(ApiError(InvalidToolCall, 422))
  {
    if ActionNamed(call.name).Some? {
      NamedIff(call.name, ActionNamed(call.name).value);
    }
  }

  /** Every outcome of the check on a tool call of a known form, in the order in which the code looks for them. */
  lemma CallIsExact(input: Input, call: ToolCall, allow: bool, a: Action)
    requires call.kind == "function" && GoodArgs(call.args) && call.name == ToolName(a)
    ensures var t := input.original;
            Validated(input, call, allow) ==
              if call.args.vmid != input.vmid then Err(ApiError(VmidMismatch, 422))
              else if !AsksNothingElse(t, a) then Err(ApiError(AmbiguousManagedCommand, 422))
              else if input.hasNegation && a != Get then Err(ApiError(NegatedMutation, 422))
              else if !Asks(t, a) then Err(ApiError(AmbiguousManagedCommand, 422))
              else if a == Stop && !allow then Err(ApiError(ForceStopDisabled, 403))
              else Ok(ActionCall(a, input.vmid))
  {
    NamedIff(call.name, a);
    MetadataIs(a);
    DominatesIff(input.original, a);
    AsksIff(input.original, a);
  }

  /** Both checks together are the written rules: for any text, any action and any VM. */
  lemma PassesIffGranted(text: string, a: Action, v: nat)
    ensures Passes(text, a, v) <==> Grants(TrimSpace(text), a, v)
  {
    var t := TrimSpace(text);
    AnalysisIsExact(text);
    MetadataIs(a);
    if Passes(text, a, v) {
      AnalyzeIsExact(text, v);
      IdIff(t, v);
      ConditionalIff(t);
      CountIs(t);
      CallIsExact(Analyze(text).value, CallFor(a, v), true, a);
    }
    if Grants(t, a, v) {
      CallIsExact(Input(t, v, Negated(t)), CallFor(a, v), true, a);
    }
  }

  /** A granted action is the one the text supports. */
  lemma GrantedIsSupported(t: string, a: Action, v: nat)
    requires Grants(t, a, v)
    ensures Supports(t, a) && ActionCount(t) <= 1
  {
    DominatesIff(t, a);
    AsksIff(t, a);
    CountIs(t);
  }
}
