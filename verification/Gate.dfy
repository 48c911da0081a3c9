/**
 The two text checks together (internal/managed/safety.go and validate_granite.go): which texts that name two
 actions get past both, and which of the design's refusals the code does not make.
 */
module Gate {
  import opened Common
  import opened Text
  import opened Decimal
  import opened Tools
  import opened Safety
  import opened Validate
  import opened Rules

  /** The text gets past both checks as action a on VM v, where force stop is enabled. */
  predicate Passes(text: string, a: Action, v: nat) {
    && Analyze(text).Ok?
    && Validated(Analyze(text).value, CallFor(a, v), true) == Ok(ActionCall(a, v))
  }

  function CallFor(a: Action, v: nat): ToolCall {
    ToolCall("function", MetadataOf(a).toolName, Decoded(v, false))
  }

  /** A call that passes is the one the text names, whatever the model sends and however force stop is set. */
  lemma OnlyThePassingCall(text: string, call: ToolCall, allow: bool)
    requires Analyze(text).Ok? && Validated(Analyze(text).value, call, allow).Ok?
    ensures var done := Validated(Analyze(text).value, call, allow).value;
            call == CallFor(done.action, done.vmid) && Passes(text, done.action, done.vmid)
  {
    var input := Analyze(text).value;
    var a := Validated(input, call, allow).value.action;
    AcceptedIff(input, call, allow, a);
    AcceptedIff(input, call, true, a);
  }

  /** Some tool call is accepted for the text under some force-stop setting. */
  ghost predicate Accepted(text: string) {
    Analyze(text).Ok? && exists call, allow :: Validated(Analyze(text).value, call, allow).Ok?
  }

  // ---- Markers inside markers ----

  /** How the markers of an action begin. */
  function Heads(a: Action): string {
    match a
    case Get => "查状运开"
    case Start => "开启打"
    case Shutdown => "正优关"
    case Stop => "强"
    case Reboot => "重"
  }

  lemma MarkersBeginWithHeads(a: Action, m: string)
    requires m in Evidence(a)
    ensures |m| >= 2 && m[0] in Heads(a)
  {
  }

  /** Where a marker of another action could begin inside a longer marker. */
  lemma HeadsInside(a: Action, longer: string, i: nat, b: Action)
    requires a != b && longer in Evidence(a) && i + 1 < |longer| && |longer| > 2 && longer[i] in Heads(b)
    ensures || (a == Stop && longer == "强制关机" && i == 2 && b == Shutdown)
            || (a == Reboot && longer == "重新启动" && i == 2 && b == Start)
            || (a == Get && longer == "开着吗" && i == 0 && b == Start)
  {
  }

  /** A marker inside a marker of another action begins before its last character, and goes on as it does. */
  lemma NestedHead(a: Action, longer: string, b: Action, m: string) returns (i: nat)
    requires a != b && longer in Evidence(a) && m in Evidence(b) && Contains(longer, m)
    ensures i + |m| <= |longer| && 2 <= |m| < |longer|
    ensures m[0] in Heads(b) && longer[i] == m[0] && longer[i + 1] == m[1]
  {
    var k :| 0 <= k <= |longer| - |m| && OccursAt(longer, m, k);
    i := k;
    MarkersBeginWithHeads(b, m);
    assert m[0] == longer[k..k + |m|][0] && m[1] == longer[k..k + |m|][1];
    assert |m| == |longer| ==> longer[0..|m|] == longer;
    assert m != longer by { if m == longer { EvidenceIsDisjoint(a, b, m); } }
  }

  /** Of all markers of two different actions only two pairs lie in one another. */
  lemma TwoMarkersNest(a: Action, longer: string, b: Action, m: string)
    requires a != b && longer in Evidence(a) && m in Evidence(b) && Contains(longer, m)
    ensures || (a == Stop && longer == "强制关机" && b == Shutdown && m == "关机")
            || (a == Reboot && longer == "重新启动" && b == Start && m == "启动")
  {
    var i := NestedHead(a, longer, b, m);
    HeadsInside(a, longer, i, b);
  }

  /** A marker of another action in a supported text is one of these two, inside these two. */
  lemma ForeignMarkersAreTwo(t: string, a: Action, b: Action, m: string)
    requires Supports(t, a) && a != b && m in Evidence(b) && Contains(t, m)
    ensures || (a == Stop && Matched(t, a) == "强制关机" && b == Shutdown && m == "关机")
            || (a == Reboot && Matched(t, a) == "重新启动" && b == Start && m == "启动")
  {
    assert a in ALL_ACTIONS && b in ALL_ACTIONS;
    LongestIsLongest(t, Evidence(a));
    EvidenceIsNotEmpty(a);
    TwoMarkersNest(a, Matched(t, a), b, m);
  }

  // ---- Two actions named apart ----

  /** The marker occurs at i and lies inside no occurrence of the longer one. */
  predicate Outside(t: string, m: string, i: int, longer: string) {
    && OccursAt(t, m, i)
    && forall j | 0 <= j <= |t| - |longer| && OccursAt(t, longer, j) :: !(j <= i && i + |m| <= j + |longer|)
  }

  /** The two nested markers overlap in no other way. */
  lemma OutsideIsApart(t: string, m: string, i: nat, longer: string)
    requires (longer == "强制关机" && m == "关机") || (longer == "重新启动" && m == "启动")
    requires Outside(t, m, i, longer)
    ensures forall j | 0 <= j <= |t| - |longer| && OccursAt(t, longer, j) :: Apart(m, i, longer, j)
  {
    forall j | 0 <= j <= |t| - |longer| && OccursAt(t, longer, j)
      ensures Apart(m, i, longer, j)
    {
      assert forall k | 0 <= k < |m| :: t[i + k] == t[i..i + |m|][k] == m[k];
      assert forall k | 0 <= k < |longer| :: t[j + k] == t[j..j + |longer|][k] == longer[k];
      assert t[i] == m[0] && t[i + 1] == m[1];
      assert t[j] == longer[0] && t[j + 3] == longer[3];
    }
  }

  lemma {:induction false} StripKeepsUnrelated(markers: seq<Marker>, t: string, kept: string)
    requires kept != "" && Contains(t, kept)
    requires forall m: Marker, c | m in markers && c in kept :: c !in m
    ensures Contains(Strip(markers, t).0, kept)
  {
    if markers != [] {
      assert forall c | c in kept :: c !in markers[0];
      RemoveAllKeepsUnrelated(t, markers[0], kept);
      StripKeepsUnrelated(markers[1..], if Contains(t, markers[0]) then RemoveAll(t, markers[0]) else t, kept);
    }
  }

  lemma StripRestart(t: string)
    ensures Strip(ACTION_GROUPS[1], t).0 == WithoutRestart(t)
  {
    var first, second: Marker := "重新启动", "重启";
    if !Contains(t, first) {
      RemoveAllOfAbsentMarker(t, first);
    }
    var u := RemoveAll(t, first);
    if !Contains(u, second) {
      RemoveAllOfAbsentMarker(u, second);
    }
    var markers := ACTION_GROUPS[1];
    assert markers[0] == first && markers[1..] == [second] && markers[1..][1..] == [];
    assert Strip([second], u).0 == WithoutRestart(t);
  }

  lemma StripSecond(first: Marker, second: Marker, markers: seq<Marker>, t: string)
    requires !Contains(t, first) && Contains(t, second)
    ensures Strip([first, second] + markers, t).0 == Strip(markers, RemoveAll(t, second)).0
  {
    var all := [first, second] + markers;
    assert all[1..] == [second] + markers && all[1..][1..] == markers;
  }

  lemma ForcedStrip(t: string)
    requires Matched(t, Stop) == "强制关机"
    ensures Strip(ACTION_GROUPS[0], t).0 == Strip(["强制断电"], RemoveAll(t, "强制关机")).0
  {
    StopMatchIsFirst(t);
    var markers := ACTION_GROUPS[0];
    StripSecond(markers[0], markers[1], markers[2..], t);
    assert markers == [markers[0], markers[1]] + markers[2..];
    assert markers[2..] == ["强制断电"];
  }

  /** What the forced words leave of a stop text. */
  lemma StopLeavesShutdown(t: string, i: nat)
    requires Matched(t, Stop) == "强制关机" && Outside(t, "关机", i, "强制关机")
    ensures Contains(Strip(ACTION_GROUPS[0], t).0, "关机")
  {
    ForcedStrip(t);
    OutsideIsApart(t, "关机", i, "强制关机");
    RemoveAllKeepsApart(t, "强制关机", "关机", i);
    StripKeepsUnrelated(["强制断电"], RemoveAll(t, "强制关机"), "关机");
  }

  /** A supported stop beside a shutdown marker of its own counts as two actions. */
  lemma StopAndShutdownCountTwice(t: string, i: nat)
    requires Supports(t, Stop) && Matched(t, Stop) == "强制关机" && Outside(t, "关机", i, "强制关机")
    ensures ActionCount(t) > 1
  {
    assert ACTION_GROUPS[0] == Evidence(Stop) && ACTION_GROUPS[2][4] == "关机";
    StopLeavesShutdown(t, i);
    assert Residual(t, 1) == Strip(ACTION_GROUPS[0], Residual(t, 0)).0;
    StripKeepsUnrelated(ACTION_GROUPS[1], Residual(t, 1), "关机");
    assert Residual(t, 2) == Strip(ACTION_GROUPS[1], Residual(t, 1)).0;
    assert Hit(t, 0) && Hit(t, 2);
    HitsCountHits(t, 4);
  }

  lemma StopMatchIsFirst(t: string)
    requires Matched(t, Stop) == "强制关机"
    ensures !Contains(t, "强制停止") && Contains(t, "强制关机")
  {
    LongestIsLongest(t, Evidence(Stop));
    var markers := Evidence(Stop);
    var one, two := markers[..1], markers[..2];
    assert two[..1] == one && one[..0] == [];
    assert Contains(t, "强制停止") ==> Longest(t, one) == "强制停止";
    assert Contains(t, "强制停止") ==> Longest(t, two) == "强制停止";
  }

  /** The group of the count that belongs to an action; queries are not counted. */
  function GroupOf(a: Action): nat
    requires a != Get
  {
    match a
    case Stop => 0
    case Reboot => 1
    case Shutdown => 2
    case Start => 3
  }

  lemma GroupMarkersAreEvidence(g: nat, m: Marker) returns (b: Action)
    requires g < |ACTION_GROUPS| && m in ACTION_GROUPS[g]
    ensures b != Get && GroupOf(b) == g && m in Evidence(b)
  {
    b := [Stop, Reboot, Shutdown, Start][g];
  }

  /** A supported text holds no counted marker of another action, but a later group's inside its own match. */
  lemma ForeignGroups(t: string, a: Action, g: nat)
    requires Supports(t, a) && g < |ACTION_GROUPS| && (a == Get || g != GroupOf(a))
    ensures ContainsAny(t, ACTION_GROUPS[g]) ==>
              || (a == Stop && g == 2 && ContainsAny(t, ACTION_GROUPS[0]))
              || (a == Reboot && g == 3 && ContainsAny(t, ACTION_GROUPS[1]))
  {
    if m: Marker :| m in ACTION_GROUPS[g] && Contains(t, m) {
      var b := GroupMarkersAreEvidence(g, m);
      ForeignMarkersAreTwo(t, a, b, m);
      LongestIsLongest(t, Evidence(a));
      assert ACTION_GROUPS[0][1] == "强制关机" && ACTION_GROUPS[1][0] == "重新启动";
    }
  }

  /** What removing the action's own group leaves. */
  function OwnRemoved(t: string, a: Action): string
    requires a != Get
  {
    Strip(ACTION_GROUPS[GroupOf(a)], t).0
  }

  /** No marker of a later group is left when the action's own group has been removed. */
  predicate NothingLeft(t: string, a: Action) {
    a == Get || forall h | GroupOf(a) < h < |ACTION_GROUPS| :: !ContainsAny(OwnRemoved(t, a), ACTION_GROUPS[h])
  }

  /** Before its own group nothing is found in a supported text. */
  lemma OwnGroupComesFirst(t: string, a: Action)
    requires Supports(t, a) && a != Get
    ensures forall h | 0 <= h < GroupOf(a) :: !Hit(t, h)
    ensures Residual(t, GroupOf(a) + 1) == OwnRemoved(t, a)
    ensures Hit(t, GroupOf(a)) <==> ContainsAny(t, ACTION_GROUPS[GroupOf(a)])
  {
    var g := GroupOf(a);
    forall h | 0 <= h < g ensures !ContainsAny(t, ACTION_GROUPS[h]) {
      ForeignGroups(t, a, h);
    }
    NoHitsIffNoMarkers(t, 0, g);
  }

  /**
   Exactly when the count lets a supported text pass: removing the markers of the action's own group leaves no
   marker of a later one. A query is never stopped by it.
   */
  lemma SupportedCountIff(t: string, a: Action)
    requires Supports(t, a)
    ensures ActionCount(t) <= 1 <==> NothingLeft(t, a)
  {
    if a == Get {
      forall g | 0 <= g < 4 ensures !ContainsAny(t, ACTION_GROUPS[g]) {
        ForeignGroups(t, a, g);
      }
      CountIsZeroIffNoMarker(t);
    } else {
      var g := GroupOf(a);
      OwnGroupComesFirst(t, a);
      NoHitsIffNoMarkers(t, g + 1, 4);
      HitsCountHits(t, 4);
      if !Hit(t, g) {
        StripFindsFirst(ACTION_GROUPS[g], t);
        forall h | g < h < 4 ensures !ContainsAny(t, ACTION_GROUPS[h]) {
          ForeignGroups(t, a, h);
        }
      }
    }
  }

  /** Exactly when a text passes, by the text alone. */
  lemma PassesIff(text: string, a: Action, v: nat)
    ensures var t := TrimSpace(text);
            Passes(text, a, v) <==>
            && OnlyId(t, v) && !IsComplex(t) && Supports(t, a) && NothingLeft(t, a)
            && (MetadataOf(a).mutation ==> !ContainsAny(t, NEGATIONS))
  {
    AnalyzeIsExact(text, v);
    if Supports(TrimSpace(text), a) {
      SupportedCountIff(TrimSpace(text), a);
    }
    if Analyze(text).Ok? {
      AcceptedIff(Analyze(text).value, CallFor(a, v), true, a);
    }
  }

  /** For a reboot: what counts is what the two removals leave. */
  lemma RebootCountsOnceIff(t: string)
    requires Supports(t, Reboot)
    ensures ActionCount(t) <= 1 <==>
            !ContainsAny(WithoutRestart(t), ACTION_GROUPS[2]) && !ContainsAny(WithoutRestart(t), ACTION_GROUPS[3])
  {
    SupportedCountIff(t, Reboot);
    StripRestart(t);
  }

  /** A start marker apart from the restart survives its removal; the count can only miss it if a new restart forms. */
  lemma StartBesideRestart(t: string, i: nat)
    requires Supports(t, Reboot) && Outside(t, "启动", i, "重新启动") && ActionCount(t) <= 1
    ensures Contains(RemoveAll(t, "重新启动"), "重启")
  {
    var u := RemoveAll(t, "重新启动");
    OutsideIsApart(t, "启动", i, "重新启动");
    RemoveAllKeepsApart(t, "重新启动", "启动", i);
    RebootCountsOnceIff(t);
    assert ACTION_GROUPS[3][1] == "启动";
    if !Contains(u, "重启") {
      RemoveAllOfAbsentMarker(u, "重启");
    }
  }

  /**
   The rule against several actions, over both checks: a supported text that holds a marker of another action
   outside every occurrence of its own match is refused by the count, except a reboot beside a start whose removal
   forms a new restart marker.
   */
  lemma OnlySplicedRestartsGetThrough(t: string, a: Action, b: Action, m: string, i: nat)
    requires Supports(t, a) && ActionCount(t) <= 1
    requires b != a && m in Evidence(b) && Outside(t, m, i, Matched(t, a))
    ensures a == Reboot && b == Start && m == "启动" && Contains(RemoveAll(t, "重新启动"), "重启")
  {
    assert Contains(t, m);
    ForeignMarkersAreTwo(t, a, b, m);
    if a == Stop {
      StopAndShutdownCountTwice(t, i);
    } else {
      StartBesideRestart(t, i);
    }
  }

  predicate LongerMarker(longer: string, m: string) {
    |longer| > |m| && exists a | a in ALL_ACTIONS :: longer in Evidence(a)
  }

  /** The text names action b at i: a marker of it stands there, and not inside a longer marker of any action. */
  ghost predicate NamesAt(t: string, b: Action, m: string, i: int) {
    && m in Evidence(b) && OccursAt(t, m, i)
    && forall longer | LongerMarker(longer, m) :: Outside(t, m, i, longer)
  }

  ghost predicate NamesTwoActions(t: string) {
    exists a, b, m, n, i, j :: a != b && NamesAt(t, a, m, i) && NamesAt(t, b, n, j)
  }

  /** The only markers are those of a restart and the start marker that the long one holds. */
  predicate OnlyRestartMarkers(t: string) {
    && Contains(t, "重新启动")
    && forall b, m | b in ALL_ACTIONS && m in Evidence(b) && Contains(t, m) :: m in ["重启", "重新启动", "启动"]
  }

  lemma LongRestartIsTheMatch(t: string)
    requires Contains(t, "重新启动")
    ensures Matched(t, Reboot) == "重新启动"
  {
    LongestIsLongest(t, Evidence(Reboot));
    assert Evidence(Reboot)[1] == "重新启动";
  }

  lemma OnlyRestartMarkersSupport(t: string)
    requires OnlyRestartMarkers(t)
    ensures Supports(t, Reboot)
  {
    var longest: string := "重新启动";
    LongRestartIsTheMatch(t);
    assert longest[2..4] == "启动" && OccursAt(longest, "启动", 2);
    assert Evidence(Reboot) == ["重启", longest];
    assert longest in Evidence(Reboot);
    forall b, m | b in ALL_ACTIONS && b != Reboot && m in Evidence(b) && Contains(t, m)
      ensures Contains(longest, m)
    {
      assert m !in Evidence(Reboot) by {
        if m in Evidence(Reboot) { EvidenceIsDisjoint(b, Reboot, m); }
      }
    }
  }

  /** A marker named beside the accepted action's own lies outside its match. */
  lemma NamedIsOutsideTheMatch(t: string, a: Action, b: Action, m: string, i: int)
    requires Supports(t, a) && a != b && NamesAt(t, b, m, i)
    ensures Outside(t, m, i, Matched(t, a))
  {
    assert Contains(t, m);
    assert a in ALL_ACTIONS;
    ForeignMarkersAreTwo(t, a, b, m);
    assert Matched(t, a) in Evidence(a) by {
      LongestIsLongest(t, Evidence(a));
    }
  }

  lemma RebootHasOnlyRestartMarkers(t: string, b: Action, m: string, i: int)
    requires Supports(t, Reboot) && b != Reboot && NamesAt(t, b, m, i)
    ensures OnlyRestartMarkers(t)
  {
    assert Contains(t, m);
    ForeignMarkersAreTwo(t, Reboot, b, m);
    LongestIsLongest(t, Evidence(Reboot));
    forall c, n | c in ALL_ACTIONS && n in Evidence(c) && Contains(t, n)
      ensures n in ["重启", "重新启动", "启动"]
    {
      if c != Reboot {
        ForeignMarkersAreTwo(t, Reboot, c, n);
      }
    }
  }

  /**
   Exactly which texts that name two actions are accepted: a single good ID, no structure and no negation marker,
   no markers but those of a restart and a start, and removing the restart markers takes the start markers along.
   They are accepted as a reboot. Every other text that names two actions is refused.
   */
  lemma TwoActionsPassIff(text: string, a: Action, v: nat)
    requires NamesTwoActions(TrimSpace(text))
    ensures var t := TrimSpace(text);
            Passes(text, a, v) <==>
            && a == Reboot && OnlyId(t, v) && !IsComplex(t) && !ContainsAny(t, NEGATIONS)
            && OnlyRestartMarkers(t) && NothingLeft(t, Reboot)
  {
    var t := TrimSpace(text);
    PassesIff(text, a, v);
    if Supports(t, a) && NothingLeft(t, a) {
      var b, m, i := NamesAnother(t, a);
      TwoActionsLeaveReboot(t, a, b, m, i);
    }
    if OnlyRestartMarkers(t) {
      OnlyRestartMarkersSupport(t);
    }
  }

  lemma NamesAnother(t: string, a: Action) returns (b: Action, m: string, i: int)
    requires NamesTwoActions(t)
    ensures a != b && NamesAt(t, b, m, i)
  {
    var c, d, n, o, j, k :| c != d && NamesAt(t, c, n, j) && NamesAt(t, d, o, k);
    b, m, i := if c == a then d else c, if c == a then o else n, if c == a then k else j;
  }

  lemma TwoActionsLeaveReboot(t: string, a: Action, b: Action, m: string, i: int)
    requires Supports(t, a) && NothingLeft(t, a) && a != b && NamesAt(t, b, m, i)
    ensures a == Reboot && OnlyRestartMarkers(t)
  {
    SupportedCountIff(t, a);
    NamedIsOutsideTheMatch(t, a, b, m, i);
    OnlySplicedRestartsGetThrough(t, a, b, m, i);
    RebootHasOnlyRestartMarkers(t, b, m, i);
  }

  /** The same for the text as a whole: whether any tool call at all is accepted. */
  lemma TwoActionsAcceptedIff(text: string)
    requires NamesTwoActions(TrimSpace(text))
    ensures var t := TrimSpace(text);
            Accepted(text) <==>
            && (exists v: nat :: OnlyId(t, v)) && !IsComplex(t) && !ContainsAny(t, NEGATIONS)
            && OnlyRestartMarkers(t) && NothingLeft(t, Reboot)
  {
    var t := TrimSpace(text);
    if Accepted(text) {
      var call, allow :| Validated(Analyze(text).value, call, allow).Ok?;
      OnlyThePassingCall(text, call, allow);
      var done := Validated(Analyze(text).value, call, allow).value;
      TwoActionsPassIff(text, done.action, done.vmid);
    }
    if v: nat :| OnlyId(t, v) {
      TwoActionsPassIff(text, Reboot, v);
    }
  }

  // ---- Texts at the edge ----

  /** The first or the last character of the marker is not in the text. */
  predicate EdgeMissing(t: string, m: string) {
    m != "" && (m[0] !in t || m[|m| - 1] !in t)
  }

  lemma EdgeMissingIsAbsent(t: string, m: string)
    requires EdgeMissing(t, m)
    ensures !Contains(t, m)
  {
    forall i | 0 <= i <= |t| - |m|
      ensures !OccursAt(t, m, i)
    {
      var w := t[i..i + |m|];
      assert w[0] == t[i] && w[|m| - 1] == t[i + |m| - 1];
    }
  }

  lemma AllEdgesMissing(t: string, markers: seq<string>)
    requires forall m | m in markers :: EdgeMissing(t, m)
    ensures !ContainsAny(t, markers)
  {
    forall m | m in markers ensures !Contains(t, m) {
      EdgeMissingIsAbsent(t, m);
    }
  }

  lemma {:induction false} SubsequenceBringsNoCharacter(a: string, b: string)
    requires IsSubsequence(a, b)
    ensures forall c | c in a :: c in b
    decreases |b|
  {
    if a != "" {
      assert forall c | c in a :: c == a[0] || c in a[1..];
      if a[0] == b[0] {
        SubsequenceBringsNoCharacter(a[1..], b[1..]);
      } else {
        SubsequenceBringsNoCharacter(a, b[1..]);
      }
    }
  }

  /** No removal can bring a group's markers about when each lacks an edge in the whole text. */
  lemma GroupMissed(t: string, g: nat)
    requires g < |ACTION_GROUPS| && forall m | m in ACTION_GROUPS[g] :: EdgeMissing(t, m)
    ensures !Hit(t, g)
  {
    ResidualShrinks(t, g);
    SubsequenceBringsNoCharacter(Residual(t, g), t);
    AllEdgesMissing(Residual(t, g), ACTION_GROUPS[g]);
  }

  predicate NoStructure(t: string) {
    !IsComplex(t) && !ContainsAny(t, NEGATIONS)
  }

  /** A text that ends in a printed ID and has no other digit. */
  lemma IdText(prefix: string, v: nat)
    requires prefix != "" && !IsSpace(prefix[0]) && forall c | c in prefix :: !IsDigit(c)
    requires 0 < v < INT64_LIMIT
    ensures var t := prefix + Format(v);
            && TrimSpace(t) == t && OnlyId(t, v)
            && forall c | c in t :: c in prefix || IsDigit(c)
  {
    var t := prefix + Format(v);
    assert t[|t| - 1] == Format(v)[|Format(v)| - 1] && t[0] == prefix[0];
    TrimmedIsUnchanged(t);
    assert t + "" == t;
    PrintedIdIsReadBack(prefix, v, "");
  }

  lemma NoStructureByHeads(t: string)
    requires forall c | c in "如假要确完全所分依然接不别禁取无没等" :: c !in t
    ensures NoStructure(t)
  {
    StructureHeads();
    AllEdgesMissing(t, CONDITIONS + BATCHES);
    AllEdgesMissing(t, NEGATIONS);
    EdgeMissingIsAbsent(t, "等");
  }

  lemma StructureHeads()
    ensures forall m | m in CONDITIONS + BATCHES + NEGATIONS :: m != "" && m[0] in "如假要确完全所分依然接不别禁取无没等"
  {
  }

  /** Both together: a good ID, and nothing that the structure and negation checks refuse. */
  lemma PlainText(prefix: string, v: nat)
    requires prefix != "" && !IsSpace(prefix[0]) && forall c | c in prefix :: !IsDigit(c)
    requires forall c | c in "如假要确完全所分依然接不别禁取无没等" :: c !in prefix
    requires 0 < v < INT64_LIMIT
    ensures var t := prefix + Format(v);
            && TrimSpace(t) == t && OnlyId(t, v) && NoStructure(t)
            && forall c | c in t :: c in prefix || IsDigit(c)
  {
    IdText(prefix, v);
    forall c | c in "如假要确完全所分依然接不别禁取无没等" ensures !IsDigit(c) {
    }
    NoStructureByHeads(prefix + Format(v));
  }

  /** A text of one action alone: no other action's marker and no second group. */
  lemma NothingElse(t: string, a: Action, m: string)
    requires m in Evidence(a) && Contains(t, m)
    requires forall b, n | b in ALL_ACTIONS && b != a && n in Evidence(b) :: !Contains(t, n)
    ensures Supports(t, a)
  {
  }

  /** A negative ID is taken for the positive one, through both checks. */
  lemma NegativeIdIsAccepted(v: nat)
    requires 0 < v < INT64_LIMIT
    ensures var t := "查询-" + Format(v);
            Analyze(t) == Ok(Input(t, v, false)) && Passes(t, Get, v)
  {
    var t := "查询-" + Format(v);
    PlainText("查询-", v);
    QueryHasNoOtherMarker(t);
    CountIsZeroIffNoMarker(t);
    assert t[0..2] == "查询" && OccursAt(t, "查询", 0);
    assert Evidence(Get)[0] == "查询";
    NothingElse(t, Get, "查询");
    PassesIff(t, Get, v);
    AnalyzeIsExact(t, v);
  }

  lemma QueryHasNoOtherMarker(t: string)
    requires forall c | c in t :: c in "查询-" || IsDigit(c)
    ensures forall b, m | b in ALL_ACTIONS && b != Get && m in Evidence(b) :: !Contains(t, m)
    ensures forall g | 0 <= g < |ACTION_GROUPS| :: !ContainsAny(t, ACTION_GROUPS[g])
  {
    forall b, m | b in ALL_ACTIONS && b != Get && m in Evidence(b) ensures !Contains(t, m) {
      MarkersBeginWithHeads(b, m);
      EdgeMissingIsAbsent(t, m);
    }
    forall g | 0 <= g < |ACTION_GROUPS| ensures !ContainsAny(t, ACTION_GROUPS[g]) {
      forall m | m in ACTION_GROUPS[g] ensures !Contains(t, m) {
        var b := GroupMarkersAreEvidence(g, m);
      }
    }
  }

  // ---- A restart spliced over a start ----

  const SPLICED := "重重新启动启动 "

  lemma SplicedLeavesNothing(tail: string)
    requires forall c | c in tail :: IsDigit(c)
    ensures WithoutRestart(SPLICED + tail) == "动 " + tail
  {
    var t, u := SPLICED + tail, "启动 " + tail;
    assert t[..4] != "重新启动" by { assert t[..4][1] == '重'; }
    assert t[1..][..4] == "重新启动" && t[1..][4..] == u;
    EdgeMissingIsAbsent(u, "重新启动");
    RemoveAllOfAbsentMarker(u, "重新启动");
    var w := ['重'] + u;
    assert RemoveAll(t, "重新启动") == w;
    assert w[..2] == "重启" && w[2..] == "动 " + tail;
    EdgeMissingIsAbsent(w[2..], "重启");
    RemoveAllOfAbsentMarker(w[2..], "重启");
  }

  lemma NothingLeftByHeads(t: string)
    requires forall c | c in WithoutRestart(t) :: c in "动 " || IsDigit(c)
    ensures NothingLeft(t, Reboot)
  {
    StripRestart(t);
    AllEdgesMissing(WithoutRestart(t), ACTION_GROUPS[2]);
    AllEdgesMissing(WithoutRestart(t), ACTION_GROUPS[3]);
  }

  lemma SplicedLacksHeads(t: string)
    requires forall c | c in t :: c in SPLICED || IsDigit(c)
    ensures forall c | c in "查状运开打正优关强" :: c !in t
  {
  }

  lemma SplicedMarkers(t: string)
    requires forall c | c in t :: c in SPLICED || IsDigit(c)
    ensures forall b, m | b in ALL_ACTIONS && m in Evidence(b) && Contains(t, m) :: m in ["重启", "重新启动", "启动"]
  {
    SplicedLacksHeads(t);
    forall b, m | b in ALL_ACTIONS && m in Evidence(b) && m !in ["重启", "重新启动", "启动"]
      ensures !Contains(t, m)
    {
      HeadsOfOthers(b, m);
      EdgeMissingIsAbsent(t, m);
    }
  }

  lemma HeadsOfOthers(b: Action, m: string)
    requires m in Evidence(b) && m !in ["重启", "重新启动", "启动"]
    ensures m != "" && m[0] in "查状运开打正优关强"
  {
  }

  /** A marker that occurs is named there when each longer marker that occurs is this one, and begins elsewhere. */
  lemma NamedBeside(t: string, b: Action, m: string, i: nat, only: string)
    requires m in Evidence(b) && OccursAt(t, m, i) && only != ""
    requires forall a, n | a in ALL_ACTIONS && n in Evidence(a) && |n| > |m| && Contains(t, n) :: n == only
    requires forall j | 0 <= j <= i && i + |m| <= j + |only| :: t[j] != only[0]
    ensures NamesAt(t, b, m, i)
  {
    assert forall j | 0 <= j <= |t| - |only| && OccursAt(t, only, j) :: t[j] == t[j..j + |only|][0] == only[0];
    forall a, longer | a in ALL_ACTIONS && longer in Evidence(a) && |longer| > |m|
      ensures Outside(t, m, i, longer)
    {
      assert Contains(t, longer) ==> longer == only;
    }
  }

  lemma SplicedOccurrences(t: string)
    requires SPLICED <= t
    ensures OccursAt(t, "重新启动", 1) && OccursAt(t, "启动", 5)
    ensures forall j | 2 <= j < 8 :: t[j] != '重'
    ensures forall j | 0 <= j < 8 :: t[j] != '-'
  {
    assert t[1..5] == SPLICED[1..5] == "重新启动" && t[5..7] == SPLICED[5..7] == "启动";
    assert forall j | 0 <= j < 8 :: t[j] == SPLICED[j];
  }

  lemma SplicedNamesRestart(t: string)
    requires SPLICED <= t
    ensures NamesAt(t, Reboot, "重新启动", 1)
  {
    SplicedOccurrences(t);
    assert Evidence(Reboot)[1] == "重新启动";
    forall a, n | a in ALL_ACTIONS && n in Evidence(a)
      ensures |n| <= 4
    {
      EvidenceIsShort(a);
    }
    NamedBeside(t, Reboot, "重新启动", 1, "-");
  }

  lemma SplicedNamesStart(t: string)
    requires SPLICED <= t && forall c | c in t :: c in SPLICED || IsDigit(c)
    ensures NamesAt(t, Start, "启动", 5)
  {
    SplicedOccurrences(t);
    assert Evidence(Start)[1] == "启动";
    SplicedMarkers(t);
    var only: string, m := "重新启动", "启动";
    forall a, n | a in ALL_ACTIONS && n in Evidence(a) && |n| > 2 && Contains(t, n)
      ensures n == only
    {
      assert n in ["重启", only, m];
    }
    assert only[0] == '重' && |only| == 4 && |m| == 2;
    NamedBeside(t, Start, m, 5, only);
  }

  /** A text that names a restart and, apart from it, a start, and is executed as a restart, for every VM. */
  lemma SplicedRestartIsAccepted(v: nat)
    requires 0 < v < INT64_LIMIT
    ensures var t := SPLICED + Format(v);
            TrimSpace(t) == t && NamesTwoActions(t) && Passes(t, Reboot, v)
  {
    var t := SPLICED + Format(v);
    PlainText(SPLICED, v);
    SplicedLeavesNothing(Format(v));
    NothingLeftByHeads(t);
    SplicedMarkers(t);
    SplicedNamesRestart(t);
    SplicedNamesStart(t);
    SplicedOccurrences(t);
    TwoActionsPassIff(t, Reboot, v);
  }

  // ---- An action the count does not know ----

  const UNCOUNTED := "关掉重启 "

  lemma UncountedEdges(t: string, b: Action, m: string)
    requires forall c | c in t :: c in UNCOUNTED || IsDigit(c)
    requires m in Evidence(b) && m != "关掉" && m != "重启"
    ensures EdgeMissing(t, m)
  {
  }

  /**
   A shutdown marker that no group of the count holds: the text counts once, though it names two actions and
   no removal joins anything. The check on the tool call refuses it, whatever the model sends.
   */
  lemma UncountedActionIsRefused(v: nat, call: ToolCall, allow: bool)
    requires 0 < v < INT64_LIMIT
    ensures var t := UNCOUNTED + Format(v);
            && TrimSpace(t) == t && NamesTwoActions(t) && ActionCount(t) == 1
            && Analyze(t).Ok? && Validated(Analyze(t).value, call, allow).Err?
  {
    var t := UNCOUNTED + Format(v);
    PlainText(UNCOUNTED, v);
    UncountedNamesTwo(t);
    UncountedCountsOnce(t);
    AnalyzeIsExact(t, v);
    UncountedHasNoRestart(t);
    forall a, w: nat ensures !Passes(t, a, w) {
      TwoActionsPassIff(t, a, w);
    }
    if Validated(Analyze(t).value, call, allow).Ok? {
      OnlyThePassingCall(t, call, allow);
    }
  }

  lemma UncountedHasNoRestart(t: string)
    requires forall c | c in t :: c in UNCOUNTED || IsDigit(c)
    ensures !OnlyRestartMarkers(t)
  {
    EdgeMissingIsAbsent(t, "重新启动");
  }

  lemma UncountedNamesTwo(t: string)
    requires UNCOUNTED <= t && forall c | c in t :: c in UNCOUNTED || IsDigit(c)
    ensures NamesAt(t, Shutdown, "关掉", 0) && NamesAt(t, Reboot, "重启", 2)
  {
    UncountedOccurrences(t);
    assert Evidence(Shutdown)[3] == "关掉" && Evidence(Reboot)[0] == "重启";
    forall a, longer | a in ALL_ACTIONS && longer in Evidence(a) && |longer| > 2
      ensures !Contains(t, longer)
    {
      UncountedEdges(t, a, longer);
      EdgeMissingIsAbsent(t, longer);
    }
    NamedBeside(t, Shutdown, "关掉", 0, "-");
    NamedBeside(t, Reboot, "重启", 2, "-");
  }

  lemma UncountedOccurrences(t: string)
    requires UNCOUNTED <= t
    ensures OccursAt(t, "关掉", 0) && OccursAt(t, "重启", 2)
    ensures '-' !in t[..5]
  {
    assert t[0..2] == UNCOUNTED[0..2] == "关掉" && t[2..4] == UNCOUNTED[2..4] == "重启";
    assert t[..5] == UNCOUNTED;
  }

  lemma UncountedCountsOnce(t: string)
    requires UNCOUNTED <= t && forall c | c in t :: c in UNCOUNTED || IsDigit(c)
    ensures ActionCount(t) == 1
  {
    forall g | 0 <= g < 4 && g != 1 ensures !Hit(t, g) {
      forall m | m in ACTION_GROUPS[g] ensures EdgeMissing(t, m) {
        var b := GroupMarkersAreEvidence(g, m);
        UncountedEdges(t, b, m);
      }
      GroupMissed(t, g);
    }
    ResidualShrinks(t, 1);
    UncountedOccurrences(t);
    assert Contains(t, "重启");
    assert ACTION_GROUPS[1][1] == "重启";
    HitsCountHits(t, 4);
    assert Hit(t, 1);
  }
}
