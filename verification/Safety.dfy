/**
 Checks made on the text before the model sees it (internal/managed/safety.go): the single VM ID,
 condition and batch markers, the count of explicit actions, and the negation flag.
 */
module Safety {
  import opened Common
  import opened Text
  import opened Decimal
  import opened Api

  const CONDITIONS: seq<string> := ["如果", "假如", "要是", "确认后", "完成后"]
  const BATCHES: seq<string> := ["全部", "所有", "分别", "依次", "然后", "接着"]
  const NEGATIONS: seq<string> := ["不要", "别", "禁止", "取消", "无需", "不允许", "不是", "没有", "没开"]

  type Marker = m: string | m != "" witness "-"

  const ACTION_GROUPS: seq<seq<Marker>> := [
    ["强制停止", "强制关机", "强制断电"],
    ["重新启动", "重启"],
    ["正常关闭", "正常关机", "优雅关机", "关闭", "关机"],
    ["开启", "启动", "开机", "打开"]
  ]

  datatype Input = Input(original: string, vmid: nat, hasNegation: bool)

  // ---- Counting explicit actions ----

  /** What one group's markers leave of the text, and whether any of them was found. */
  function Strip(markers: seq<Marker>, remaining: string): (string, bool) {
    if markers == [] then (remaining, false)
    else if Contains(remaining, markers[0]) then (Strip(markers[1..], RemoveAll(remaining, markers[0])).0, true)
    else Strip(markers[1..], remaining)
  }

  /** What is left of the text before group g is looked at. */
  function Residual(text: string, g: nat): string
    requires g <= |ACTION_GROUPS|
  {
    if g == 0 then text else Strip(ACTION_GROUPS[g - 1], Residual(text, g - 1)).0
  }

  /** Group g is found in what the groups before it left. */
  predicate Hit(text: string, g: nat)
    requires g < |ACTION_GROUPS|
  {
    ContainsAny(Residual(text, g), ACTION_GROUPS[g])
  }

  function Hits(text: string, n: nat): nat
    requires n <= |ACTION_GROUPS|
  {
    if n == 0 then 0 else Hits(text, n - 1) + (if Hit(text, n - 1) then 1 else 0)
  }

  function ActionCount(text: string): nat {
    Hits(text, |ACTION_GROUPS|)
  }

  lemma {:induction false} StripFindsFirst(markers: seq<Marker>, remaining: string)
    ensures Strip(markers, remaining).1 <==> ContainsAny(remaining, markers)
    ensures !Strip(markers, remaining).1 ==> Strip(markers, remaining).0 == remaining
  {
    if markers != [] {
      StripFindsFirst(markers[1..], remaining);
      assert forall m | m in markers :: m == markers[0] || m in markers[1..];
      if Contains(remaining, markers[0]) {
        assert markers[0] in markers;
      }
    }
  }

  lemma {:induction false} StripIsSubsequence(markers: seq<Marker>, remaining: string)
    ensures IsSubsequence(Strip(markers, remaining).0, remaining)
  {
    if markers == [] {
      SubsequenceIsReflexive(remaining);
    } else if Contains(remaining, markers[0]) {
      var next := RemoveAll(remaining, markers[0]);
      StripIsSubsequence(markers[1..], next);
      RemoveAllIsSubsequence(remaining, markers[0]);
      SubsequenceIsTransitive(Strip(markers, remaining).0, next, remaining);
    } else {
      StripIsSubsequence(markers[1..], remaining);
    }
  }

  /** The text shrinks to a subsequence of itself and is untouched until the first group is found. */
  lemma {:induction false} ResidualShrinks(text: string, g: nat)
    requires g <= |ACTION_GROUPS|
    ensures IsSubsequence(Residual(text, g), text)
    ensures (forall h | 0 <= h < g :: !Hit(text, h)) ==> Residual(text, g) == text
  {
    if g == 0 {
      SubsequenceIsReflexive(text);
    } else {
      ResidualShrinks(text, g - 1);
      var before := Residual(text, g - 1);
      StripFindsFirst(ACTION_GROUPS[g - 1], before);
      StripIsSubsequence(ACTION_GROUPS[g - 1], before);
      SubsequenceIsTransitive(Residual(text, g), before, text);
      assert Hit(text, g - 1) <==> ContainsAny(before, ACTION_GROUPS[g - 1]);
    }
  }

  lemma {:induction false} HitsCountHits(text: string, n: nat)
    requires n <= |ACTION_GROUPS|
    ensures Hits(text, n) == 0 <==> forall h | 0 <= h < n :: !Hit(text, h)
    ensures Hits(text, n) > 1 <==> exists g, h | 0 <= g < h < n :: Hit(text, g) && Hit(text, h)
  {
    if n > 0 {
      HitsCountHits(text, n - 1);
      if Hits(text, n) > 1 && Hits(text, n - 1) <= 1 {
        var g :| 0 <= g < n - 1 && Hit(text, g);
        assert Hit(text, g) && Hit(text, n - 1);
      }
    }
  }

  /** Nothing is found from group g on exactly when what is left there holds no marker of those groups. */
  lemma {:induction false} NoHitsIffNoMarkers(text: string, g: nat, n: nat)
    requires g <= n <= |ACTION_GROUPS|
    ensures (forall h | g <= h < n :: !Hit(text, h)) <==>
            forall h | g <= h < n :: !ContainsAny(Residual(text, g), ACTION_GROUPS[h])
    ensures (forall h | g <= h < n :: !Hit(text, h)) ==> Residual(text, n) == Residual(text, g)
    decreases n
  {
    if g < n {
      NoHitsIffNoMarkers(text, g, n - 1);
      StripFindsFirst(ACTION_GROUPS[n - 1], Residual(text, n - 1));
      assert Hit(text, n - 1) <==> ContainsAny(Residual(text, n - 1), ACTION_GROUPS[n - 1]);
    }
  }

  /** The count is zero exactly when the text holds no marker of any group, despite the removals in between. */
  lemma CountIsZeroIffNoMarker(text: string)
    ensures ActionCount(text) == 0 <==> forall g | 0 <= g < |ACTION_GROUPS| :: !ContainsAny(text, ACTION_GROUPS[g])
  {
    HitsCountHits(text, |ACTION_GROUPS|);
    NoHitsIffNoMarkers(text, 0, |ACTION_GROUPS|);
  }

  lemma NoFirstCharacterNoMarker(text: string, marker: Marker)
    requires marker[0] !in text
    ensures !Contains(text, marker)
  {
    forall i | 0 <= i <= |text| - |marker|
      ensures !OccursAt(text, marker, i)
    {
      assert text[i..i + |marker|][0] == text[i] && text[i] in text;
    }
  }

  lemma {:induction false} StripsNothing(text: string, markers: seq<Marker>)
    requires forall m: Marker | m in markers :: m[0] !in text
    ensures Strip(markers, text) == (text, false)
  {
    if markers != [] {
      NoFirstCharacterNoMarker(text, markers[0]);
      StripsNothing(text, markers[1..]);
    }
  }

  /** What the markers of the reboot group leave of the spliced text: its pieces join up to a marker and go as well. */
  lemma RebootGroupTakesAll()
    ensures Strip(["重新启动", "重启"], "重重新启动启动") == ("动", true)
  {
    var text, m1, m2 := "重重新启动启动", "重新启动", "重启";
    assert text[1..5] == m1 && OccursAt(text, m1, 1);
    assert text[1..][..4] == m1 && text[1..][4..] == "启动";
    assert RemoveAll("启动", m1) == "启动";
    assert RemoveAll(text[1..], m1) == "启动";
    assert text[..4] != m1 by { assert text[1] != m1[1]; }
    assert RemoveAll(text, m1) == "重启动";
    var rest := "重启动";
    assert rest[0..2] == m2 && OccursAt(rest, m2, 0);
    assert rest[..2] == m2 && rest[2..] == "动";
    assert RemoveAll(rest, m2) == "动";
    var markers: seq<Marker> := ["重新启动", "重启"];
    assert markers[1..] == ["重启"] && markers[1..][1..] == [];
  }

  /**
   The count alone does not find every text with several actions: removal joins the two pieces around the long
   restart marker to a second one, which takes the start marker's first character along. The gate as a whole is
   treated in `Gate`.
   */
  lemma SplicedActionsCountOnce()
    ensures var text := "重重新启动启动";
            && OccursAt(text, "重新启动", 1) && "重新启动" in ACTION_GROUPS[1]
            && OccursAt(text, "启动", 5) && "启动" in ACTION_GROUPS[3]
            && ActionCount(text) == 1
  {
    var text := "重重新启动启动";
    assert text[1..5] == "重新启动" && text[5..7] == "启动";
    StripsNothing(text, ACTION_GROUPS[0]);
    RebootGroupTakesAll();
    StripsNothing("动", ACTION_GROUPS[2]);
    StripsNothing("动", ACTION_GROUPS[3]);
    assert Residual(text, 1) == text && Residual(text, 2) == "动" && Residual(text, 3) == "动";
    StripFindsFirst(ACTION_GROUPS[0], text);
    StripFindsFirst(ACTION_GROUPS[1], text);
    StripFindsFirst(ACTION_GROUPS[2], "动");
    StripFindsFirst(ACTION_GROUPS[3], "动");
    assert !Hit(text, 0) && Hit(text, 1) && !Hit(text, 2) && !Hit(text, 3);
    assert Hits(text, 1) == 0 && Hits(text, 2) == 1 && Hits(text, 3) == 1;
  }

  method ExplicitActionCount(text: string) returns (count: nat)
    ensures count == ActionCount(text)
  {
    count := 0;
    var remaining := text;
    for g := 0 to |ACTION_GROUPS|
      invariant count == Hits(text, g)
      invariant remaining == Residual(text, g)
    {
      var markers := ACTION_GROUPS[g];
      var matched := false;
      ghost var whole := Strip(markers, remaining);
      for i := 0 to |markers|
        invariant whole == (Strip(markers[i..], remaining).0, matched || Strip(markers[i..], remaining).1)
      {
        assert markers[i..][1..] == markers[i + 1..];
        if Contains(remaining, markers[i]) {
          remaining := RemoveAll(remaining, markers[i]);
          matched := true;
        }
      }
      StripFindsFirst(markers, Residual(text, g));
      if matched {
        count := count + 1;
      }
    }
  }

  // ---- The whole check ----

  predicate ValidId(numeral: string)
    requires IsNumeral(numeral)
  {
    ParseInt64(numeral).Some? && ParseInt64(numeral).value > 0
  }

  function IdsOf(matches: seq<string>): set<nat>
    requires forall m | m in matches :: IsNumeral(m)
  {
    set m | m in matches :: Denotes(m)
  }

  predicate IsComplex(text: string) {
    ContainsAny(text, CONDITIONS + BATCHES) || (Contains(text, "等") && Contains(text, "再"))
  }

  function SafetyError(code: Code): ApiError {
    ApiError(code, 422)
  }

  function Analyze(text: string): Result<Input, ApiError> {
    var original := TrimSpace(text);
    var matches := FindAll(original);
    if exists m | m in matches :: !ValidId(m) then Err(SafetyError(InvalidVmid))
    else if |IdsOf(matches)| != 1 then Err(SafetyError(SingleVmidRequired))
    else if IsComplex(original) then Err(SafetyError(ComplexManagedCommand))
    else if ActionCount(original) > 1 then Err(SafetyError(MultipleActions))
    else
      assert matches != [];
      Ok(Input(original, Denotes(matches[0]), ContainsAny(original, NEGATIONS)))
  }

  /** The marker loop shared by the structure and negation checks. */
  method ContainsMarker(text: string, markers: seq<string>) returns (found: bool)
    ensures found == ContainsAny(text, markers)
  {
    for i := 0 to |markers|
      invariant forall m | m in markers[..i] :: !Contains(text, m)
    {
      if Contains(text, markers[i]) {
        return true;
      }
    }
    found := false;
  }

  /** The loop over all matches: the set of IDs, or None at the first one that is not a positive int64. */
  method CollectIds(matches: seq<string>) returns (r: Option<set<nat>>)
    requires forall m | m in matches :: IsNumeral(m)
    ensures r == if exists m | m in matches :: !ValidId(m) then None else Some(IdsOf(matches))
  {
    var ids: set<nat> := {};
    for n := 0 to |matches|
      invariant ids == IdsOf(matches[..n])
      invariant forall m | m in matches[..n] :: ValidId(m)
    {
      var id := ParseInt64(matches[n]);
      if id.None? || id.value == 0 {
        assert matches[n] in matches && !ValidId(matches[n]);
        return None;
      }
      assert matches[..n + 1] == matches[..n] + [matches[n]];
      ids := ids + {id.value};
    }
    assert matches[..|matches|] == matches;
    r := Some(ids);
  }

  /** Ranging over a one-element set, in whatever order, ends with its element. */
  method SoleMember(ids: set<nat>, ghost v: nat) returns (vmid: nat)
    requires |ids| == 1 && v in ids
    ensures vmid == v
  {
    vmid := 0;
    var rest := ids;
    while rest != {}
      invariant rest <= ids
      invariant rest != ids ==> vmid in ids
      decreases rest
    {
      vmid :| vmid in rest;
      rest := rest - {vmid};
    }
    SingletonMember(ids, vmid, v);
  }

  method AnalyzeInput(text: string) returns (r: Result<Input, ApiError>)
    ensures r == Analyze(text)
  {
    var original := TrimSpace(text);
    var matches := FindAll(original);
    var ids := CollectIds(matches);
    if ids.None? {
      return Err(SafetyError(InvalidVmid));
    }
    if |ids.value| != 1 {
      return Err(SafetyError(SingleVmidRequired));
    }
    var complex := ContainsMarker(original, CONDITIONS + BATCHES);
    if complex || (Contains(original, "等") && Contains(original, "再")) {
      return Err(SafetyError(ComplexManagedCommand));
    }
    var count := ExplicitActionCount(original);
    if count > 1 {
      return Err(SafetyError(MultipleActions));
    }
    var vmid := SoleMember(ids.value, Denotes(matches[0]));
    var negated := ContainsMarker(original, NEGATIONS);
    r := Ok(Input(original, vmid, negated));
  }

  lemma SingletonMember(s: set<nat>, x: nat, y: nat)
    requires |s| == 1 && x in s && y in s
    ensures x == y
  {
    var rest := s - {x};
    assert |rest| == 0;
    assert y != x <==> y in rest;
  }

  lemma IdsAreTheNamedNumbers(text: string, v: nat)
    ensures v in IdsOf(FindAll(text)) <==> Names(text, v)
  {
    var matches := FindAll(text);
    if v in IdsOf(matches) {
      var m :| m in matches && Denotes(m) == v;
      MatchesAreTheMaximalRuns(text, m);
    }
    if Names(text, v) {
      var i, j :| MaximalRun(text, i, j) && Denotes(text[i..j]) == v;
      MatchesAreTheMaximalRuns(text, text[i..j]);
    }
  }

  /** v is the only number the text names, and it fits a positive int64. */
  ghost predicate OnlyId(text: string, v: nat) {
    0 < v < INT64_LIMIT && Names(text, v) && forall u: nat | Names(text, u) :: u == v
  }

  lemma SoleIdIff(text: string, v: nat)
    ensures OnlyId(text, v) <==>
            && (forall m | m in FindAll(text) :: ValidId(m))
            && |IdsOf(FindAll(text))| == 1
            && Denotes(FindAll(text)[0]) == v
  {
    var matches := FindAll(text);
    var ids := IdsOf(matches);
    forall u: nat ensures u in ids <==> Names(text, u) { IdsAreTheNamedNumbers(text, u); }
    if OnlyId(text, v) {
      assert ids == {v};
      assert forall m | m in matches :: Denotes(m) in ids;
      assert matches != [];
    }
    if (forall m | m in matches :: ValidId(m)) && |ids| == 1 && Denotes(matches[0]) == v {
      assert v in ids;
      forall u | u in ids ensures u == v { SingletonMember(ids, u, v); }
    }
  }

  /**
   VM ID extraction is exact: the check succeeds with v iff v is the only number named by the
   trimmed text's maximal digit runs, it is a positive int64, and no structure marker is present.
   */
  lemma AnalyzeIsExact(text: string, v: nat)
    ensures var t := TrimSpace(text);
            && (Analyze(text).Ok? && Analyze(text).value.vmid == v <==>
                 OnlyId(t, v) && !IsComplex(t) && ActionCount(t) <= 1)
            && (Analyze(text).Ok? ==>
                  Analyze(text).value == Input(t, Analyze(text).value.vmid, ContainsAny(t, NEGATIONS)))
  {
    SoleIdIff(TrimSpace(text), v);
  }

  lemma ValidIdsIff(text: string)
    ensures (forall m | m in FindAll(text) :: ValidId(m)) <==> forall u: nat | Names(text, u) :: 0 < u < INT64_LIMIT
  {
    var matches := FindAll(text);
    if forall m | m in matches :: ValidId(m) {
      forall u: nat | Names(text, u) ensures 0 < u < INT64_LIMIT {
        IdsAreTheNamedNumbers(text, u);
        var m :| m in matches && Denotes(m) == u;
      }
    }
    if forall u: nat | Names(text, u) :: 0 < u < INT64_LIMIT {
      forall m | m in matches ensures ValidId(m) {
        assert Denotes(m) in IdsOf(matches);
        IdsAreTheNamedNumbers(text, Denotes(m));
      }
    }
  }

  /** The two ID errors, by what the text's numbers are: one of them out of range, or not exactly one of them. */
  lemma IdErrorsAreExact(text: string)
    ensures var t := TrimSpace(text);
            var inRange := forall u: nat | Names(t, u) :: 0 < u < INT64_LIMIT;
            && (Analyze(text) == Err(SafetyError(InvalidVmid)) <==> !inRange)
            && (Analyze(text) == Err(SafetyError(SingleVmidRequired)) <==> inRange && !exists v: nat :: OnlyId(t, v))
  {
    var t := TrimSpace(text);
    var matches := FindAll(t);
    ValidIdsIff(t);
    if matches != [] {
      SoleIdIff(t, Denotes(matches[0]));
      assert matches[0] in matches && Denotes(matches[0]) in IdsOf(matches);
      IdsAreTheNamedNumbers(t, Denotes(matches[0]));
    }
    if v: nat :| OnlyId(t, v) {
      SoleIdIff(t, v);
    }
  }

  /** The two structure errors: one good ID, and a condition or batch marker, or else several actions. */
  lemma StructureErrorsAreExact(text: string)
    ensures var t := TrimSpace(text);
            var oneId := exists v: nat :: OnlyId(t, v);
            && (Analyze(text) == Err(SafetyError(ComplexManagedCommand)) <==> oneId && IsComplex(t))
            && (Analyze(text) == Err(SafetyError(MultipleActions)) <==> oneId && !IsComplex(t) && ActionCount(t) > 1)
  {
    var t := TrimSpace(text);
    IdErrorsAreExact(text);
    if v: nat :| OnlyId(t, v) {
      SoleIdIff(t, v);
    }
  }

  // ---- What does not change the ID ----

  /** No digit run crosses from one text into the other. */
  predicate Separate(before: string, after: string) {
    before == "" || after == "" || !IsDigit(before[|before| - 1]) || !IsDigit(after[0])
  }

  lemma RunsBeforeSeparator(before: string, c: char, after: string, i: int, j: int)
    requires !IsDigit(c) && Separate(before, after) && 0 <= i < j <= |before|
    ensures var long, short := before + [c] + after, before + after;
            long[i..j] == short[i..j] && (MaximalRun(long, i, j) <==> MaximalRun(short, i, j))
  {
    var n := |before|;
    var long, short := before + [c] + after, before + after;
    assert forall k | 0 <= k < n :: long[k] == short[k] == before[k];
    assert long[n] == c;
    assert after != "" ==> short[n] == after[0];
  }

  lemma RunsAfterSeparator(before: string, c: char, after: string, i: int, j: int)
    requires !IsDigit(c) && Separate(before, after) && |before| <= i < j <= |before + after|
    ensures var long, short := before + [c] + after, before + after;
            long[i + 1..j + 1] == short[i..j] && (MaximalRun(long, i + 1, j + 1) <==> MaximalRun(short, i, j))
  {
    var n := |before|;
    var long, short := before + [c] + after, before + after;
    assert forall k | n <= k < |short| :: long[k + 1] == short[k] == after[k - n];
    assert long[n] == c;
    assert n > 0 ==> short[n - 1] == before[n - 1];
    assert long[i + 1..j + 1] == short[i..j];
    if MaximalRun(short, i, j) {
      assert forall k | i + 1 <= k < j + 1 :: long[k] == short[k - 1];
      assert MaximalRun(long, i + 1, j + 1);
    }
    if MaximalRun(long, i + 1, j + 1) {
      assert forall k | i <= k < j :: short[k] == long[k + 1];
      assert i > n ==> short[i - 1] == long[i];
      assert short[i] == long[i + 1];
      assert MaximalRun(short, i, j);
    }
  }

  lemma NoRunCrosses(before: string, after: string, i: int, j: int)
    requires Separate(before, after) && MaximalRun(before + after, i, j)
    ensures j <= |before| || |before| <= i
  {
    var n, text := |before|, before + after;
    if before != "" && after != "" {
      assert text[n - 1] == before[n - 1] && text[n] == after[0];
    }
  }

  /** A character that is no digit, put where it cuts no digit run, leaves the named numbers as they are. */
  lemma NamesWithoutSeparator(before: string, c: char, after: string, v: nat)
    requires !IsDigit(c) && Separate(before, after)
    ensures Names(before + [c] + after, v) <==> Names(before + after, v)
  {
    var n := |before|;
    var long, short := before + [c] + after, before + after;
    if i, j :| MaximalRun(long, i, j) && Denotes(long[i..j]) == v {
      assert long[n] == c;
      if j <= n {
        RunsBeforeSeparator(before, c, after, i, j);
      } else {
        RunsAfterSeparator(before, c, after, i - 1, j - 1);
      }
    }
    if i, j :| MaximalRun(short, i, j) && Denotes(short[i..j]) == v {
      NoRunCrosses(before, after, i, j);
      if j <= n {
        RunsBeforeSeparator(before, c, after, i, j);
      } else {
        RunsAfterSeparator(before, c, after, i, j);
      }
    }
  }

  lemma {:induction false} TrimLeftKeepsNames(s: string, v: nat)
    ensures Names(TrimLeft(s), v) <==> Names(s, v)
  {
    if s != "" && IsSpace(s[0]) {
      assert "" + [s[0]] + s[1..] == s && "" + s[1..] == s[1..];
      NamesWithoutSeparator("", s[0], s[1..], v);
      TrimLeftKeepsNames(s[1..], v);
    }
  }

  lemma {:induction false} TrimRightKeepsNames(s: string, v: nat)
    ensures Names(TrimRight(s), v) <==> Names(s, v)
  {
    var n := |s| - 1;
    if s != "" && IsSpace(s[n]) {
      assert s[..n] + [s[n]] + "" == s && s[..n] + "" == s[..n];
      NamesWithoutSeparator(s[..n], s[n], "", v);
      TrimRightKeepsNames(s[..n], v);
    }
  }

  /** Outer white space does not matter for the ID. */
  lemma TrimmingKeepsTheId(text: string, v: nat)
    ensures Names(TrimSpace(text), v) <==> Names(text, v)
    ensures OnlyId(TrimSpace(text), v) <==> OnlyId(text, v)
  {
    forall u: nat ensures Names(TrimSpace(text), u) <==> Names(text, u) {
      TrimLeftKeepsNames(text, u);
      TrimRightKeepsNames(TrimLeft(text), u);
    }
  }

  /**
   A sign is not read: put directly before a number it changes neither the ID nor either of the ID errors,
   so a negative number is taken for its absolute value.
   */
  lemma SignIsIgnored(before: string, sign: char, after: string)
    requires after != "" && IsDigit(after[0]) && !IsDigit(sign)
    requires before == "" || !IsDigit(before[|before| - 1])
    ensures var signed, plain := before + [sign] + after, before + after;
            && (forall v: nat :: OnlyId(TrimSpace(signed), v) <==> OnlyId(TrimSpace(plain), v))
            && (forall code | code == InvalidVmid || code == SingleVmidRequired ::
                 Analyze(signed) == Err(SafetyError(code)) <==> Analyze(plain) == Err(SafetyError(code)))
  {
    var signed, plain := before + [sign] + after, before + after;
    forall u: nat
      ensures Names(TrimSpace(signed), u) <==> Names(TrimSpace(plain), u)
      ensures OnlyId(TrimSpace(signed), u) <==> OnlyId(TrimSpace(plain), u)
    {
      forall w: nat ensures Names(signed, w) <==> Names(plain, w) {
        NamesWithoutSeparator(before, sign, after, w);
      }
      TrimmingKeepsTheId(signed, u);
      TrimmingKeepsTheId(plain, u);
    }
    IdErrorsAreExact(signed);
    IdErrorsAreExact(plain);
  }

  /** A printed ID set between digit-free texts is the one ID found; only the structure of the text can refuse it. */
  lemma PrintedIdIsReadBack(before: string, v: nat, after: string)
    requires 0 < v < INT64_LIMIT
    requires forall k | 0 <= k < |before| :: !IsDigit(before[k])
    requires forall k | 0 <= k < |after| :: !IsDigit(after[k])
    ensures var text := before + Format(v) + after; var t := TrimSpace(text);
            && OnlyId(t, v)
            && Analyze(text) == if IsComplex(t) then Err(SafetyError(ComplexManagedCommand))
                                else if ActionCount(t) > 1 then Err(SafetyError(MultipleActions))
                                else Ok(Input(t, v, ContainsAny(t, NEGATIONS)))
  {
    var text := before + Format(v) + after;
    var a, b := |before|, |before| + |Format(v)|;
    FormatRoundTrip(v);
    assert text[a..b] == Format(v);
    forall i: int, j: int ensures MaximalRun(text, i, j) <==> i == a && j == b {
      EmbeddedNumeralIsTheOnlyRun(before, Format(v), after, i, j);
    }
    assert MaximalRun(text, a, b);
    TrimmingKeepsTheId(text, v);
    SoleIdIff(TrimSpace(text), v);
  }
}
