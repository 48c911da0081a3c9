/**
 The final-message rule (internal/managed/input.go): only the last message is read, it must be a
 user message made of plain text, and everything else in the request only produces warnings.
 */
module ChatInput {
  import opened Common
  import opened Text
  import opened Api

  datatype Part = Part(kind: string, text: string)

  /** What decoding a message's JSON content gives. */
  datatype Content = Blank | PlainText(text: string) | Parts(parts: seq<Part>) | Undecodable

  datatype Message = Message(role: string, content: Content)

  /** A chat request; of the ignored fields only their presence is kept. */
  datatype ChatRequest = ChatRequest(
    model: string,
    messages: seq<Message>,
    toolCount: nat,
    hasToolChoice: bool,
    hasResponseFormat: bool,
    hasTemperature: bool,
    hasTopP: bool,
    hasSeed: bool,
    hasStop: bool)

  datatype Warning =
    | EarlierMessages | ClientTools | ToolChoice | ResponseFormat | Temperature | TopP | Seed | StopSequences

  datatype Extracted = Extracted(original: string, warnings: seq<Warning>)

  function UserMessageError(): ApiError {
    ApiError(UserMessageRequired, 400)
  }

  predicate IsTextPart(p: Part) {
    p.kind == "text" && p.text != ""
  }

  function Join(parts: seq<Part>): string {
    if parts == [] then "" else Join(parts[..|parts| - 1]) + parts[|parts| - 1].text
  }

  function FinalText(content: Content): Option<string> {
    match content
    case Blank => None
    case Undecodable => None
    case PlainText(text) => Some(text)
    case Parts(parts) =>
      if parts != [] && forall p | p in parts :: IsTextPart(p) then Some(Join(parts)) else None
  }

  method FinalUserText(content: Content) returns (r: Option<string>)
    ensures r == FinalText(content)
  {
    match content
    case Blank => r := None;
    case Undecodable => r := None;
    case PlainText(text) => r := Some(text);
    case Parts(parts) =>
      if parts == [] {
        return None;
      }
      var joined := "";
      for i := 0 to |parts|
        invariant joined == Join(parts[..i])
        invariant forall p | p in parts[..i] :: IsTextPart(p)
      {
        if parts[i].kind != "text" || parts[i].text == "" {
          assert parts[i] in parts && !IsTextPart(parts[i]);
          return None;
        }
        assert parts[..i + 1][..i] == parts[..i];
        joined := joined + parts[i].text;
      }
      assert parts[..|parts|] == parts;
      r := Some(joined);
  }

  function AddIf(warnings: seq<Warning>, present: bool, w: Warning): seq<Warning> {
    if present then warnings + [w] else warnings
  }

  function Warnings(req: ChatRequest): seq<Warning> {
    var w1 := AddIf([], |req.messages| > 1, EarlierMessages);
    var w2 := AddIf(w1, req.toolCount > 0, ClientTools);
    var w3 := AddIf(w2, req.hasToolChoice, ToolChoice);
    var w4 := AddIf(w3, req.hasResponseFormat, ResponseFormat);
    var w5 := AddIf(w4, req.hasTemperature, Temperature);
    var w6 := AddIf(w5, req.hasTopP, TopP);
    var w7 := AddIf(w6, req.hasSeed, Seed);
    AddIf(w7, req.hasStop, StopSequences)
  }

  function Extract(req: ChatRequest, maxRunes: nat): Result<Extracted, ApiError> {
    if req.messages == [] then Err(UserMessageError())
    else
      var last := req.messages[|req.messages| - 1];
      if last.role != "user" || FinalText(last.content).None? then Err(UserMessageError())
      else
        var value := TrimSpace(FinalText(last.content).value);
        if value == "" || |value| > maxRunes then Err(UserMessageError())
        else Ok(Extracted(value, Warnings(req)))
  }

  method ExtractInput(req: ChatRequest, maxRunes: nat) returns (r: Result<Extracted, ApiError>)
    ensures r == Extract(req, maxRunes)
  {
    if |req.messages| == 0 {
      return Err(UserMessageError());
    }
    var last := req.messages[|req.messages| - 1];
    if last.role != "user" {
      return Err(UserMessageError());
    }
    var text := FinalUserText(last.content);
    if text.None? {
      return Err(UserMessageError());
    }
    var value := TrimSpace(text.value);
    if value == "" || |value| > maxRunes {
      return Err(UserMessageError());
    }
    var warnings := [];
    if |req.messages| > 1 { warnings := warnings + [EarlierMessages]; }
    if req.toolCount > 0 { warnings := warnings + [ClientTools]; }
    if req.hasToolChoice { warnings := warnings + [ToolChoice]; }
    if req.hasResponseFormat { warnings := warnings + [ResponseFormat]; }
    if req.hasTemperature { warnings := warnings + [Temperature]; }
    if req.hasTopP { warnings := warnings + [TopP]; }
    if req.hasSeed { warnings := warnings + [Seed]; }
    if req.hasStop { warnings := warnings + [StopSequences]; }
    r := Ok(Extracted(value, warnings));
  }

  /** The part of a request that a warning is about is there. */
  predicate Present(req: ChatRequest, w: Warning) {
    match w
    case EarlierMessages => |req.messages| > 1
    case ClientTools => req.toolCount > 0
    case ToolChoice => req.hasToolChoice
    case ResponseFormat => req.hasResponseFormat
    case Temperature => req.hasTemperature
    case TopP => req.hasTopP
    case Seed => req.hasSeed
    case StopSequences => req.hasStop
  }

  /** A warning is given exactly when its part of the request is present and ignored. */
  lemma WarningsAreExact(req: ChatRequest, w: Warning)
    ensures w in Warnings(req) <==> Present(req, w)
  {
    var w4 := AddIf(AddIf(AddIf(AddIf([], |req.messages| > 1, EarlierMessages), req.toolCount > 0, ClientTools),
                          req.hasToolChoice, ToolChoice), req.hasResponseFormat, ResponseFormat);
    RequestWarnings(req, w);
    SettingsWarnings(req, w4, w);
  }

  lemma AddIfAdds(warnings: seq<Warning>, present: bool, w: Warning, x: Warning)
    ensures x in AddIf(warnings, present, w) <==> x in warnings || (present && x == w)
  {
  }

  lemma RequestWarnings(req: ChatRequest, w: Warning)
    ensures w in AddIf(AddIf(AddIf(AddIf([], |req.messages| > 1, EarlierMessages), req.toolCount > 0, ClientTools),
                             req.hasToolChoice, ToolChoice), req.hasResponseFormat, ResponseFormat)
            <==> w in [EarlierMessages, ClientTools, ToolChoice, ResponseFormat] && Present(req, w)
  {
    var w1 := AddIf([], |req.messages| > 1, EarlierMessages);
    var w2 := AddIf(w1, req.toolCount > 0, ClientTools);
    var w3 := AddIf(w2, req.hasToolChoice, ToolChoice);
    AddIfAdds([], |req.messages| > 1, EarlierMessages, w);
    AddIfAdds(w1, req.toolCount > 0, ClientTools, w);
    AddIfAdds(w2, req.hasToolChoice, ToolChoice, w);
    AddIfAdds(w3, req.hasResponseFormat, ResponseFormat, w);
  }

  lemma SettingsWarnings(req: ChatRequest, w4: seq<Warning>, w: Warning)
    ensures w in AddIf(AddIf(AddIf(AddIf(w4, req.hasTemperature, Temperature), req.hasTopP, TopP), req.hasSeed, Seed),
                       req.hasStop, StopSequences)
            <==> w in w4 || (w in [Temperature, TopP, Seed, StopSequences] && Present(req, w))
  {
    var w5 := AddIf(w4, req.hasTemperature, Temperature);
    var w6 := AddIf(w5, req.hasTopP, TopP);
    var w7 := AddIf(w6, req.hasSeed, Seed);
    AddIfAdds(w4, req.hasTemperature, Temperature, w);
    AddIfAdds(w5, req.hasTopP, TopP, w);
    AddIfAdds(w6, req.hasSeed, Seed, w);
    AddIfAdds(w7, req.hasStop, StopSequences, w);
  }

  /** Two requests that may differ in everything but the model and the last message. */
  predicate SameFinalMessage(a: ChatRequest, b: ChatRequest) {
    && a.model == b.model
    && (a.messages == [] <==> b.messages == [])
    && (a.messages != [] ==> a.messages[|a.messages| - 1] == b.messages[|b.messages| - 1])
  }

  /** The text taken from a request is trimmed, within the limit, and a function of the last message alone. */
  lemma OnlyTheFinalMessageCounts(a: ChatRequest, b: ChatRequest, maxRunes: nat)
    requires SameFinalMessage(a, b)
    ensures Extract(a, maxRunes).Ok? <==> Extract(b, maxRunes).Ok?
    ensures Extract(a, maxRunes).Ok? ==>
              var text := Extract(a, maxRunes).value.original;
              text == Extract(b, maxRunes).value.original && Trimmed(text) && 0 < |text| <= maxRunes
    ensures Extract(a, maxRunes).Err? ==> Extract(a, maxRunes) == Extract(b, maxRunes) == Err(UserMessageError())
  {
    if Extract(a, maxRunes).Ok? {
      TrimIsIdempotent(FinalText(a.messages[|a.messages| - 1].content).value);
    }
  }

  lemma JoinOfOne(p: Part)
    ensures Join([]) == "" && Join([p]) == p.text
  {
    assert [p][..0] == [];
  }

  /** Joining goes over lists put together. */
  lemma {:induction false} JoinIsConcatenation(a: seq<Part>, b: seq<Part>)
    ensures Join(a + b) == Join(a) + Join(b)
    decreases |b|
  {
    if b == [] {
      assert a + b == a;
    } else {
      var n := |b| - 1;
      assert (a + b)[..|a + b| - 1] == a + b[..n];
      JoinIsConcatenation(a, b[..n]);
    }
  }

  /** Every part's text is in the joined text, between the texts of the parts before it and of those after it. */
  lemma EveryPartIsInPlace(parts: seq<Part>, i: nat)
    requires i < |parts|
    ensures Join(parts) == Join(parts[..i]) + parts[i].text + Join(parts[i + 1..])
  {
    PartsAroundOne(parts[..i], parts[i], parts[i + 1..]);
    assert parts == parts[..i] + [parts[i]] + parts[i + 1..];
  }

  lemma PartsAroundOne(before: seq<Part>, p: Part, after: seq<Part>)
    ensures Join(before + [p] + after) == Join(before) + p.text + Join(after)
  {
    JoinOfOne(p);
    JoinIsConcatenation(before, [p]);
    JoinIsConcatenation(before + [p], after);
  }

  /** The text of a request's last message, if it is a user's and made of text alone. */
  ghost predicate HasText(req: ChatRequest, text: string) {
    && req.messages != []
    && var last := req.messages[|req.messages| - 1];
       && last.role == "user"
       && match last.content
          case Blank => false
          case Undecodable => false
          case PlainText(plain) => text == plain
          case Parts(parts) =>
            parts != [] && (forall p | p in parts :: p.kind == "text" && p.text != "") && text == Join(parts)
  }

  /** Exactly when a text is taken from a request, and that it is the whole text of the last message, trimmed. */
  lemma ExtractIsExact(req: ChatRequest, maxRunes: nat, t: string)
    ensures Extract(req, maxRunes).Ok? && Extract(req, maxRunes).value.original == t <==>
            exists text :: HasText(req, text) && t == TrimSpace(text) && 0 < |t| <= maxRunes
    ensures Extract(req, maxRunes).Ok? ==> Extract(req, maxRunes).value.warnings == Warnings(req)
    ensures Extract(req, maxRunes).Err? ==> Extract(req, maxRunes).error == ApiError(UserMessageRequired, 400)
  {
    if Extract(req, maxRunes).Ok? {
      assert HasText(req, FinalText(req.messages[|req.messages| - 1].content).value);
    }
  }

  function Rank(w: Warning): nat {
    match w
    case EarlierMessages => 0
    case ClientTools => 1
    case ToolChoice => 2
    case ResponseFormat => 3
    case Temperature => 4
    case TopP => 5
    case Seed => 6
    case StopSequences => 7
  }

  /** The warnings below rank n, in the order of their ranks. */
  predicate Ranked(warnings: seq<Warning>, n: nat) {
    && (forall i | 0 <= i < |warnings| :: Rank(warnings[i]) < n)
    && (forall i, j | 0 <= i < j < |warnings| :: Rank(warnings[i]) < Rank(warnings[j]))
  }

  lemma AddIfKeepsRanks(warnings: seq<Warning>, present: bool, w: Warning)
    requires Ranked(warnings, Rank(w))
    ensures Ranked(AddIf(warnings, present, w), Rank(w) + 1)
  {
  }

  lemma RequestWarningsAreInOrder(req: ChatRequest)
    ensures Ranked(AddIf(AddIf(AddIf(AddIf([], |req.messages| > 1, EarlierMessages), req.toolCount > 0, ClientTools),
                               req.hasToolChoice, ToolChoice), req.hasResponseFormat, ResponseFormat), 4)
  {
    var w1 := AddIf([], |req.messages| > 1, EarlierMessages);
    var w2 := AddIf(w1, req.toolCount > 0, ClientTools);
    AddIfKeepsRanks([], |req.messages| > 1, EarlierMessages);
    AddIfKeepsRanks(w1, req.toolCount > 0, ClientTools);
    AddIfKeepsRanks(w2, req.hasToolChoice, ToolChoice);
    AddIfKeepsRanks(AddIf(w2, req.hasToolChoice, ToolChoice), req.hasResponseFormat, ResponseFormat);
  }

  lemma SettingsWarningsAreInOrder(req: ChatRequest, w4: seq<Warning>)
    requires Ranked(w4, 4)
    ensures Ranked(AddIf(AddIf(AddIf(AddIf(w4, req.hasTemperature, Temperature), req.hasTopP, TopP), req.hasSeed, Seed),
                         req.hasStop, StopSequences), 8)
  {
    var w5 := AddIf(w4, req.hasTemperature, Temperature);
    var w6 := AddIf(w5, req.hasTopP, TopP);
    AddIfKeepsRanks(w4, req.hasTemperature, Temperature);
    AddIfKeepsRanks(w5, req.hasTopP, TopP);
    AddIfKeepsRanks(w6, req.hasSeed, Seed);
    AddIfKeepsRanks(AddIf(w6, req.hasSeed, Seed), req.hasStop, StopSequences);
  }

  /** No warning is given twice, and they come in one fixed order. */
  lemma WarningsAreInOrder(req: ChatRequest)
    ensures Ranked(Warnings(req), 8)
  {
    RequestWarningsAreInOrder(req);
    SettingsWarningsAreInOrder(req, AddIf(AddIf(AddIf(AddIf([], |req.messages| > 1, EarlierMessages), req.toolCount > 0,
                                                      ClientTools), req.hasToolChoice, ToolChoice),
                                          req.hasResponseFormat, ResponseFormat));
  }
}
