// Wire events and their envelope: protocol/protocol_event.go.
module Events {
  import opened Wrappers
  import opened Json
  import opened Content
  import opened ToolValue

  const LIMIT32: nat := 0x1_0000_0000
  const LIMIT64: nat := 0x1_0000_0000_0000_0000

  type uint32 = n: nat | n < LIMIT32
  type uint64 = n: nat | n < LIMIT64

  datatype Usage = Usage(inputOther: uint64, output: uint64, inputCacheRead: uint64, inputCacheCreation: uint64)

  datatype Event =
    | TurnBeginEvent(userInput: Content)
    | TurnEndEvent
    | StepBeginEvent(n: uint32)
    | StepInterruptedEvent
    | StepRetryEvent(n: uint32, nextAttempt: uint32, maxAttempts: uint32, waitS: uint32, errorType: string,
                     statusCode: Option<uint32>)
    | CompactionBeginEvent
    | CompactionEndEvent
    | StatusUpdateEvent(contextUsage: Option<Number>, contextTokens: Option<uint64>, maxContextTokens: Option<uint64>,
                        tokenUsage: Option<Usage>, messageId: string, planMode: Option<bool>)
    | ContentPartEvent(part: ContentPart)
    | ToolCallEvent(id: string, name: string, arguments: Option<string>, extras: Option<Json>)
    | ToolCallPartEvent(argumentsPart: Option<string>)
    | ToolResultEvent(toolCallId: string, returnValue: ToolReturnValue)
    | ApprovalResponseEvent(requestId: string, response: string, feedback: string)
    | SubagentEvent(parentToolCallId: Option<string>, agentId: Option<string>, subagentType: Option<string>,
                    typeName: string, payload: Option<Json>)
    | SteerInputEvent(userInput: Content)
    | BtwBeginEvent(id: string, question: string)
    | BtwEndEvent(id: string, answer: Option<string>, error: Option<string>)
    | PlanDisplayEvent(content: string, filePath: string)
    | HookTriggeredEvent(event: string, target: string, hookCount: uint32)
    | HookResolvedEvent(event: string, target: string, action: string, reason: string, durationMs: uint64)

  // ---------------------------------------------------------------------------------------------
  // Type names
  // ---------------------------------------------------------------------------------------------

  datatype Kind =
    | TurnBegin | TurnEnd | StepBegin | StepInterrupted | StepRetry | CompactionBegin | CompactionEnd | StatusUpdate
    | ContentPartKind | ToolCall | ToolCallPart | ToolResult | ApprovalResponse | Subagent | SteerInput | BtwBegin
    | BtwEnd | PlanDisplay | HookTriggered | HookResolved

  function KindOf(e: Event): Kind {
    match e
    case TurnBeginEvent(_) => TurnBegin
    case TurnEndEvent => TurnEnd
    case StepBeginEvent(_) => StepBegin
    case StepInterruptedEvent => StepInterrupted
    case StepRetryEvent(_, _, _, _, _, _) => StepRetry
    case CompactionBeginEvent => CompactionBegin
    case CompactionEndEvent => CompactionEnd
    case StatusUpdateEvent(_, _, _, _, _, _) => StatusUpdate
    case ContentPartEvent(_) => ContentPartKind
    case ToolCallEvent(_, _, _, _) => ToolCall
    case ToolCallPartEvent(_) => ToolCallPart
    case ToolResultEvent(_, _) => ToolResult
    case ApprovalResponseEvent(_, _, _) => ApprovalResponse
    case SubagentEvent(_, _, _, _, _) => Subagent
    case SteerInputEvent(_) => SteerInput
    case BtwBeginEvent(_, _) => BtwBegin
    case BtwEndEvent(_, _, _) => BtwEnd
    case PlanDisplayEvent(_, _) => PlanDisplay
    case HookTriggeredEvent(_, _, _) => HookTriggered
    case HookResolvedEvent(_, _, _, _, _) => HookResolved
  }

  function NameOf(k: Kind): string {
    match k
    case TurnBegin => "TurnBegin"
    case TurnEnd => "TurnEnd"
    case StepBegin => "StepBegin"
    case StepInterrupted => "StepInterrupted"
    case StepRetry => "StepRetry"
    case CompactionBegin => "CompactionBegin"
    case CompactionEnd => "CompactionEnd"
    case StatusUpdate => "StatusUpdate"
    case ContentPartKind => "ContentPart"
    case ToolCall => "ToolCall"
    case ToolCallPart => "ToolCallPart"
    case ToolResult => "ToolResult"
    case ApprovalResponse => "ApprovalResponse"
    case Subagent => "SubagentEvent"
    case SteerInput => "SteerInput"
    case BtwBegin => "BtwBegin"
    case BtwEnd => "BtwEnd"
    case PlanDisplay => "PlanDisplay"
    case HookTriggered => "HookTriggered"
    case HookResolved => "HookResolved"
  }

  // Length, first and fifth character tell the names apart.
  function Print(k: Kind): (int, char, char) {
    match k
    case TurnBegin => (9, 'T', 'B')
    case TurnEnd => (7, 'T', 'E')
    case StepBegin => (9, 'S', 'B')
    case StepInterrupted => (15, 'S', 'I')
    case StepRetry => (9, 'S', 'R')
    case CompactionBegin => (15, 'C', 'a')
    case CompactionEnd => (13, 'C', 'a')
    case StatusUpdate => (12, 'S', 'u')
    case ContentPartKind => (11, 'C', 'e')
    case ToolCall => (8, 'T', 'C')
    case ToolCallPart => (12, 'T', 'C')
    case ToolResult => (10, 'T', 'R')
    case ApprovalResponse => (16, 'A', 'o')
    case Subagent => (13, 'S', 'g')
    case SteerInput => (10, 'S', 'r')
    case BtwBegin => (8, 'B', 'e')
    case BtwEnd => (6, 'B', 'n')
    case PlanDisplay => (11, 'P', 'D')
    case HookTriggered => (13, 'H', 'T')
    case HookResolved => (12, 'H', 'R')
  }

  lemma NamePrint(k: Kind)
    ensures var s := NameOf(k); |s| >= 5 && Print(k) == (|s|, s[0], s[4])
  {
  }

  lemma PrintInjective(j: Kind, k: Kind)
    requires Print(j) == Print(k)
    ensures j == k
  {
  }

  lemma NamesDiffer(j: Kind, k: Kind)
    requires NameOf(j) == NameOf(k)
    ensures j == k
  {
    NamePrint(j);
    NamePrint(k);
    PrintInjective(j, k);
  }

  const KINDS := [
    TurnBegin, TurnEnd, StepBegin, StepInterrupted, StepRetry, CompactionBegin, CompactionEnd, StatusUpdate,
    ContentPartKind, ToolCall, ToolCallPart, ToolResult, ApprovalResponse, Subagent, SteerInput, BtwBegin, BtwEnd,
    PlanDisplay, HookTriggered, HookResolved]

  // The case of ParseEvent's switch that a type name selects.
  function Named(s: string, cases: seq<Kind>): Option<Kind> {
    if cases == [] then None else if s == NameOf(cases[0]) then Some(cases[0]) else Named(s, cases[1..])
  }

  lemma {:induction false} NamedFinds(k: Kind, cases: seq<Kind>)
    requires k in cases
    ensures Named(NameOf(k), cases) == Some(k)
  {
    if NameOf(k) == NameOf(cases[0]) {
      NamesDiffer(k, cases[0]);
    } else {
      NamedFinds(k, cases[1..]);
    }
  }

  lemma KindIndex(k: Kind) returns (i: nat)
    ensures i < |KINDS| && KINDS[i] == k
  {
    match k
    case TurnBegin => i := 0;
    case TurnEnd => i := 1;
    case StepBegin => i := 2;
    case StepInterrupted => i := 3;
    case StepRetry => i := 4;
    case CompactionBegin => i := 5;
    case CompactionEnd => i := 6;
    case StatusUpdate => i := 7;
    case ContentPartKind => i := 8;
    case ToolCall => i := 9;
    case ToolCallPart => i := 10;
    case ToolResult => i := 11;
    case ApprovalResponse => i := 12;
    case Subagent => i := 13;
    case SteerInput => i := 14;
    case BtwBegin => i := 15;
    case BtwEnd => i := 16;
    case PlanDisplay => i := 17;
    case HookTriggered => i := 18;
    case HookResolved => i := 19;
  }

  // ---------------------------------------------------------------------------------------------
  // Payloads
  // ---------------------------------------------------------------------------------------------

  const FUNCTION := "function"

  function Whole32(n: uint32): Json {
    Num(Whole(n))
  }

  function MarshalUsage(u: Option<Usage>): Option<Json> {
    if u.None? then None
    else Some(Obj(map[InputOther := Num(Whole(u.value.inputOther)), Output := Num(Whole(u.value.output)),
                      InputCacheRead := Num(Whole(u.value.inputCacheRead)),
                      InputCacheCreation := Num(Whole(u.value.inputCacheCreation))]))
  }

  function StatusMembers(e: Event): Members
    requires e.StatusUpdateEvent?
  {
    var o := Put(map[], ContextUsage, if e.contextUsage.Some? then Some(Num(e.contextUsage.value)) else None);
    var o := Put(o, ContextTokens, OptNat(e.contextTokens));
    var o := Put(o, MaxContextTokens, OptNat(e.maxContextTokens));
    var o := Put(o, TokenUsage, MarshalUsage(e.tokenUsage));
    var o := Put(o, MessageId, NonEmpty(e.messageId));
    Put(o, PlanMode, OptBool(e.planMode))
  }

  function RetryMembers(e: Event): Members
    requires e.StepRetryEvent?
  {
    Put(map[N := Whole32(e.n), NextAttempt := Whole32(e.nextAttempt), MaxAttempts := Whole32(e.maxAttempts),
            WaitS := Whole32(e.waitS), ErrorType := Str(e.errorType)], StatusCode, OptNat(e.statusCode))
  }

  function ToolCallMembers(e: Event): Members
    requires e.ToolCallEvent?
  {
    Put(map[Type := Str(FUNCTION), Id := Str(e.id),
            Function := Obj(Put(map[Name := Str(e.name)], Arguments, OptStr(e.arguments)))], Extras, e.extras)
  }

  // A payload that is missing is written as null.
  function SubagentMembers(e: Event): Members
    requires e.SubagentEvent?
  {
    var inner := Obj(map[Type := Str(e.typeName), Payload := if e.payload.Some? then e.payload.value else Null]);
    var o := Put(map[Key.Event := inner], ParentToolCallId, OptStr(e.parentToolCallId));
    Put(Put(o, AgentId, OptStr(e.agentId)), SubagentType, OptStr(e.subagentType))
  }

  function MarshalPayload(e: Event): Result<Json> {
    match e
    case TurnBeginEvent(input) =>
      var c :- MarshalContent(input);
      Ok(Obj(map[UserInput := c]))
    case TurnEndEvent => Ok(Obj(map[]))
    case StepBeginEvent(n) => Ok(Obj(map[N := Whole32(n)]))
    case StepInterruptedEvent => Ok(Obj(map[]))
    case StepRetryEvent(_, _, _, _, _, _) => Ok(Obj(RetryMembers(e)))
    case CompactionBeginEvent => Ok(Obj(map[]))
    case CompactionEndEvent => Ok(Obj(map[]))
    case StatusUpdateEvent(_, _, _, _, _, _) => Ok(Obj(StatusMembers(e)))
    case ContentPartEvent(part) => Ok(MarshalPart(part))
    case ToolCallEvent(_, _, _, _) => Ok(Obj(ToolCallMembers(e)))
    case ToolCallPartEvent(part) => Ok(Obj(Put(map[], ArgumentsPart, OptStr(part))))
    case ToolResultEvent(id, v) =>
      var value :- MarshalToolReturn(v);
      Ok(Obj(map[ToolCallId := Str(id), ReturnValue := value]))
    case ApprovalResponseEvent(id, response, feedback) =>
      Ok(Obj(Put(map[RequestId := Str(id), Response := Str(response)], Feedback, NonEmpty(feedback))))
    case SubagentEvent(_, _, _, _, _) => Ok(Obj(SubagentMembers(e)))
    case SteerInputEvent(input) =>
      var c :- MarshalContent(input);
      Ok(Obj(map[UserInput := c]))
    case BtwBeginEvent(id, question) => Ok(Obj(map[Id := Str(id), Question := Str(question)]))
    case BtwEndEvent(id, answer, error) =>
      Ok(Obj(Put(Put(map[Id := Str(id)], Response, OptStr(answer)), Error, OptStr(error))))
    case PlanDisplayEvent(content, path) => Ok(Obj(map[Key.Content := Str(content), FilePath := Str(path)]))
    case HookTriggeredEvent(event, target, count) =>
      Ok(Obj(map[Key.Event := Str(event), Target := Str(target), HookCount := Whole32(count)]))
    case HookResolvedEvent(event, target, action, reason, ms) =>
      Ok(Obj(map[Key.Event := Str(event), Target := Str(target), Action := Str(action), Reason := Str(reason),
                 DurationMs := Num(Whole(ms))]))
  }

  function AsUsage(j: Json): Result<Option<Usage>> {
    if j.Null? then Ok(None)
    else
      var o :- AsMembers(j);
      var a :- AsNat(Get(o, InputOther), LIMIT64);
      var b :- AsNat(Get(o, Output), LIMIT64);
      var c :- AsNat(Get(o, InputCacheRead), LIMIT64);
      var d :- AsNat(Get(o, InputCacheCreation), LIMIT64);
      Ok(Some(Usage(a, b, c, d)))
  }

  function ParseStatus(o: Members): Result<Event> {
    var usage :- AsOptNumber(Get(o, ContextUsage));
    var tokens :- AsOptNat(Get(o, ContextTokens), LIMIT64);
    var most :- AsOptNat(Get(o, MaxContextTokens), LIMIT64);
    var tokenUsage :- AsUsage(Get(o, TokenUsage));
    var id :- AsString(Get(o, MessageId));
    var plan :- AsOptBool(Get(o, PlanMode));
    Ok(StatusUpdateEvent(usage, tokens, most, tokenUsage, id, plan))
  }

  function ParseRetry(o: Members): Result<Event> {
    var n :- AsNat(Get(o, N), LIMIT32);
    var next :- AsNat(Get(o, NextAttempt), LIMIT32);
    var most :- AsNat(Get(o, MaxAttempts), LIMIT32);
    var wait :- AsNat(Get(o, WaitS), LIMIT32);
    var kind :- AsString(Get(o, ErrorType));
    var code :- AsOptNat(Get(o, StatusCode), LIMIT32);
    Ok(StepRetryEvent(n, next, most, wait, kind, code))
  }

  function ParseToolCall(o: Members): Result<Event> {
    var kind :- AsString(Get(o, Type));
    var id :- AsString(Get(o, Id));
    var f :- AsMembers(Get(o, Function));
    var name :- AsString(Get(f, Name));
    var arguments :- AsOptString(Get(f, Arguments));
    if kind != FUNCTION then Err else Ok(ToolCallEvent(id, name, arguments, GetRaw(o, Extras)))
  }

  function ParseSubagent(o: Members): Result<Event> {
    var parent :- AsOptString(Get(o, ParentToolCallId));
    var agent :- AsOptString(Get(o, AgentId));
    var kind :- AsOptString(Get(o, SubagentType));
    var inner :- AsMembers(Get(o, Key.Event));
    var name :- AsString(Get(inner, Type));
    Ok(SubagentEvent(parent, agent, kind, name, GetRaw(inner, Payload)))
  }

  function ParseHook(o: Members): Result<Event> {
    var event :- AsString(Get(o, Key.Event));
    var target :- AsString(Get(o, Target));
    var count :- AsNat(Get(o, HookCount), LIMIT32);
    Ok(HookTriggeredEvent(event, target, count))
  }

  function ParseResolved(o: Members): Result<Event> {
    var event :- AsString(Get(o, Key.Event));
    var target :- AsString(Get(o, Target));
    var action :- AsString(Get(o, Action));
    var reason :- AsString(Get(o, Reason));
    var ms :- AsNat(Get(o, DurationMs), LIMIT64);
    Ok(HookResolvedEvent(event, target, action, reason, ms))
  }

  // The events whose payload is not read.
  function Bare(k: Kind): Option<Event> {
    match k
    case TurnEnd => Some(TurnEndEvent)
    case StepInterrupted => Some(StepInterruptedEvent)
    case CompactionBegin => Some(CompactionBeginEvent)
    case CompactionEnd => Some(CompactionEndEvent)
    case _ => None
  }

  function ParseStruct(k: Kind, o: Members): Result<Event>
    requires Bare(k).None? && !k.ContentPartKind?
  {
    match k
    case TurnBegin =>
      var c :- GetContent(o, UserInput);
      Ok(TurnBeginEvent(c))
    case StepBegin =>
      var n :- AsNat(Get(o, N), LIMIT32);
      Ok(StepBeginEvent(n))
    case StepRetry => ParseRetry(o)
    case StatusUpdate => ParseStatus(o)
    case ToolCall => ParseToolCall(o)
    case ToolCallPart =>
      var part :- AsOptString(Get(o, ArgumentsPart));
      Ok(ToolCallPartEvent(part))
    case ToolResult =>
      var id :- AsString(Get(o, ToolCallId));
      var v :- ParseToolReturn(Get(o, ReturnValue));
      Ok(ToolResultEvent(id, v))
    case ApprovalResponse =>
      var id :- AsString(Get(o, RequestId));
      var response :- AsString(Get(o, Response));
      var feedback :- AsString(Get(o, Feedback));
      Ok(ApprovalResponseEvent(id, response, feedback))
    case Subagent => ParseSubagent(o)
    case SteerInput =>
      var c :- GetContent(o, UserInput);
      Ok(SteerInputEvent(c))
    case BtwBegin =>
      var id :- AsString(Get(o, Id));
      var question :- AsString(Get(o, Question));
      Ok(BtwBeginEvent(id, question))
    case BtwEnd =>
      var id :- AsString(Get(o, Id));
      var answer :- AsOptString(Get(o, Response));
      var error :- AsOptString(Get(o, Error));
      Ok(BtwEndEvent(id, answer, error))
    case PlanDisplay =>
      var content :- AsString(Get(o, Key.Content));
      var path :- AsString(Get(o, FilePath));
      Ok(PlanDisplayEvent(content, path))
    case HookTriggered => ParseHook(o)
    case HookResolved => ParseResolved(o)
  }

  function ParsePayload(k: Kind, payload: Option<Json>): Result<Event> {
    if Bare(k).Some? then Ok(Bare(k).value)
    else if payload.None? then Err
    else if k.ContentPartKind? then
      var part :- ParsePart(payload.value);
      Ok(ContentPartEvent(part))
    else
      var o :- AsMembers(payload.value);
      ParseStruct(k, o)
  }

  // ---------------------------------------------------------------------------------------------
  // The envelope
  // ---------------------------------------------------------------------------------------------

  function MarshalEvent(e: Event): Result<Json> {
    var payload :- MarshalPayload(e);
    Ok(Obj(map[Type := Str(NameOf(KindOf(e))), Payload := payload]))
  }

  function ParseEvent(j: Json): Result<Event> {
    var o :- AsMembers(j);
    var name :- AsString(Get(o, Type));
    var kind := Named(name, KINDS);
    if kind.None? then Err else ParsePayload(kind.value, GetRaw(o, Payload))
  }
}
