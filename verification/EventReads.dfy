// What any JSON is read as: the parser of protocol/protocol_event.go and protocol/protocol_content.go, as a
// relation between the JSON and the event.
module EventReads {
  import opened Wrappers
  import opened Json
  import opened Content
  import opened ToolValue
  import opened Events
  import ES = EventShapes
  import ER = EventResults

  // A member that is missing is read like null.
  predicate IsNull(o: Members, k: Key) {
    k !in o || o[k] == Null
  }

  // The member is read as this value; a null leaves the field at its zero value.
  predicate ReadsText(o: Members, k: Key, s: string) {
    if IsNull(o, k) then s == "" else o[k] == Str(s)
  }

  predicate ReadsOptText(o: Members, k: Key, s: Option<string>) {
    if IsNull(o, k) then s.None? else s.Some? && o[k] == Str(s.value)
  }

  predicate ReadsFlag(o: Members, k: Key, b: bool) {
    if IsNull(o, k) then !b else o[k] == Bool(b)
  }

  predicate ReadsOptFlag(o: Members, k: Key, b: Option<bool>) {
    if IsNull(o, k) then b.None? else b.Some? && o[k] == Bool(b.value)
  }

  predicate ReadsCount(o: Members, k: Key, n: nat, limit: nat) {
    if IsNull(o, k) then n == 0 else n < limit && o[k] == Num(Whole(n))
  }

  predicate ReadsOptCount(o: Members, k: Key, n: Option<nat>, limit: nat) {
    if IsNull(o, k) then n.None? else n.Some? && n.value < limit && o[k] == Num(Whole(n.value))
  }

  predicate ReadsOptNumber(o: Members, k: Key, n: Option<Number>) {
    if IsNull(o, k) then n.None? else n.Some? && o[k] == Num(n.value)
  }

  // A raw member is kept as it is.
  predicate ReadsRaw(o: Members, k: Key, v: Option<Json>) {
    if v.Some? then k in o && o[k] == v.value else k !in o
  }

  // A nested object; null is read like the empty one.
  predicate IsStruct(o: Members, k: Key) {
    IsNull(o, k) || o[k].Obj?
  }

  function Inside(o: Members, k: Key): Members {
    if k in o && o[k].Obj? then o[k].members else map[]
  }

  const LIMIT_32: nat := 0x1_0000_0000
  const LIMIT_64: nat := 0x1_0000_0000_0000_0000

  // ---------------------------------------------------------------------------------------------
  // Content
  // ---------------------------------------------------------------------------------------------

  // A text is a string, null or an object with a text; anything else is passed over.
  predicate ReadsTextPart(o: Members, p: Option<TextPart>) {
    if Key.Text !in o then p.None?
    else
      match o[Key.Text]
      case Str(s) => p == Some(TextPart(s))
      case Null => p == Some(TextPart(""))
      case Obj(m) =>
        if p.Some? then ReadsText(m, Key.Text, p.value.text) else !IsNull(m, Key.Text) && !m[Key.Text].Str?
      case _ => p.None?
  }

  predicate ReadsThinkPart(o: Members, p: Option<ThinkPart>) {
    if Think !in o then p.None?
    else
      match o[Think]
      case Str(s) => p == Some(ThinkPart(s, ""))
      case Null => p == Some(ThinkPart("", ""))
      case Obj(m) =>
        if p.Some? then ReadsText(m, Think, p.value.think) && ReadsText(m, Encrypted, p.value.encrypted)
        else (!IsNull(m, Think) && !m[Think].Str?) || (!IsNull(m, Encrypted) && !m[Encrypted].Str?)
      case _ => p.None?
  }

  predicate ReadsMedia(o: Members, k: Key, p: Option<MediaPart>) {
    if IsNull(o, k) then p.None?
    else
      && p.Some? && o[k].Obj? && IsStruct(o[k].members, k)
      && var m := Inside(o[k].members, k); ReadsText(m, Url, p.value.url.url) && ReadsText(m, Id, p.value.url.id)
  }

  predicate ReadsPart(j: Json, cp: ContentPart) {
    && (j.Obj? || j.Null?)
    && var o := if j.Obj? then j.members else map[];
       && ReadsText(o, Type, cp.kind) && ReadsTextPart(o, cp.text) && ReadsThinkPart(o, cp.think)
       && ReadsMedia(o, ImageUrl, cp.imageURL) && ReadsMedia(o, AudioUrl, cp.audioURL)
       && ReadsMedia(o, VideoUrl, cp.videoURL)
  }

  predicate ReadsParts(items: seq<Json>, parts: seq<ContentPart>) {
    |parts| == |items| && forall i | 0 <= i < |items| :: ReadsPart(items[i], parts[i])
  }

  // A string or an array; unlike elsewhere null is refused.
  predicate ReadsContent(o: Members, k: Key, c: Content) {
    if k !in o then c == TextOrParts("", [])
    else
      match o[k]
      case Str(s) => c == TextOrParts(s, [])
      case Arr(items) => c.text == "" && ReadsParts(items, c.parts)
      case _ => false
  }

  lemma TextPartReads(o: Members, p: Option<TextPart>)
    ensures ReadsTextPart(o, p) <==> TextOf(GetRaw(o, Key.Text)) == p
  {
  }

  lemma ThinkPartReads(o: Members, p: Option<ThinkPart>)
    ensures ReadsThinkPart(o, p) <==> ThinkOf(GetRaw(o, Think)) == p
  {
  }

  lemma MediaReads(o: Members, k: Key, p: Option<MediaPart>)
    ensures ReadsMedia(o, k, p) <==> AsMedia(Get(o, k), k) == Ok(p)
  {
    if !IsNull(o, k) && o[k].Obj? {
      UrlReads(o[k].members, k, p);
    }
  }

  lemma UrlReads(m: Members, k: Key, p: Option<MediaPart>)
    ensures AsMedia(Obj(m), k) == Ok(p) <==>
            && p.Some? && IsStruct(m, k)
            && ReadsText(Inside(m, k), Url, p.value.url.url) && ReadsText(Inside(m, k), Id, p.value.url.id)
  {
  }

  lemma PartReads(j: Json, cp: ContentPart)
    ensures ReadsPart(j, cp) <==> ParsePart(j) == Ok(cp)
  {
    if j.Obj? || j.Null? {
      var o := if j.Obj? then j.members else map[];
      TextPartReads(o, cp.text);
      ThinkPartReads(o, cp.think);
      MediaReads(o, ImageUrl, cp.imageURL);
      MediaReads(o, AudioUrl, cp.audioURL);
      MediaReads(o, VideoUrl, cp.videoURL);
    }
  }

  // A list is read exactly element by element.
  lemma {:induction false} ListReads<T>(js: seq<Json>, parse: Json -> Result<T>, xs: seq<T>)
    ensures ParseAll(js, parse) == Ok(xs) <==>
            |xs| == |js| && forall i | 0 <= i < |js| :: parse(js[i]) == Ok(xs[i])
  {
    if js != [] {
      if xs != [] {
        ListReads(js[1..], parse, xs[1..]);
        assert xs == [xs[0]] + xs[1..];
        assert forall i | 0 <= i < |js| - 1 :: js[1..][i] == js[i + 1];
        if |xs| == |js| {
          assert forall i | 0 <= i < |xs| - 1 :: xs[1..][i] == xs[i + 1];
          if forall i | 0 <= i < |js| - 1 :: parse(js[1..][i]) == Ok(xs[1..][i]) {
            forall i | 1 <= i < |js| ensures parse(js[i]) == Ok(xs[i]) {
              assert js[1..][i - 1] == js[i] && xs[1..][i - 1] == xs[i];
            }
          }
        }
      }
    }
  }

  lemma PartsRead(items: seq<Json>, parts: seq<ContentPart>)
    ensures ReadsParts(items, parts) <==> ParseAll(items, ParsePart) == Ok(parts)
  {
    ListReads(items, ParsePart, parts);
    forall i | 0 <= i < |items| && i < |parts|
      ensures ReadsPart(items[i], parts[i]) <==> ParsePart(items[i]) == Ok(parts[i])
    {
      PartReads(items[i], parts[i]);
    }
  }

  lemma ContentReads(o: Members, k: Key, c: Content)
    ensures ReadsContent(o, k, c) <==> GetContent(o, k) == Ok(c)
  {
    if k in o && o[k].Arr? {
      PartsRead(o[k].items, c.parts);
    }
  }

  // ---------------------------------------------------------------------------------------------
  // Tool results
  // ---------------------------------------------------------------------------------------------

  predicate ReadsItem(j: Json, t: TodoItem) {
    && (j.Obj? || j.Null?)
    && var o := if j.Obj? then j.members else map[]; ReadsText(o, Title, t.title) && ReadsText(o, Status, t.status)
  }

  predicate ReadsItems(o: Members, items: seq<TodoItem>) {
    if IsNull(o, Items) then items == []
    else
      && o[Items].Arr? && |o[Items].items| == |items|
      && forall i | 0 <= i < |items| :: ReadsItem(o[Items].items[i], items[i])
  }

  predicate ReadsDisplay(j: Json, d: DisplayBlock) {
    (j.Obj? || j.Null?) && ReadsBlock(if j.Obj? then j.members else map[], d)
  }

  predicate ReadsBlock(o: Members, d: DisplayBlock) {
    && ReadsText(o, Type, d.kind) && ReadsText(o, Key.Text, d.text) && ReadsText(o, Path, d.path)
    && ReadsText(o, OldText, d.oldText) && ReadsText(o, NewText, d.newText)
    && ReadsOptFlag(o, IsSummary, d.isSummary)
    && ReadsItems(o, d.items) && ReadsText(o, Language, d.language) && ReadsText(o, Command, d.command)
    && ReadsRaw(o, Data, d.data)
  }

  predicate ReadsDisplays(o: Members, ds: seq<DisplayBlock>) {
    if IsNull(o, Display) then ds == []
    else
      && o[Display].Arr? && |o[Display].items| == |ds|
      && forall i | 0 <= i < |ds| :: ReadsDisplay(o[Display].items[i], ds[i])
  }

  predicate ReadsToolReturn(o: Members, v: ToolReturnValue) {
    && ReadsFlag(o, IsError, v.isError) && ReadsContent(o, Output, v.output) && ReadsText(o, Message, v.message)
    && ReadsDisplays(o, v.display) && ReadsRaw(o, Extras, v.extras)
  }

  lemma ItemReads(j: Json, t: TodoItem)
    ensures ReadsItem(j, t) <==> ParseItem(j) == Ok(t)
  {
  }

  // What the list under a key is read as.
  function ListAt<T>(o: Members, k: Key, parse: Json -> Result<T>): Result<seq<T>> {
    var js :- AsList(Get(o, k));
    ParseAll(js, parse)
  }

  lemma ItemsRead(o: Members, items: seq<TodoItem>)
    ensures ReadsItems(o, items) <==> ListAt(o, Items, ParseItem) == Ok(items)
  {
    if !IsNull(o, Items) && o[Items].Arr? {
      var js := o[Items].items;
      ListReads(js, ParseItem, items);
      forall i | 0 <= i < |js| && i < |items| ensures ReadsItem(js[i], items[i]) <==> ParseItem(js[i]) == Ok(items[i]) {
        ItemReads(js[i], items[i]);
      }
    }
  }

  lemma DisplayReads(j: Json, d: DisplayBlock)
    ensures ReadsDisplay(j, d) <==> ParseDisplay(j) == Ok(d)
  {
    if j.Obj? {
      BlockReads(j.members, d);
    } else if j.Null? {
      BlockReads(map[], d);
    }
  }

  // The texts of a block, and the rest of it.
  lemma BlockTexts(o: Members, d: DisplayBlock)
    requires ReadsBlock(o, d) || ParseDisplay(Obj(o)) == Ok(d)
    ensures ReadsText(o, Type, d.kind) && ReadsText(o, Key.Text, d.text) && ReadsText(o, Path, d.path)
    ensures ReadsText(o, OldText, d.oldText) && ReadsText(o, NewText, d.newText)
    ensures ReadsText(o, Language, d.language) && ReadsText(o, Command, d.command)
  {
  }

  lemma BlockReads(o: Members, d: DisplayBlock)
    ensures ReadsBlock(o, d) <==> ParseDisplay(Obj(o)) == Ok(d)
  {
    ItemsRead(o, d.items);
    if ReadsBlock(o, d) || ParseDisplay(Obj(o)) == Ok(d) {
      BlockTexts(o, d);
    }
  }

  lemma DisplaysRead(o: Members, ds: seq<DisplayBlock>)
    ensures ReadsDisplays(o, ds) <==> ListAt(o, Display, ParseDisplay) == Ok(ds)
  {
    if !IsNull(o, Display) && o[Display].Arr? {
      var js := o[Display].items;
      ListReads(js, ParseDisplay, ds);
      forall i | 0 <= i < |js| && i < |ds| ensures ReadsDisplay(js[i], ds[i]) <==> ParseDisplay(js[i]) == Ok(ds[i]) {
        DisplayReads(js[i], ds[i]);
      }
    }
  }

  lemma ToolReturnReads(j: Json, v: ToolReturnValue)
    ensures ParseToolReturn(j) == Ok(v) <==>
            (j.Obj? || j.Null?) && ReadsToolReturn(if j.Obj? then j.members else map[], v)
  {
    if j.Obj? || j.Null? {
      var o := if j.Obj? then j.members else map[];
      ContentReads(o, Output, v.output);
      DisplaysRead(o, v.display);
    }
  }

  // ---------------------------------------------------------------------------------------------
  // Events
  // ---------------------------------------------------------------------------------------------

  predicate ReadsUsage(o: Members, u: Option<Usage>) {
    if IsNull(o, TokenUsage) then u.None?
    else
      && u.Some? && o[TokenUsage].Obj?
      && var m := o[TokenUsage].members;
         && ReadsCount(m, InputOther, u.value.inputOther, LIMIT_64) && ReadsCount(m, Output, u.value.output, LIMIT_64)
         && ReadsCount(m, InputCacheRead, u.value.inputCacheRead, LIMIT_64)
         && ReadsCount(m, InputCacheCreation, u.value.inputCacheCreation, LIMIT_64)
  }

  predicate ReadsStatus(o: Members, e: Event)
    requires e.StatusUpdateEvent?
  {
    && ReadsOptNumber(o, ContextUsage, e.contextUsage) && ReadsOptCount(o, ContextTokens, e.contextTokens, LIMIT_64)
    && ReadsOptCount(o, MaxContextTokens, e.maxContextTokens, LIMIT_64) && ReadsUsage(o, e.tokenUsage)
    && ReadsText(o, MessageId, e.messageId) && ReadsOptFlag(o, PlanMode, e.planMode)
  }

  predicate ReadsRetry(o: Members, e: Event)
    requires e.StepRetryEvent?
  {
    && ReadsCount(o, N, e.n, LIMIT_32) && ReadsCount(o, NextAttempt, e.nextAttempt, LIMIT_32)
    && ReadsCount(o, MaxAttempts, e.maxAttempts, LIMIT_32) && ReadsCount(o, WaitS, e.waitS, LIMIT_32)
    && ReadsText(o, ErrorType, e.errorType) && ReadsOptCount(o, StatusCode, e.statusCode, LIMIT_32)
  }

  predicate ReadsToolCall(o: Members, e: Event)
    requires e.ToolCallEvent?
  {
    && ReadsText(o, Type, "function") && ReadsText(o, Id, e.id) && IsStruct(o, Function)
    && ReadsText(Inside(o, Function), Name, e.name) && ReadsOptText(Inside(o, Function), Arguments, e.arguments)
    && ReadsRaw(o, Extras, e.extras)
  }

  predicate ReadsSubagent(o: Members, e: Event)
    requires e.SubagentEvent?
  {
    && ReadsOptText(o, ParentToolCallId, e.parentToolCallId) && ReadsOptText(o, AgentId, e.agentId)
    && ReadsOptText(o, SubagentType, e.subagentType) && IsStruct(o, Key.Event)
    && ReadsText(Inside(o, Key.Event), Type, e.typeName) && ReadsRaw(Inside(o, Key.Event), Payload, e.payload)
  }

  // The payload is an object or null, read member by member.
  predicate ReadsPayload(o: Members, e: Event) {
    match e
    case TurnBeginEvent(input) => ReadsContent(o, UserInput, input)
    case SteerInputEvent(input) => ReadsContent(o, UserInput, input)
    case StepBeginEvent(n) => ReadsCount(o, N, n, LIMIT_32)
    case StepRetryEvent(_, _, _, _, _, _) => ReadsRetry(o, e)
    case StatusUpdateEvent(_, _, _, _, _, _) => ReadsStatus(o, e)
    case ToolCallEvent(_, _, _, _) => ReadsToolCall(o, e)
    case ToolCallPartEvent(part) => ReadsOptText(o, ArgumentsPart, part)
    case ToolResultEvent(id, v) =>
      ReadsText(o, ToolCallId, id) && IsStruct(o, ReturnValue) && ReadsToolReturn(Inside(o, ReturnValue), v)
    case ApprovalResponseEvent(id, response, feedback) =>
      ReadsText(o, RequestId, id) && ReadsText(o, Response, response) && ReadsText(o, Feedback, feedback)
    case SubagentEvent(_, _, _, _, _) => ReadsSubagent(o, e)
    case BtwBeginEvent(id, question) => ReadsText(o, Id, id) && ReadsText(o, Question, question)
    case BtwEndEvent(id, answer, error) =>
      ReadsText(o, Id, id) && ReadsOptText(o, Response, answer) && ReadsOptText(o, Error, error)
    case PlanDisplayEvent(content, path) => ReadsText(o, Key.Content, content) && ReadsText(o, FilePath, path)
    case HookTriggeredEvent(event, target, count) =>
      ReadsText(o, Key.Event, event) && ReadsText(o, Target, target) && ReadsCount(o, HookCount, count, LIMIT_32)
    case HookResolvedEvent(event, target, action, reason, ms) =>
      && ReadsText(o, Key.Event, event) && ReadsText(o, Target, target) && ReadsText(o, Action, action)
      && ReadsText(o, Reason, reason) && ReadsCount(o, DurationMs, ms, LIMIT_64)
    case _ => false
  }

  predicate IsBare(e: Event) {
    e.TurnEndEvent? || e.StepInterruptedEvent? || e.CompactionBeginEvent? || e.CompactionEndEvent?
  }

  // The payload of a bare event is not looked at, that of any other has to be there.
  predicate ReadsOptPayload(payload: Option<Json>, e: Event) {
    if IsBare(e) then true
    else
      && payload.Some?
      && var p := payload.value;
         if e.ContentPartEvent? then ReadsPart(p, e.part)
         else (p.Obj? || p.Null?) && ReadsPayload(if p.Obj? then p.members else map[], e)
  }

  // The envelope is an object with the name of the event's type and its payload.
  predicate Reads(j: Json, e: Event) {
    && j.Obj? && Type in j.members && j.members[Type] == Str(ES.TypeName(e))
    && ReadsOptPayload(if Payload in j.members then Some(j.members[Payload]) else None, e)
  }

  lemma UsageReads(o: Members, u: Option<Usage>)
    ensures ReadsUsage(o, u) <==> AsUsage(Get(o, TokenUsage)) == Ok(u)
  {
  }

  lemma StatusReads(o: Members, e: Event)
    requires e.StatusUpdateEvent?
    ensures ReadsStatus(o, e) <==> ParseStatus(o) == Ok(e)
  {
    UsageReads(o, e.tokenUsage);
  }

  lemma RetryReads(o: Members, e: Event)
    requires e.StepRetryEvent?
    ensures ReadsRetry(o, e) <==> ParseRetry(o) == Ok(e)
  {
  }

  lemma ToolCallReads(o: Members, e: Event)
    requires e.ToolCallEvent?
    ensures ReadsToolCall(o, e) <==> ParseToolCall(o) == Ok(e)
  {
  }

  lemma SubagentReads(o: Members, e: Event)
    requires e.SubagentEvent?
    ensures ReadsSubagent(o, e) <==> ParseSubagent(o) == Ok(e)
  {
  }

  lemma HookReads(o: Members, e: Event)
    requires e.HookTriggeredEvent? || e.HookResolvedEvent?
    ensures ReadsPayload(o, e) <==> (if e.HookTriggeredEvent? then ParseHook(o) else ParseResolved(o)) == Ok(e)
  {
  }

  predicate IsSimple(e: Event) {
    || e.StepBeginEvent? || e.ToolCallPartEvent? || e.ApprovalResponseEvent? || e.BtwBeginEvent? || e.BtwEndEvent?
    || e.PlanDisplayEvent?
  }

  lemma SimpleReads(o: Members, e: Event)
    requires IsSimple(e)
    ensures ReadsPayload(o, e) <==> ParseStruct(KindOf(e), o) == Ok(e)
  {
  }

  lemma InputReads(o: Members, e: Event)
    requires e.TurnBeginEvent? || e.SteerInputEvent?
    ensures ReadsPayload(o, e) <==> ParseStruct(KindOf(e), o) == Ok(e)
  {
    ContentReads(o, UserInput, e.userInput);
  }

  lemma ResultReads(o: Members, e: Event)
    requires e.ToolResultEvent?
    ensures ReadsPayload(o, e) <==> ParseStruct(KindOf(e), o) == Ok(e)
  {
    ToolReturnReads(Get(o, ReturnValue), e.returnValue);
  }

  lemma StructReads(o: Members, e: Event)
    requires !IsBare(e) && !e.ContentPartEvent?
    ensures ReadsPayload(o, e) <==> ParseStruct(KindOf(e), o) == Ok(e)
  {
    match e
    case TurnBeginEvent(_) => InputReads(o, e);
    case SteerInputEvent(_) => InputReads(o, e);
    case ToolResultEvent(_, _) => ResultReads(o, e);
    case StatusUpdateEvent(_, _, _, _, _, _) => StatusReads(o, e);
    case StepRetryEvent(_, _, _, _, _, _) => RetryReads(o, e);
    case ToolCallEvent(_, _, _, _) => ToolCallReads(o, e);
    case SubagentEvent(_, _, _, _, _) => SubagentReads(o, e);
    case HookTriggeredEvent(_, _, _) => HookReads(o, e);
    case HookResolvedEvent(_, _, _, _, _) => HookReads(o, e);
    case _ => SimpleReads(o, e);
  }

  lemma PayloadReads(payload: Option<Json>, e: Event)
    ensures ReadsOptPayload(payload, e) <==> ParsePayload(KindOf(e), payload) == Ok(e)
  {
    if !IsBare(e) && payload.Some? {
      if e.ContentPartEvent? {
        PartReads(payload.value, e.part);
      } else if payload.value.Obj? || payload.value.Null? {
        StructReads(if payload.value.Obj? then payload.value.members else map[], e);
      }
    }
  }

  lemma EnvelopeReads(j: Json, k: Kind)
    requires j.Obj? && Type in j.members && j.members[Type] == Str(NameOf(k))
    ensures ParseEvent(j) == ParsePayload(k, GetRaw(j.members, Payload))
  {
    ER.KindFound(k, NameOf(k));
  }

  lemma EnvelopeNames(j: Json, e: Event)
    requires ParseEvent(j) == Ok(e)
    ensures j.Obj? && Type in j.members && j.members[Type] == Str(NameOf(KindOf(e)))
  {
    ER.TypeIsTrue(j);
  }

  // A JSON value is read as an event exactly if it spells that event: the name of its type, and each member with
  // the value of its field or, if it is missing or null, the field's zero value.
  lemma {:induction false} ReadsExactly(j: Json, e: Event)
    ensures ParseEvent(j) == Ok(e) <==> Reads(j, e)
  {
    ES.TypeNameIs(e);
    if ParseEvent(j) == Ok(e) {
      EnvelopeNames(j, e);
    }
    if j.Obj? && Type in j.members && j.members[Type] == Str(NameOf(KindOf(e))) {
      EnvelopeReads(j, KindOf(e));
      PayloadReads(GetRaw(j.members, Payload), e);
    }
  }
}
