// What each event looks like on the wire, member by member: protocol/protocol_event.go and
// protocol/protocol_content.go.
module EventShapes {
  import opened Wrappers
  import opened Json
  import opened Content
  import opened ToolValue
  import opened Events
  import ER = EventResults

  // The member is there with this value, or left out.
  predicate Has(o: Members, k: Key, v: Option<Json>) {
    if v.Some? then k in o && o[k] == v.value else k !in o
  }

  predicate HasText(o: Members, k: Key, s: string) {
    Has(o, k, Some(Str(s)))
  }

  predicate HasCount(o: Members, k: Key, n: nat) {
    Has(o, k, Some(Num(Whole(n))))
  }

  // Left out when it is empty.
  predicate HasSome(o: Members, k: Key, s: string) {
    if s == "" then k !in o else HasText(o, k, s)
  }

  // Left out when there is none.
  predicate HasOptText(o: Members, k: Key, s: Option<string>) {
    if s.None? then k !in o else HasText(o, k, s.value)
  }

  predicate HasOptCount(o: Members, k: Key, n: Option<nat>) {
    if n.None? then k !in o else HasCount(o, k, n.value)
  }

  predicate HasFlag(o: Members, k: Key, b: Option<bool>) {
    if b.None? then k !in o else Has(o, k, Some(Bool(b.value)))
  }

  // A text without parts is a string, and otherwise the parts are an array of their objects.
  predicate ContentShape(j: Json, c: Content) {
    if c.parts == [] then j == Str(c.text)
    else
      && c.text == "" && j.Arr? && |j.items| == |c.parts|
      && forall i | 0 <= i < |c.parts| :: PartShape(j.items[i], c.parts[i])
  }

  predicate MediaShape(o: Members, k: Key, p: Option<MediaPart>) {
    if p.None? then k !in o
    else
      && k in o && o[k].Obj? && o[k].members.Keys == {k} && o[k].members[k].Obj?
      && var m := o[k].members[k].members;
         m.Keys <= {Url, Id} && HasText(m, Url, p.value.url.url) && HasSome(m, Id, p.value.url.id)
  }

  predicate NestedTextShape(o: Members, p: Option<TextPart>) {
    if p.None? then Key.Text !in o
    else Has(o, Key.Text, Some(Obj(map[Key.Text := Str(p.value.text)])))
  }

  predicate NestedThinkShape(o: Members, p: Option<ThinkPart>) {
    if p.None? then Think !in o
    else
      && Think in o && o[Think].Obj?
      && var m := o[Think].members;
         m.Keys <= {Think, Encrypted} && HasText(m, Think, p.value.think) && HasSome(m, Encrypted, p.value.encrypted)
  }

  // A text or a thought is flat; any other part has one nested object for each field it has.
  predicate PartShape(j: Json, cp: ContentPart) {
    && j.Obj?
    && var o := j.members;
       && HasText(o, Type, cp.kind)
       && if cp.kind == "text" then
            o.Keys == {Type, Key.Text} && HasText(o, Key.Text, if cp.text.Some? then cp.text.value.text else "")
          else if cp.kind == "think" then
            && o.Keys <= {Type, Think, Encrypted}
            && HasText(o, Think, if cp.think.Some? then cp.think.value.think else "")
            && HasSome(o, Encrypted, if cp.think.Some? then cp.think.value.encrypted else "")
          else
            && o.Keys <= {Type, Key.Text, Think, ImageUrl, AudioUrl, VideoUrl}
            && NestedTextShape(o, cp.text) && NestedThinkShape(o, cp.think)
            && MediaShape(o, ImageUrl, cp.imageURL) && MediaShape(o, AudioUrl, cp.audioURL)
            && MediaShape(o, VideoUrl, cp.videoURL)
  }

  lemma MediaIsShaped(o: Members, k: Key, p: Option<MediaPart>)
    requires Has(o, k, MarshalMedia(p, k))
    ensures MediaShape(o, k, p)
  {
  }

  lemma NestedHas(cp: ContentPart)
    ensures var o := MarshalNested(cp);
            && HasText(o, Type, cp.kind)
            && Has(o, Key.Text, MarshalText(cp.text)) && Has(o, Think, MarshalThink(cp.think))
            && Has(o, ImageUrl, MarshalMedia(cp.imageURL, ImageUrl))
            && Has(o, AudioUrl, MarshalMedia(cp.audioURL, AudioUrl))
            && Has(o, VideoUrl, MarshalMedia(cp.videoURL, VideoUrl))
            && o.Keys <= {Type, Key.Text, Think, ImageUrl, AudioUrl, VideoUrl}
  {
  }

  lemma PartIsShaped(cp: ContentPart)
    ensures PartShape(MarshalPart(cp), cp)
  {
    if cp.kind != "text" && cp.kind != "think" {
      var o := MarshalNested(cp);
      NestedHas(cp);
      MediaIsShaped(o, ImageUrl, cp.imageURL);
      MediaIsShaped(o, AudioUrl, cp.audioURL);
      MediaIsShaped(o, VideoUrl, cp.videoURL);
    }
  }

  lemma {:induction false} AllShaped(ps: seq<ContentPart>)
    ensures var js := MarshalAll(ps, MarshalPart); forall i | 0 <= i < |ps| :: PartShape(js[i], ps[i])
  {
    if ps != [] {
      PartIsShaped(ps[0]);
      AllShaped(ps[1..]);
    }
  }

  lemma ContentIsShaped(c: Content)
    requires MarshalContent(c).Ok?
    ensures ContentShape(MarshalContent(c).value, c)
  {
    AllShaped(c.parts);
  }

  // ---------------------------------------------------------------------------------------------
  // Tool results
  // ---------------------------------------------------------------------------------------------

  predicate DisplayShape(j: Json, d: DisplayBlock) {
    && j.Obj?
    && var o := j.members;
       && o.Keys <= {Type, Key.Text, Path, OldText, NewText, IsSummary, Items, Language, Command, Data}
       && HasText(o, Type, d.kind) && HasSome(o, Key.Text, d.text) && HasSome(o, Path, d.path)
       && HasSome(o, OldText, d.oldText) && HasSome(o, NewText, d.newText) && HasFlag(o, IsSummary, d.isSummary)
       && HasSome(o, Language, d.language) && HasSome(o, Command, d.command) && Has(o, Data, d.data)
       && if d.items == [] then Items !in o else Items in o && ItemsShape(o[Items], d.items)
  }

  predicate ItemsShape(j: Json, items: seq<TodoItem>) {
    && j.Arr? && |j.items| == |items|
    && forall i | 0 <= i < |items| ::
         j.items[i] == Obj(map[Title := Str(items[i].title), Status := Str(items[i].status)])
  }

  predicate ToolReturnShape(j: Json, v: ToolReturnValue) {
    && j.Obj?
    && var o := j.members;
       && o.Keys <= {IsError, Output, Message, Display, Extras}
       && Has(o, IsError, Some(Bool(v.isError))) && Output in o && ContentShape(o[Output], v.output)
       && HasText(o, Message, v.message) && Has(o, Extras, v.extras)
       && if v.display == [] then Display !in o else Display in o && DisplaysShape(o[Display], v.display)
  }

  predicate DisplaysShape(j: Json, ds: seq<DisplayBlock>) {
    j.Arr? && |j.items| == |ds| && forall i | 0 <= i < |ds| :: DisplayShape(j.items[i], ds[i])
  }

  lemma {:induction false} ItemsAreShaped(items: seq<TodoItem>)
    ensures ItemsShape(Arr(MarshalAll(items, MarshalItem)), items)
  {
    if items != [] {
      ItemsAreShaped(items[1..]);
    }
  }

  lemma TextIsShaped(d: DisplayBlock)
    ensures var o := TextMembers(d);
            && HasText(o, Type, d.kind) && HasSome(o, Key.Text, d.text) && HasSome(o, Path, d.path)
            && HasSome(o, OldText, d.oldText) && HasSome(o, NewText, d.newText)
            && o.Keys <= {Type, Key.Text, Path, OldText, NewText}
  {
  }

  lemma MoreIsShaped(d: DisplayBlock, o: Members)
    requires o.Keys <= {Type, Key.Text, Path, OldText, NewText}
    ensures var more := MoreMembers(d, o);
            && HasFlag(more, IsSummary, d.isSummary) && HasSome(more, Language, d.language)
            && HasSome(more, Command, d.command) && Has(more, Data, d.data)
            && Has(more, Items, OptList(MarshalAll(d.items, MarshalItem)))
            && more.Keys <= o.Keys + {IsSummary, Items, Language, Command, Data}
            && forall k | k !in {IsSummary, Items, Language, Command, Data} ::
                 (k in more <==> k in o) && (k in o ==> more[k] == o[k])
  {
  }

  lemma DisplayIsShaped(d: DisplayBlock)
    ensures DisplayShape(MarshalDisplay(d), d)
  {
    TextIsShaped(d);
    MoreIsShaped(d, TextMembers(d));
    ItemsAreShaped(d.items);
  }

  lemma {:induction false} DisplaysAreShaped(ds: seq<DisplayBlock>)
    ensures DisplaysShape(Arr(MarshalAll(ds, MarshalDisplay)), ds)
  {
    if ds != [] {
      DisplayIsShaped(ds[0]);
      DisplaysAreShaped(ds[1..]);
    }
  }

  lemma ToolReturnIsShaped(v: ToolReturnValue)
    requires MarshalToolReturn(v).Ok?
    ensures ToolReturnShape(MarshalToolReturn(v).value, v)
  {
    ContentIsShaped(v.output);
    DisplaysAreShaped(v.display);
  }

  // ---------------------------------------------------------------------------------------------
  // Events
  // ---------------------------------------------------------------------------------------------

  predicate UsageShape(o: Members, u: Option<Usage>) {
    if u.None? then TokenUsage !in o
    else
      && TokenUsage in o && o[TokenUsage].Obj?
      && var m := o[TokenUsage].members;
         && m.Keys == {InputOther, Output, InputCacheRead, InputCacheCreation}
         && HasCount(m, InputOther, u.value.inputOther) && HasCount(m, Output, u.value.output)
         && HasCount(m, InputCacheRead, u.value.inputCacheRead)
         && HasCount(m, InputCacheCreation, u.value.inputCacheCreation)
  }

  predicate StatusShape(o: Members, e: Event)
    requires e.StatusUpdateEvent?
  {
    && o.Keys <= {ContextUsage, ContextTokens, MaxContextTokens, TokenUsage, MessageId, PlanMode}
    && Has(o, ContextUsage, if e.contextUsage.Some? then Some(Num(e.contextUsage.value)) else None)
    && HasOptCount(o, ContextTokens, e.contextTokens) && HasOptCount(o, MaxContextTokens, e.maxContextTokens)
    && UsageShape(o, e.tokenUsage) && HasSome(o, MessageId, e.messageId) && HasFlag(o, PlanMode, e.planMode)
  }

  predicate ToolCallShape(o: Members, e: Event)
    requires e.ToolCallEvent?
  {
    && o.Keys <= {Type, Id, Function, Extras}
    && HasText(o, Type, "function") && HasText(o, Id, e.id) && Has(o, Extras, e.extras)
    && Function in o && o[Function].Obj?
    && var f := o[Function].members;
       f.Keys <= {Name, Arguments} && HasText(f, Name, e.name) && HasOptText(f, Arguments, e.arguments)
  }

  predicate SubagentShape(o: Members, e: Event)
    requires e.SubagentEvent?
  {
    && o.Keys <= {Key.Event, ParentToolCallId, AgentId, SubagentType}
    && HasOptText(o, ParentToolCallId, e.parentToolCallId) && HasOptText(o, AgentId, e.agentId)
    && HasOptText(o, SubagentType, e.subagentType)
    && Key.Event in o && o[Key.Event].Obj?
    && var m := o[Key.Event].members;
       && m.Keys == {Type, Payload} && HasText(m, Type, e.typeName)
       && m[Payload] == if e.payload.Some? then e.payload.value else Null
  }

  predicate RetryShape(o: Members, e: Event)
    requires e.StepRetryEvent?
  {
    && o.Keys <= {N, NextAttempt, MaxAttempts, WaitS, ErrorType, StatusCode}
    && HasCount(o, N, e.n) && HasCount(o, NextAttempt, e.nextAttempt) && HasCount(o, MaxAttempts, e.maxAttempts)
    && HasCount(o, WaitS, e.waitS) && HasText(o, ErrorType, e.errorType) && HasOptCount(o, StatusCode, e.statusCode)
  }

  // The members of an event's payload.
  predicate MembersShape(o: Members, e: Event) {
    match e
    case TurnBeginEvent(input) => o.Keys == {UserInput} && ContentShape(o[UserInput], input)
    case SteerInputEvent(input) => o.Keys == {UserInput} && ContentShape(o[UserInput], input)
    case TurnEndEvent => o == map[]
    case StepInterruptedEvent => o == map[]
    case CompactionBeginEvent => o == map[]
    case CompactionEndEvent => o == map[]
    case StepBeginEvent(n) => o.Keys == {N} && HasCount(o, N, n)
    case StepRetryEvent(_, _, _, _, _, _) => RetryShape(o, e)
    case StatusUpdateEvent(_, _, _, _, _, _) => StatusShape(o, e)
    case ContentPartEvent(part) => PartShape(Obj(o), part)
    case ToolCallEvent(_, _, _, _) => ToolCallShape(o, e)
    case ToolCallPartEvent(part) => o.Keys <= {ArgumentsPart} && HasOptText(o, ArgumentsPart, part)
    case ToolResultEvent(id, v) =>
      o.Keys == {ToolCallId, ReturnValue} && HasText(o, ToolCallId, id) && ToolReturnShape(o[ReturnValue], v)
    case ApprovalResponseEvent(id, response, feedback) =>
      && o.Keys <= {RequestId, Response, Feedback}
      && HasText(o, RequestId, id) && HasText(o, Response, response) && HasSome(o, Feedback, feedback)
    case SubagentEvent(_, _, _, _, _) => SubagentShape(o, e)
    case BtwBeginEvent(id, question) =>
      o.Keys == {Id, Question} && HasText(o, Id, id) && HasText(o, Question, question)
    case BtwEndEvent(id, answer, error) =>
      && o.Keys <= {Id, Response, Error}
      && HasText(o, Id, id) && HasOptText(o, Response, answer) && HasOptText(o, Error, error)
    case PlanDisplayEvent(content, path) =>
      o.Keys == {Key.Content, FilePath} && HasText(o, Key.Content, content) && HasText(o, FilePath, path)
    case HookTriggeredEvent(event, target, count) =>
      && o.Keys == {Key.Event, Target, HookCount}
      && HasText(o, Key.Event, event) && HasText(o, Target, target) && HasCount(o, HookCount, count)
    case HookResolvedEvent(event, target, action, reason, ms) =>
      && o.Keys == {Key.Event, Target, Action, Reason, DurationMs}
      && HasText(o, Key.Event, event) && HasText(o, Target, target) && HasText(o, Action, action)
      && HasText(o, Reason, reason) && HasCount(o, DurationMs, ms)
  }

  // The payload of an event has these members and no others.
  lemma PayloadIsShaped(e: Event)
    requires MarshalPayload(e).Ok?
    ensures MarshalPayload(e).value.Obj? && MembersShape(MarshalPayload(e).value.members, e)
  {
    match e
    case TurnBeginEvent(_) => ContentEventIsShaped(e);
    case SteerInputEvent(_) => ContentEventIsShaped(e);
    case ContentPartEvent(_) => ContentEventIsShaped(e);
    case ToolResultEvent(_, _) => ContentEventIsShaped(e);
    case StatusUpdateEvent(_, _, _, _, _, _) => StatusIsShaped(e);
    case ToolCallEvent(_, _, _, _) => ToolCallIsShaped(e);
    case SubagentEvent(_, _, _, _, _) => SubagentIsShaped(e);
    case StepRetryEvent(_, _, _, _, _, _) => RetryIsShaped(e);
    case _ => OthersAreShaped(e);
  }

  lemma ContentEventIsShaped(e: Event)
    requires e.TurnBeginEvent? || e.SteerInputEvent? || e.ContentPartEvent? || e.ToolResultEvent?
    requires MarshalPayload(e).Ok?
    ensures MarshalPayload(e).value.Obj? && MembersShape(MarshalPayload(e).value.members, e)
  {
    match e
    case TurnBeginEvent(_) => InputIsShaped(e);
    case SteerInputEvent(_) => InputIsShaped(e);
    case ContentPartEvent(part) => PartIsShaped(part);
    case ToolResultEvent(id, v) => ResultIsShaped(id, v);
  }

  lemma InputIsShaped(e: Event)
    requires (e.TurnBeginEvent? || e.SteerInputEvent?) && MarshalPayload(e).Ok?
    ensures MarshalPayload(e).value.Obj? && MembersShape(MarshalPayload(e).value.members, e)
  {
    ContentIsShaped(e.userInput);
  }

  lemma ResultIsShaped(id: string, v: ToolReturnValue)
    requires MarshalPayload(ToolResultEvent(id, v)).Ok?
    ensures var j := MarshalPayload(ToolResultEvent(id, v)).value;
            j.Obj? && MembersShape(j.members, ToolResultEvent(id, v))
  {
    ToolReturnIsShaped(v);
  }

  lemma StatusIsShaped(e: Event)
    requires e.StatusUpdateEvent?
    ensures StatusShape(StatusMembers(e), e)
  {
  }

  lemma ToolCallIsShaped(e: Event)
    requires e.ToolCallEvent?
    ensures ToolCallShape(ToolCallMembers(e), e)
  {
  }

  lemma SubagentIsShaped(e: Event)
    requires e.SubagentEvent?
    ensures SubagentShape(SubagentMembers(e), e)
  {
  }

  lemma RetryIsShaped(e: Event)
    requires e.StepRetryEvent?
    ensures RetryShape(RetryMembers(e), e)
  {
  }

  lemma OthersAreShaped(e: Event)
    requires !e.TurnBeginEvent? && !e.SteerInputEvent? && !e.ContentPartEvent? && !e.ToolResultEvent?
    requires !e.StatusUpdateEvent? && !e.ToolCallEvent? && !e.SubagentEvent? && !e.StepRetryEvent?
    ensures MarshalPayload(e).Ok? && MarshalPayload(e).value.Obj? && MembersShape(MarshalPayload(e).value.members, e)
  {
  }

  // The name by which the envelope tells an event's type.
  function TypeName(e: Event): string {
    match e
    case TurnBeginEvent(_) => "TurnBegin"
    case TurnEndEvent => "TurnEnd"
    case StepBeginEvent(_) => "StepBegin"
    case StepInterruptedEvent => "StepInterrupted"
    case StepRetryEvent(_, _, _, _, _, _) => "StepRetry"
    case CompactionBeginEvent => "CompactionBegin"
    case CompactionEndEvent => "CompactionEnd"
    case StatusUpdateEvent(_, _, _, _, _, _) => "StatusUpdate"
    case ContentPartEvent(_) => "ContentPart"
    case ToolCallEvent(_, _, _, _) => "ToolCall"
    case ToolCallPartEvent(_) => "ToolCallPart"
    case ToolResultEvent(_, _) => "ToolResult"
    case ApprovalResponseEvent(_, _, _) => "ApprovalResponse"
    case SubagentEvent(_, _, _, _, _) => "SubagentEvent"
    case SteerInputEvent(_) => "SteerInput"
    case BtwBeginEvent(_, _) => "BtwBegin"
    case BtwEndEvent(_, _, _) => "BtwEnd"
    case PlanDisplayEvent(_, _) => "PlanDisplay"
    case HookTriggeredEvent(_, _, _) => "HookTriggered"
    case HookResolvedEvent(_, _, _, _, _) => "HookResolved"
  }

  lemma TypeNameIs(e: Event)
    ensures TypeName(e) == NameOf(KindOf(e))
  {
  }

  // The envelope of an event has its type's name and a payload with just these members; and whatever JSON is
  // read as this event names that type.
  lemma {:induction false} EventIsShaped(e: Event)
    requires !ER.AmbiguousEvent(e)
    ensures var j := MarshalEvent(e);
            && j.Ok? && j.value.Obj? && j.value.members.Keys == {Type, Payload}
            && HasText(j.value.members, Type, TypeName(e))
            && j.value.members[Payload].Obj? && MembersShape(j.value.members[Payload].members, e)
    ensures forall j: Json | ParseEvent(j) == Ok(e) :: j.Obj? && HasText(j.members, Type, TypeName(e))
  {
    ER.EventRoundTrip(e);
    PayloadIsShaped(e);
    TypeNameIs(e);
    forall j: Json | ParseEvent(j) == Ok(e) ensures j.Obj? && HasText(j.members, Type, TypeName(e)) {
      ER.TypeIsTrue(j);
    }
  }
}
