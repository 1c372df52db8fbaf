// Reading an event back gives its normal form.
module EventResults {
  import opened Wrappers
  import opened Json
  import opened Content
  import opened ToolValue
  import opened Events

  function NormalEvent(e: Event): Event {
    match e
    case TurnBeginEvent(input) => TurnBeginEvent(NormalContent(input))
    case SteerInputEvent(input) => SteerInputEvent(NormalContent(input))
    case ContentPartEvent(part) => ContentPartEvent(NormalPart(part))
    case ToolResultEvent(id, v) => ToolResultEvent(id, NormalToolReturn(v))
    case SubagentEvent(parent, agent, kind, name, payload) =>
      SubagentEvent(parent, agent, kind, name, Some(if payload.Some? then payload.value else Null))
    case _ => e
  }

  predicate IsNormalEvent(e: Event) {
    match e
    case TurnBeginEvent(input) => IsNormalContent(input)
    case SteerInputEvent(input) => IsNormalContent(input)
    case ContentPartEvent(part) => IsNormalPart(part)
    case ToolResultEvent(_, v) => IsNormalContent(v.output)
    case SubagentEvent(_, _, _, _, payload) => payload.Some?
    case _ => true
  }

  // The event holds an input or output with both text and parts.
  predicate AmbiguousEvent(e: Event) {
    match e
    case TurnBeginEvent(input) => Ambiguous(input)
    case SteerInputEvent(input) => Ambiguous(input)
    case ToolResultEvent(_, v) => Ambiguous(v.output)
    case _ => false
  }

  ghost predicate PayloadBack(e: Event) {
    && (MarshalPayload(e).Err? <==> AmbiguousEvent(e))
    && (MarshalPayload(e).Ok? ==> ParsePayload(KindOf(e), Some(MarshalPayload(e).value)) == Ok(NormalEvent(e)))
  }

  lemma ContentBack(e: Event)
    requires e.TurnBeginEvent? || e.SteerInputEvent? || e.ContentPartEvent?
    ensures PayloadBack(e)
  {
    match e
    case TurnBeginEvent(input) => ContentRoundTrip(input);
    case SteerInputEvent(input) => ContentRoundTrip(input);
    case ContentPartEvent(part) => PartRoundTrip(part);
  }

  lemma ToolResultMembers(id: string, value: Json)
    ensures var r := ParsePayload(ToolResult, Some(Obj(map[ToolCallId := Str(id), ReturnValue := value])));
            if ParseToolReturn(value).Ok? then r == Ok(ToolResultEvent(id, ParseToolReturn(value).value)) else r.Err?
  {
    var o := map[ToolCallId := Str(id), ReturnValue := value];
    assert Get(o, ToolCallId) == Str(id) && Get(o, ReturnValue) == value;
  }

  lemma ToolResultBack(e: Event)
    requires e.ToolResultEvent?
    ensures PayloadBack(e)
  {
    var v := e.returnValue;
    ToolReturnRoundTrip(v);
    if MarshalToolReturn(v).Ok? {
      ToolResultMembers(e.toolCallId, MarshalToolReturn(v).value);
    }
  }

  lemma UsageBack(u: Option<Usage>)
    ensures var j := MarshalUsage(u);
            AsUsage(if j.Some? then j.value else Null) == Ok(u)
  {
  }

  lemma StatusHas(e: Event)
    requires e.StatusUpdateEvent?
    ensures var o := StatusMembers(e);
            && GetRaw(o, ContextUsage) == (if e.contextUsage.Some? then Some(Num(e.contextUsage.value)) else None)
            && GetRaw(o, ContextTokens) == OptNat(e.contextTokens)
            && GetRaw(o, MaxContextTokens) == OptNat(e.maxContextTokens)
            && GetRaw(o, TokenUsage) == MarshalUsage(e.tokenUsage)
            && GetRaw(o, MessageId) == NonEmpty(e.messageId)
            && GetRaw(o, PlanMode) == OptBool(e.planMode)
  {
  }

  lemma StatusBack(e: Event)
    requires e.StatusUpdateEvent?
    ensures PayloadBack(e)
  {
    var o := StatusMembers(e);
    assert ParseStatus(o) == Ok(e) by {
      StatusHas(e);
      UsageBack(e.tokenUsage);
    }
  }

  lemma RetryBack(e: Event)
    requires e.StepRetryEvent?
    ensures PayloadBack(e)
  {
  }

  lemma ToolCallBack(e: Event)
    requires e.ToolCallEvent?
    ensures PayloadBack(e)
  {
  }

  lemma SubagentBack(e: Event)
    requires e.SubagentEvent?
    ensures PayloadBack(e)
  {
  }

  lemma BareBack(e: Event)
    requires e.TurnEndEvent? || e.StepInterruptedEvent? || e.CompactionBeginEvent? || e.CompactionEndEvent?
    ensures PayloadBack(e)
  {
  }

  lemma PlainBack(e: Event)
    requires e.StepBeginEvent? || e.ToolCallPartEvent? || e.BtwBeginEvent? || e.BtwEndEvent? || e.PlanDisplayEvent?
    ensures PayloadBack(e)
  {
  }

  lemma AnswerBack(e: Event)
    requires e.ApprovalResponseEvent? || e.HookTriggeredEvent? || e.HookResolvedEvent?
    ensures PayloadBack(e)
  {
  }

  lemma PayloadRoundTrip(e: Event)
    ensures PayloadBack(e)
  {
    match e
    case TurnBeginEvent(_) => ContentBack(e);
    case SteerInputEvent(_) => ContentBack(e);
    case ContentPartEvent(_) => ContentBack(e);
    case ToolResultEvent(_, _) => ToolResultBack(e);
    case StatusUpdateEvent(_, _, _, _, _, _) => StatusBack(e);
    case StepRetryEvent(_, _, _, _, _, _) => RetryBack(e);
    case ToolCallEvent(_, _, _, _) => ToolCallBack(e);
    case SubagentEvent(_, _, _, _, _) => SubagentBack(e);
    case TurnEndEvent => BareBack(e);
    case StepInterruptedEvent => BareBack(e);
    case CompactionBeginEvent => BareBack(e);
    case CompactionEndEvent => BareBack(e);
    case StepBeginEvent(_) => PlainBack(e);
    case ToolCallPartEvent(_) => PlainBack(e);
    case BtwBeginEvent(_, _) => PlainBack(e);
    case BtwEndEvent(_, _, _) => PlainBack(e);
    case PlanDisplayEvent(_, _) => PlainBack(e);
    case ApprovalResponseEvent(_, _, _) => AnswerBack(e);
    case HookTriggeredEvent(_, _, _) => AnswerBack(e);
    case HookResolvedEvent(_, _, _, _, _) => AnswerBack(e);
  }

  lemma KindFound(k: Kind, name: string)
    requires name == NameOf(k)
    ensures Named(name, KINDS) == Some(k)
  {
    var i := KindIndex(k);
    NamedFinds(k, KINDS);
  }

  lemma EnvelopeBack(k: Kind, payload: Json)
    ensures ParseEvent(Obj(map[Type := Str(NameOf(k)), Payload := payload])) == ParsePayload(k, Some(payload))
  {
    var o: Members := map[Type := Str(NameOf(k)), Payload := payload];
    assert Get(o, Type) == Str(NameOf(k)) && GetRaw(o, Payload) == Some(payload);
    KindFound(k, NameOf(k));
  }

  // Every event can be written unless it holds both text and parts, and what is read back is its
  // normal form.
  lemma EventRoundTrip(e: Event)
    ensures MarshalEvent(e).Err? <==> AmbiguousEvent(e)
    ensures MarshalEvent(e).Ok? ==> ParseEvent(MarshalEvent(e).value) == Ok(NormalEvent(e))
  {
    PayloadRoundTrip(e);
    if MarshalPayload(e).Ok? {
      EnvelopeBack(KindOf(e), MarshalPayload(e).value);
    }
  }

  lemma NormalEventExactly(e: Event)
    ensures IsNormalEvent(NormalEvent(e))
    ensures NormalEvent(e) == e <==> IsNormalEvent(e)
  {
    match e
    case TurnBeginEvent(input) => NormalContentExactly(input);
    case SteerInputEvent(input) => NormalContentExactly(input);
    case ContentPartEvent(part) => NormalPartExactly(part);
    case ToolResultEvent(_, v) => NormalContentExactly(v.output);
    case _ =>
  }

  // The round trip loses nothing exactly for events in normal form, and a second one changes nothing.
  lemma RoundTripExactly(e: Event)
    requires !AmbiguousEvent(e)
    ensures ParseEvent(MarshalEvent(e).value) == Ok(e) <==> IsNormalEvent(e)
    ensures !AmbiguousEvent(NormalEvent(e))
    ensures ParseEvent(MarshalEvent(NormalEvent(e)).value) == Ok(NormalEvent(e))
  {
    EventRoundTrip(e);
    EventRoundTrip(NormalEvent(e));
    NormalEventExactly(e);
    NormalEventExactly(NormalEvent(e));
  }

  // The encrypted member of a thought is written and not read back.
  lemma EncryptedIsLost(think: string, encrypted: string)
    requires encrypted != ""
    ensures var e := ContentPartEvent(ZERO_PART.(kind := THINK, think := Some(ThinkPart(think, encrypted))));
            && !AmbiguousEvent(e)
            && ParseEvent(MarshalEvent(e).value) != Ok(e)
            && ParseEvent(MarshalEvent(e).value) ==
               Ok(ContentPartEvent(ZERO_PART.(kind := THINK, think := Some(ThinkPart(think, "")))))
  {
    var e := ContentPartEvent(ZERO_PART.(kind := THINK, think := Some(ThinkPart(think, encrypted))));
    RoundTripExactly(e);
    EventRoundTrip(e);
  }

  lemma {:induction false} NamedIs(s: string, cases: seq<Kind>)
    ensures Named(s, cases).Some? ==> s == NameOf(Named(s, cases).value)
  {
    if cases != [] && s != NameOf(cases[0]) {
      NamedIs(s, cases[1..]);
    }
  }

  predicate Nested(k: Kind) {
    k.HookTriggered? || k.HookResolved? || k.Subagent? || k.ToolCall? || k.ToolResult? || k.StepRetry?
        || k.StatusUpdate?
  }

  lemma NestedKind(k: Kind, o: Members)
    requires Nested(k)
    ensures ParseStruct(k, o).Ok? ==> KindOf(ParseStruct(k, o).value) == k
  {
  }

  lemma StructKind(k: Kind, o: Members)
    requires Bare(k).None? && !k.ContentPartKind?
    ensures ParseStruct(k, o).Ok? ==> KindOf(ParseStruct(k, o).value) == k
  {
    if Nested(k) {
      NestedKind(k, o);
    }
  }

  lemma PayloadKind(k: Kind, payload: Option<Json>)
    ensures ParsePayload(k, payload).Ok? ==> KindOf(ParsePayload(k, payload).value) == k
  {
    if Bare(k).None? && payload.Some? && !k.ContentPartKind? && AsMembers(payload.value).Ok? {
      StructKind(k, AsMembers(payload.value).value);
    }
  }

  lemma OnlyFunctions(payload: Option<Json>)
    ensures ParsePayload(ToolCall, payload).Ok? ==>
              payload.Some? && payload.value.Obj? && Get(payload.value.members, Type) == Str(FUNCTION)
  {
    assert FUNCTION != "";
  }

  lemma EnvelopeOf(j: Json)
    ensures ParseEvent(j).Ok? ==> j.Obj? && Get(j.members, Type).Str?
    ensures ParseEvent(j).Ok? ==>
              var k := Named(Get(j.members, Type).s, KINDS);
              k.Some? && ParseEvent(j) == ParsePayload(k.value, GetRaw(j.members, Payload))
  {
    if ParseEvent(j).Ok? {
      NamedIs(AsString(Get(AsMembers(j).value, Type)).value, KINDS);
      NoEmptyName();
    }
  }

  // Whatever JSON is read as an event, the event is of the type its envelope names; a tool call also
  // says that it is a function.
  lemma TypeIsTrue(j: Json)
    ensures ParseEvent(j).Ok? ==> j.Obj? && Get(j.members, Type) == Str(NameOf(KindOf(ParseEvent(j).value)))
    ensures ParseEvent(j).Ok? && ParseEvent(j).value.ToolCallEvent? ==>
              Payload in j.members && j.members[Payload].Obj? && Get(j.members[Payload].members, Type) == Str(FUNCTION)
  {
    EnvelopeOf(j);
    if ParseEvent(j).Ok? {
      var name, payload := Get(j.members, Type).s, GetRaw(j.members, Payload);
      NamedIs(name, KINDS);
      PayloadKind(Named(name, KINDS).value, payload);
      OnlyFunctions(payload);
    }
  }

  lemma NoEmptyName()
    ensures forall k: Kind :: NameOf(k) != ""
  {
    forall k: Kind ensures NameOf(k) != "" {
      NamePrint(k);
    }
  }
}
