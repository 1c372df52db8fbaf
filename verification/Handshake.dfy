// The handshake and what it governs: handleInitialize (server/server.go), AskQuestion and TriggerHook
// (server/request.go).
//
// The dispatch goroutine handles one initialize after another; agent goroutines ask questions and
// trigger hooks at any time. Each locked section and each write is one step.
module Handshake {
  import opened Wrappers
  import opened Hooks
  import Versions

  datatype Tool = Tool(name: string, definition: string)

  datatype Caps = Caps(question: Option<bool>, planMode: Option<bool>)

  datatype Params = Params(version: string, tools: seq<Tool>, caps: Option<Caps>, hooks: seq<Sub>)

  // The options of the server. validate gives the redacted text of the validator's error, if there is one.
  datatype Setup = Setup(hooks: Config, validate: Tool -> Option<string>, info: string, slashCommands: seq<string>)

  datatype Rejected = Rejected(name: string, reason: string)

  datatype ToolsResult = ToolsResult(accepted: seq<string>, rejected: seq<Rejected>)

  datatype HooksInfo = HooksInfo(supported: seq<string>, configured: map<string, nat>)

  datatype InitResult = InitResult(version: string, info: string, slashCommands: seq<string>, question: Option<bool>,
                                   tools: Option<ToolsResult>, hooks: Option<HooksInfo>)

  // What is written, with the id of the answered message or the number of the agent's call.
  datatype Entry =
    | AlreadyCalled(id: string)             // error -32600
    | InvalidParams(id: string)             // error -32602
    | Initialized(id: string, result: InitResult)
    | Question(call: nat)
    | HookRequest(call: nat, subscription: string)

  // The dispatch goroutine inside handleInitialize; params None stands for params that do not parse.
  datatype Dispatcher = Idle | Checked(id: string, parsed: Option<Params>) | Replying(id: string, params: Params)

  datatype Call = Refused | Asking(sent: bool) | Hooking(event: string, target: string, choice: Choice, sent: bool)

  datatype State = State(
    done: bool,
    version: string,
    caps: Caps,
    question: Option<bool>,    // serverCaps.SupportsQuestion
    hooks: map<string, Hook>,
    dispatcher: Dispatcher,
    calls: seq<Call>,
    log: seq<Entry>)

  datatype Step =
    | Check(id: string, params: Option<Params>)
    | Store
    | Reply
    | Ask
    | SendQuestion(call: nat)
    | Trigger(event: string, target: string, order: seq<string>)  // the order of the map iteration
    | SendHook(call: nat)

  function Init(): State {
    State(false, Versions.LEGACY, Caps(None, None), None, map[], Idle, [], [])
  }

  function ClientCaps(p: Params): Caps {
    if p.caps.Some? then p.caps.value else Caps(None, None)
  }

  function ServerQuestion(p: Params): Option<bool> {
    if ClientCaps(p).question == Some(true) then Some(true) else None
  }

  // The tools that the validator accepts, and those it does not with the reason, in order.
  function Accepted(validate: Tool -> Option<string>, tools: seq<Tool>): seq<string> {
    if tools == [] then []
    else
      var t := tools[|tools| - 1];
      Accepted(validate, tools[..|tools| - 1]) + if validate(t).None? then [t.name] else []
  }

  function Refusals(validate: Tool -> Option<string>, tools: seq<Tool>): seq<Rejected> {
    if tools == [] then []
    else
      var t := tools[|tools| - 1];
      Refusals(validate, tools[..|tools| - 1]) + if validate(t).Some? then [Rejected(t.name, validate(t).value)] else []
  }

  ghost function ResultOf(setup: Setup, p: Params): InitResult {
    var configured := Configured(setup.hooks, p.hooks);
    InitResult(
      Versions.Negotiated(p.version), setup.info, setup.slashCommands, ServerQuestion(p),
      if p.tools == [] then None
      else Some(ToolsResult(Accepted(setup.validate, p.tools), Refusals(setup.validate, p.tools))),
      if setup.hooks.supported != [] || configured != map[] then Some(HooksInfo(setup.hooks.supported, configured))
          else None)
  }

  predicate Enabled(s: State, st: Step) {
    match st
    case Check(_, _) => s.dispatcher.Idle?
    case Store => s.dispatcher.Checked?
    case Reply => s.dispatcher.Replying?
    case Ask => true
    case SendQuestion(c) => c < |s.calls| && s.calls[c] == Asking(false)
    case Trigger(_, _, order) => IsOrder(s.hooks, order)
    case SendHook(c) => c < |s.calls| && s.calls[c].Hooking? && s.calls[c].choice.Chosen? && !s.calls[c].sent
  }

  ghost function StoreStep(setup: Setup, s: State): State
    requires s.dispatcher.Checked?
  {
    match s.dispatcher.parsed
    case None => s.(dispatcher := Idle, log := s.log + [InvalidParams(s.dispatcher.id)])
    case Some(p) =>
      s.(done := true, version := Versions.Negotiated(p.version), caps := ClientCaps(p), question := ServerQuestion(p),
         hooks := Stored(setup.hooks, p.hooks), dispatcher := Replying(s.dispatcher.id, p))
  }

  ghost function Apply(setup: Setup, s: State, st: Step): State
    requires Enabled(s, st)
  {
    match st
    case Check(id, params) =>
      if s.done then s.(log := s.log + [AlreadyCalled(id)]) else s.(dispatcher := Checked(id, params))
    case Store => StoreStep(setup, s)
    case Reply =>
      s.(log := s.log + [Initialized(s.dispatcher.id, ResultOf(setup, s.dispatcher.params))], dispatcher := Idle)
    case Ask => s.(calls := s.calls + [if s.caps.question == Some(true) then Asking(false) else Refused])
    case SendQuestion(c) => s.(calls := s.calls[c := Asking(true)], log := s.log + [Question(c)])
    case Trigger(event, target, order) =>
      s.(calls := s.calls + [Hooking(event, target, Choose(setup.hooks, s.hooks, order, event, target), false)])
    case SendHook(c) =>
      s.(calls := s.calls[c := s.calls[c].(sent := true)], log := s.log + [HookRequest(c, s.calls[c].choice.hook.id)])
  }

  ghost function Exec(setup: Setup, schedule: seq<Step>): State {
    if schedule == [] then Init()
    else
      var s := Exec(setup, schedule[..|schedule| - 1]);
      var st := schedule[|schedule| - 1];
      if Enabled(s, st) then Apply(setup, s, st) else s
  }

  // ---------------------------------------------------------------------------------------------
  // The invariant
  // ---------------------------------------------------------------------------------------------

  predicate Answered(log: seq<Entry>) {
    exists i | 0 <= i < |log| :: log[i].Initialized?
  }

  ghost predicate DispatcherOk(s: State) {
    && (s.dispatcher.Checked? ==> !s.done)
    && (!s.done ==> !Answered(s.log))
    && (s.dispatcher.Replying? ==> s.done && !Answered(s.log))
    && (s.done ==> Answered(s.log) || s.dispatcher.Replying?)
    && (forall i, j | 0 <= i < j < |s.log| && s.log[i].Initialized? :: !s.log[j].Initialized?)
  }

  // Before the handshake nothing is supported and nothing is stored; afterwards both agree with one
  // set of parameters.
  ghost predicate FieldsOk(setup: Setup, s: State) {
    if s.done then
      exists p: Params :: FieldsOf(setup, s, p)
    else
      s.version == Versions.LEGACY && s.caps == Caps(None, None) && s.question == None && s.hooks == map[]
  }

  ghost predicate FieldsOf(setup: Setup, s: State, p: Params) {
    && s.version == Versions.Negotiated(p.version) && s.caps == ClientCaps(p) && s.question == ServerQuestion(p)
    && s.hooks == Stored(setup.hooks, p.hooks)
    && (s.dispatcher.Replying? ==> s.dispatcher.params == p)
    && forall i | 0 <= i < |s.log| && s.log[i].Initialized? :: s.log[i].result == ResultOf(setup, p)
  }

  ghost predicate CallOk(cfg: Config, done: bool, caps: Caps, hooks: map<string, Hook>, c: Call) {
    match c
    case Refused => true
    case Asking(_) => done && caps.question == Some(true)
    case Hooking(event, target, choice, sent) =>
      (choice.Chosen? ==> done && choice.hook in hooks.Values && Fits(cfg, choice.hook, event, target))
          && (sent ==> choice.Chosen?)
  }

  ghost predicate EntryOk(calls: seq<Call>, e: Entry) {
    && (e.Question? ==> e.call < |calls| && calls[e.call] == Asking(true))
    && (e.HookRequest? ==>
          && e.call < |calls| && calls[e.call].Hooking? && calls[e.call].sent && calls[e.call].choice.Chosen?
          && calls[e.call].choice.hook.id == e.subscription)
  }

  ghost predicate CallsOk(setup: Setup, s: State) {
    && (forall c | 0 <= c < |s.calls| :: CallOk(setup.hooks, s.done, s.caps, s.hooks, s.calls[c]))
    && (forall i | 0 <= i < |s.log| :: EntryOk(s.calls, s.log[i]))
  }

  ghost predicate Inv(setup: Setup, s: State) {
    DispatcherOk(s) && FieldsOk(setup, s) && CallsOk(setup, s)
  }

  lemma DispatcherKeeps(setup: Setup, s: State, st: Step)
    requires Inv(setup, s) && Enabled(s, st)
    ensures DispatcherOk(Apply(setup, s, st))
  {
    var s' := Apply(setup, s, st);
    assert forall i | 0 <= i < |s.log| :: s'.log[i] == s.log[i];
    assert st.Reply? ==> s'.log[|s.log|].Initialized?;
  }

  lemma FieldsKeep(setup: Setup, s: State, st: Step)
    requires Inv(setup, s) && Enabled(s, st)
    ensures FieldsOk(setup, Apply(setup, s, st))
  {
    var s' := Apply(setup, s, st);
    assert forall i | 0 <= i < |s.log| :: s'.log[i] == s.log[i];
    if st.Store? && s.dispatcher.parsed.Some? {
      assert FieldsOf(setup, s', s.dispatcher.parsed.value);
    } else if s.done {
      var p: Params :| FieldsOf(setup, s, p);
      assert FieldsOf(setup, s', p);
    }
  }

  lemma CallsKeep(setup: Setup, s: State, st: Step)
    requires Inv(setup, s) && Enabled(s, st)
    ensures CallsOk(setup, Apply(setup, s, st))
  {
    if st.Trigger? {
      ChooseExactly(setup.hooks, s.hooks, st.order, st.event, st.target);
    }
  }

  lemma StepKeeps(setup: Setup, s: State, st: Step)
    requires Inv(setup, s) && Enabled(s, st)
    ensures Inv(setup, Apply(setup, s, st))
  {
    DispatcherKeeps(setup, s, st);
    FieldsKeep(setup, s, st);
    CallsKeep(setup, s, st);
  }

  lemma {:induction false} Invariant(setup: Setup, schedule: seq<Step>)
    ensures Inv(setup, Exec(setup, schedule))
  {
    if schedule != [] {
      Invariant(setup, schedule[..|schedule| - 1]);
      var s, st := Exec(setup, schedule[..|schedule| - 1]), schedule[|schedule| - 1];
      if Enabled(s, st) {
        StepKeeps(setup, s, st);
      }
    }
  }

  // ---------------------------------------------------------------------------------------------
  // Results
  // ---------------------------------------------------------------------------------------------

  ghost predicate SameConfiguration(s: State, s': State) {
    s'.done && s'.version == s.version && s'.caps == s.caps && s'.question == s.question && s'.hooks == s.hooks
  }

  lemma StepFixes(setup: Setup, s: State, st: Step)
    requires Inv(setup, s) && s.done && Enabled(s, st)
    ensures SameConfiguration(s, Apply(setup, s, st))
  {
  }

  // Once the handshake is done, version, capabilities and hooks never change.
  lemma {:induction false} FixedForGood(setup: Setup, schedule: seq<Step>, more: seq<Step>)
    requires Exec(setup, schedule).done
    ensures SameConfiguration(Exec(setup, schedule), Exec(setup, schedule + more))
  {
    if more == [] {
      assert schedule + more == schedule;
    } else {
      FixedForGood(setup, schedule, more[..|more| - 1]);
      var before, st := schedule + more[..|more| - 1], more[|more| - 1];
      assert schedule + more == before + [st];
      ExecThen(setup, before, st);
      Invariant(setup, before);
      if Enabled(Exec(setup, before), st) {
        StepFixes(setup, Exec(setup, before), st);
      }
    }
  }

  // One initialize succeeds at most. Version, capabilities and hooks in force and the whole answer all
  // come from the same parameters.
  lemma OneInitialize(setup: Setup, schedule: seq<Step>)
    ensures var s := Exec(setup, schedule);
            && (forall i, j | 0 <= i < j < |s.log| && s.log[i].Initialized? :: !s.log[j].Initialized?)
            && (Answered(s.log) ==> s.done)
            && (s.done ==> exists p: Params ::
                  && s.version == Versions.Negotiated(p.version) && s.caps == ClientCaps(p)
                  && s.question == ServerQuestion(p) && s.hooks == Stored(setup.hooks, p.hooks)
                  && forall i | 0 <= i < |s.log| && s.log[i].Initialized? :: s.log[i].result == ResultOf(setup, p))
  {
    Invariant(setup, schedule);
    var s := Exec(setup, schedule);
    if s.done {
      var p: Params :| FieldsOf(setup, s, p);
    }
  }

  // An initialize is refused as already called exactly when an earlier one was stored.
  lemma RefusedExactly(setup: Setup, schedule: seq<Step>, id: string, params: Option<Params>)
    requires Exec(setup, schedule).dispatcher.Idle?
    ensures var s := Exec(setup, schedule);
            Apply(setup, s, Check(id, params)).log == s.log + [AlreadyCalled(id)] <==> Answered(s.log)
  {
    Invariant(setup, schedule);
    var s := Exec(setup, schedule);
    assert |s.log + [AlreadyCalled(id)]| == |s.log| + 1;
  }

  // A question or a hook request is written only after an initialize that asked for it was stored. A
  // call of TriggerHook that found no stored subscription never writes one.
  lemma OnlyWhatWasAskedFor(setup: Setup, schedule: seq<Step>, i: nat)
    requires i < |Exec(setup, schedule).log|
    ensures var s := Exec(setup, schedule); var e := s.log[i];
            && (e.Question? ==> s.done && s.caps.question == Some(true) && s.question == Some(true))
            && (e.HookRequest? ==>
                  && s.done && e.subscription in s.hooks && e.call < |s.calls| && s.calls[e.call].Hooking?
                  && Fits(setup.hooks, s.hooks[e.subscription], s.calls[e.call].event, s.calls[e.call].target))
  {
    Invariant(setup, schedule);
    var s := Exec(setup, schedule);
    var e := s.log[i];
    assert EntryOk(s.calls, e);
    if e.Question? {
      assert CallOk(setup.hooks, s.done, s.caps, s.hooks, s.calls[e.call]);
    } else if e.HookRequest? {
      assert CallOk(setup.hooks, s.done, s.caps, s.hooks, s.calls[e.call]);
      var p: Params :| FieldsOf(setup, s, p);
      StoredUnderOwnId(setup.hooks, p.hooks);
    }
  }

  lemma StoredUnderOwnId(cfg: Config, subs: seq<Sub>)
    ensures forall id | id in Stored(cfg, subs) :: Stored(cfg, subs)[id].id == id
  {
    forall id | id in Stored(cfg, subs) ensures Stored(cfg, subs)[id].id == id {
      var i := Origin(cfg, subs, id);
    }
  }

  // Step n of the schedule is the locked section of the TriggerHook that is call c.
  ghost predicate TriggeredAt(setup: Setup, schedule: seq<Step>, n: nat, c: nat, event: string, target: string) {
    && n < |schedule| && schedule[n].Trigger? && schedule[n].event == event && schedule[n].target == target
    && Enabled(Exec(setup, schedule[..n]), schedule[n]) && |Exec(setup, schedule[..n]).calls| == c
  }

  // The call chose exactly if a subscription stored at that time fitted.
  ghost predicate ChoseAt(setup: Setup, schedule: seq<Step>, n: nat, c: nat, k: Call)
    requires k.Hooking? && n <= |schedule|
  {
    && TriggeredAt(setup, schedule, n, c, k.event, k.target)
    && (k.choice.Chosen? <==> AnyFits(setup.hooks, Exec(setup, schedule[..n]).hooks, k.event, k.target))
  }

  lemma CallStays(setup: Setup, s: State, st: Step, c: nat)
    requires Enabled(s, st) && c < |s.calls|
    ensures var k, k' := s.calls[c], Apply(setup, s, st).calls[c];
            k'.Hooking? ==> k.Hooking? && k'.event == k.event && k'.target == k.target && k'.choice == k.choice
  {
  }

  lemma {:induction false} TriggerHistory(setup: Setup, schedule: seq<Step>, c: nat)
    requires var s := Exec(setup, schedule); c < |s.calls| && s.calls[c].Hooking?
    ensures exists n: nat | n < |schedule| :: ChoseAt(setup, schedule, n, c, Exec(setup, schedule).calls[c])
  {
    var before, st := schedule[..|schedule| - 1], schedule[|schedule| - 1];
    var s := Exec(setup, before);
    var k := Exec(setup, schedule).calls[c];
    if c < |s.calls| {
      if Enabled(s, st) {
        CallStays(setup, s, st, c);
      }
      TriggerHistory(setup, before, c);
      var n: nat :| n < |before| && ChoseAt(setup, before, n, c, s.calls[c]);
      assert schedule[..n] == before[..n] && schedule[n] == before[n];
      assert ChoseAt(setup, schedule, n, c, k);
    } else {
      ChooseExactly(setup.hooks, s.hooks, st.order, st.event, st.target);
      assert ChoseAt(setup, schedule, |before|, c, k);
    }
  }

  // In every run: a call of TriggerHook chose a subscription exactly if one that was stored when it looked
  // fitted; it writes a request only if it chose, and then with the id of that subscription.
  lemma HookExactly(setup: Setup, schedule: seq<Step>, c: nat)
    requires var s := Exec(setup, schedule); c < |s.calls| && s.calls[c].Hooking?
    ensures var s := Exec(setup, schedule); var k := s.calls[c];
            && (exists n: nat | n < |schedule| :: ChoseAt(setup, schedule, n, c, k))
            && (forall i, id | 0 <= i < |s.log| && s.log[i] == HookRequest(c, id) ::
                  k.choice.Chosen? && k.choice.hook.id == id)
            && (k.choice.Chosen? && !k.sent ==> Enabled(s, SendHook(c)))
  {
    Invariant(setup, schedule);
    TriggerHistory(setup, schedule, c);
    var s := Exec(setup, schedule);
    forall i, id | 0 <= i < |s.log| && s.log[i] == HookRequest(c, id)
      ensures s.calls[c].choice.Chosen? && s.calls[c].choice.hook.id == id
    {
      assert EntryOk(s.calls, s.log[i]);
    }
  }

  // A question or a hook request is written before the answer to the initialize that allowed it exactly
  // when the dispatcher stands between storing the configuration and writing that answer.
  lemma EarlyExactly(setup: Setup, schedule: seq<Step>, c: nat)
    ensures var s := Exec(setup, schedule);
            Enabled(s, SendQuestion(c)) || Enabled(s, SendHook(c)) ==> (!Answered(s.log) <==> s.dispatcher.Replying?)
  {
    Invariant(setup, schedule);
    var s := Exec(setup, schedule);
    if c < |s.calls| {
      assert CallOk(setup.hooks, s.done, s.caps, s.hooks, s.calls[c]);
    }
  }

  // The configuration is stored before the answer is written, so a question can come before the answer
  // to the initialize that allowed it.
  lemma QuestionBeforeAnswer(setup: Setup, id: string, p: Params) returns (schedule: seq<Step>)
    requires ClientCaps(p).question == Some(true)
    ensures Exec(setup, schedule).log == [Question(0), Initialized(id, ResultOf(setup, p))]
  {
    schedule := [];
    ExecThen(setup, schedule, Check(id, Some(p)));
    schedule := schedule + [Check(id, Some(p))];
    ExecThen(setup, schedule, Store);
    schedule := schedule + [Store];
    ExecThen(setup, schedule, Ask);
    schedule := schedule + [Ask];
    ExecThen(setup, schedule, SendQuestion(0));
    schedule := schedule + [SendQuestion(0)];
    ExecThen(setup, schedule, Reply);
    schedule := schedule + [Reply];
  }

  lemma ExecThen(setup: Setup, schedule: seq<Step>, st: Step)
    ensures var s := Exec(setup, schedule);
            Exec(setup, schedule + [st]) == if Enabled(s, st) then Apply(setup, s, st) else s
  {
    assert (schedule + [st])[..|schedule|] == schedule;
  }
}
