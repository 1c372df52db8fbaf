// What the handshake stores and answers, told by the steps that were taken and by the client's parameters.
module HandshakeHistory {
  import opened Wrappers
  import opened Hooks
  import opened Handshake
  import Versions

  // The step was taken at some point of the schedule.
  ghost predicate Happened(setup: Setup, schedule: seq<Step>, st: Step) {
    && schedule != []
    && var before, last := schedule[..|schedule| - 1], schedule[|schedule| - 1];
       Happened(setup, before, st) || (last == st && Enabled(Exec(setup, before), st))
  }

  // ---------------------------------------------------------------------------------------------
  // Where the configuration comes from
  // ---------------------------------------------------------------------------------------------

  // The initialize with this id and these parameters was stored: it was the one that succeeded.
  ghost predicate StoredBy(setup: Setup, schedule: seq<Step>, id: string, p: Params) {
    && schedule != []
    && var before, st := schedule[..|schedule| - 1], schedule[|schedule| - 1]; var s := Exec(setup, before);
       StoredBy(setup, before, id, p) || (st.Store? && s.dispatcher == Checked(id, Some(p)))
  }

  // An initialize in hand was received.
  lemma {:induction false} CheckedIsReceived(setup: Setup, schedule: seq<Step>)
    ensures var d := Exec(setup, schedule).dispatcher; d.Checked? ==> Happened(setup, schedule, Check(d.id, d.parsed))
  {
    if schedule != [] {
      CheckedIsReceived(setup, schedule[..|schedule| - 1]);
    }
  }

  lemma {:induction false} StoredIsReceived(setup: Setup, schedule: seq<Step>, id: string, p: Params)
    requires StoredBy(setup, schedule, id, p)
    ensures Happened(setup, schedule, Check(id, Some(p)))
  {
    var before := schedule[..|schedule| - 1];
    if StoredBy(setup, before, id, p) {
      StoredIsReceived(setup, before, id, p);
    } else {
      CheckedIsReceived(setup, before);
    }
  }

  // The fields come from p, and so does every successful answer, which carries this id.
  ghost predicate From(setup: Setup, s: State, id: string, p: Params) {
    && s.done && FieldsOf(setup, s, p)
    && (s.dispatcher.Replying? ==> s.dispatcher.id == id)
    && forall i | 0 <= i < |s.log| && s.log[i].Initialized? :: s.log[i].id == id
  }

  lemma FieldsNext(setup: Setup, s: State, st: Step, p: Params)
    requires DispatcherOk(s) && s.done && Enabled(s, st) && FieldsOf(setup, s, p)
    ensures FieldsOf(setup, Apply(setup, s, st), p) && Apply(setup, s, st).done
  {
    var log := Apply(setup, s, st).log;
    assert forall i | 0 <= i < |s.log| :: log[i] == s.log[i];
  }

  lemma IdNext(setup: Setup, s: State, st: Step, id: string)
    requires s.done && !s.dispatcher.Checked? && Enabled(s, st)
    requires (s.dispatcher.Replying? ==> s.dispatcher.id == id)
    requires forall i | 0 <= i < |s.log| && s.log[i].Initialized? :: s.log[i].id == id
    ensures var s' := Apply(setup, s, st);
            && (s'.dispatcher.Replying? ==> s'.dispatcher.id == id)
            && forall i | 0 <= i < |s'.log| && s'.log[i].Initialized? :: s'.log[i].id == id
  {
    var log := Apply(setup, s, st).log;
    assert forall i | 0 <= i < |s.log| :: log[i] == s.log[i];
  }

  lemma FromNext(setup: Setup, s: State, st: Step, id: string, p: Params)
    requires DispatcherOk(s) && Enabled(s, st) && From(setup, s, id, p)
    ensures From(setup, Apply(setup, s, st), id, p)
  {
    FieldsNext(setup, s, st, p);
    IdNext(setup, s, st, id);
  }

  lemma StoreIsFrom(setup: Setup, s: State, id: string, p: Params)
    requires Inv(setup, s) && s.dispatcher == Checked(id, Some(p))
    ensures From(setup, Apply(setup, s, Store), id, p)
  {
    assert forall i | 0 <= i < |s.log| :: !s.log[i].Initialized?;
  }

  lemma {:induction false} StoredFrom(setup: Setup, schedule: seq<Step>, id: string, p: Params)
    requires StoredBy(setup, schedule, id, p)
    ensures From(setup, Exec(setup, schedule), id, p)
  {
    var before, st := schedule[..|schedule| - 1], schedule[|schedule| - 1];
    var s := Exec(setup, before);
    Invariant(setup, before);
    if StoredBy(setup, before, id, p) {
      StoredFrom(setup, before, id, p);
      if Enabled(s, st) {
        FromNext(setup, s, st, id, p);
      }
    } else {
      StoreIsFrom(setup, s, id, p);
    }
  }

  lemma {:induction false} DoneIsStored(setup: Setup, schedule: seq<Step>) returns (id: string, p: Params)
    requires Exec(setup, schedule).done
    ensures StoredBy(setup, schedule, id, p)
  {
    var before, st := schedule[..|schedule| - 1], schedule[|schedule| - 1];
    if Exec(setup, before).done {
      id, p := DoneIsStored(setup, before);
    } else {
      id, p := Exec(setup, before).dispatcher.id, Exec(setup, before).dispatcher.parsed.value;
    }
  }

  // ---------------------------------------------------------------------------------------------
  // What is stored and answered
  // ---------------------------------------------------------------------------------------------

  predicate Asks(p: Params) {
    p.caps.Some? && p.caps.value.question == Some(true)
  }

  // Version, capabilities and hooks in force, in terms of the client's parameters.
  ghost predicate InForce(setup: Setup, s: State, p: Params) {
    && s.version == Versions.Negotiated(p.version)
    && (p.caps.Some? ==> s.caps == p.caps.value) && (p.caps.None? ==> s.caps == Caps(None, None))
    && s.question == (if Asks(p) then Some(true) else None)
    && forall id, h :: id in s.hooks && s.hooks[id] == h <==>
         exists i: nat :: LastUsable(setup.hooks, p.hooks, id, i)
             && h.id == id && h.event == p.hooks[i].event && h.matcher == p.hooks[i].matcher
             && h.timeout == p.hooks[i].timeout
  }

  // The tools at these positions, in order, are exactly those that are valid, or exactly those that are not.
  ghost predicate Picks(validate: Tool -> Option<string>, tools: seq<Tool>, picked: seq<nat>, valid: bool) {
    && (forall i, j | 0 <= i < j < |picked| :: picked[i] < picked[j])
    && (forall n: nat :: n in picked <==> n < |tools| && validate(tools[n]).None? == valid)
  }

  ghost predicate ToolsRight(validate: Tool -> Option<string>, tools: seq<Tool>, r: ToolsResult) {
    && (exists picked ::
          && Picks(validate, tools, picked, true) && |picked| == |r.accepted|
          && forall i | 0 <= i < |picked| :: picked[i] < |tools| && r.accepted[i] == tools[picked[i]].name)
    && (exists picked ::
          && Picks(validate, tools, picked, false) && |picked| == |r.rejected|
          && forall i | 0 <= i < |picked| :: RejectedAs(validate, tools, picked[i], r.rejected[i]))
  }

  predicate RejectedAs(validate: Tool -> Option<string>, tools: seq<Tool>, n: nat, r: Rejected) {
    n < |tools| && r.name == tools[n].name && validate(tools[n]) == Some(r.reason)
  }

  lemma PicksMore(validate: Tool -> Option<string>, tools: seq<Tool>, t: Tool, picked: seq<nat>, valid: bool)
    requires Picks(validate, tools, picked, valid)
    ensures Picks(validate, tools + [t], picked + if validate(t).None? == valid then [|tools|] else [], valid)
  {
    var all := tools + [t];
    assert forall n: nat | n < |tools| :: all[n] == tools[n];
    assert forall i | 0 <= i < |picked| :: picked[i] in picked;
    assert picked + [] == picked;
  }

  lemma {:induction false} AcceptedAre(validate: Tool -> Option<string>, tools: seq<Tool>) returns (picked: seq<nat>)
    ensures Picks(validate, tools, picked, true) && |picked| == |Accepted(validate, tools)|
    ensures forall i | 0 <= i < |picked| ::
              picked[i] < |tools| && Accepted(validate, tools)[i] == tools[picked[i]].name
  {
    if tools == [] {
      picked := [];
    } else {
      var before, t := tools[..|tools| - 1], tools[|tools| - 1];
      picked := AcceptedAre(validate, before);
      PicksMore(validate, before, t, picked, true);
      assert tools == before + [t];
      picked := picked + if validate(t).None? then [|before|] else [];
    }
  }

  lemma {:induction false} RefusedAre(validate: Tool -> Option<string>, tools: seq<Tool>) returns (picked: seq<nat>)
    ensures Picks(validate, tools, picked, false) && |picked| == |Refusals(validate, tools)|
    ensures forall i | 0 <= i < |picked| :: RejectedAs(validate, tools, picked[i], Refusals(validate, tools)[i])
  {
    if tools == [] {
      picked := [];
    } else {
      var before, t := tools[..|tools| - 1], tools[|tools| - 1];
      picked := RefusedAre(validate, before);
      PicksMore(validate, before, t, picked, false);
      assert tools == before + [t];
      picked := picked + if validate(t).Some? then [|before|] else [];
    }
  }

  lemma ToolsAreRight(validate: Tool -> Option<string>, tools: seq<Tool>)
    ensures ToolsRight(validate, tools, ToolsResult(Accepted(validate, tools), Refusals(validate, tools)))
  {
    var a := AcceptedAre(validate, tools);
    var r := RefusedAre(validate, tools);
  }

  // The answer tells what is in force, and the rest of it is as the options and the tools say.
  ghost predicate AnswerRight(setup: Setup, s: State, p: Params, r: InitResult) {
    && r.version == s.version && r.question == s.question
    && r.info == setup.info && r.slashCommands == setup.slashCommands
    && (r.tools.None? <==> p.tools == []) && (r.tools.Some? ==> ToolsRight(setup.validate, p.tools, r.tools.value))
    && (r.hooks.Some? <==> setup.hooks.supported != [])
    && (r.hooks.Some? ==>
          && r.hooks.value.supported == setup.hooks.supported
          && forall event :: HookReported(setup.hooks, p.hooks, event, r.hooks.value.configured))
  }

  ghost predicate HookReported(cfg: Config, subs: seq<Sub>, event: string, configured: map<string, nat>) {
    && (event in configured <==> UsableFor(cfg, subs, event) != {})
    && (event in configured ==> configured[event] == |UsableFor(cfg, subs, event)| % 0x1_0000_0000)
  }

  lemma HooksAreRight(cfg: Config, subs: seq<Sub>)
    ensures forall event :: HookReported(cfg, subs, event, Configured(cfg, subs))
    ensures cfg.supported == [] ==> Configured(cfg, subs) == map[]
  {
    var configured := Configured(cfg, subs);
    forall event ensures HookReported(cfg, subs, event, configured) {
      ReportedExactly(cfg, subs, event);
    }
    if cfg.supported == [] {
      forall event ensures event !in configured {
        ConfiguredExactly(cfg, subs, event);
      }
    }
  }

  lemma ResultIsRight(setup: Setup, s: State, p: Params)
    requires s.version == Versions.Negotiated(p.version) && s.question == ServerQuestion(p)
    ensures AnswerRight(setup, s, p, ResultOf(setup, p))
  {
    ToolsAreRight(setup.validate, p.tools);
    HooksAreRight(setup.hooks, p.hooks);
  }

  lemma FieldsInForce(setup: Setup, s: State, p: Params)
    requires FieldsOf(setup, s, p)
    ensures InForce(setup, s, p)
  {
    forall id, h
      ensures id in s.hooks && s.hooks[id] == h <==>
              exists i: nat :: LastUsable(setup.hooks, p.hooks, id, i)
                  && h.id == id && h.event == p.hooks[i].event && h.matcher == p.hooks[i].matcher
                  && h.timeout == p.hooks[i].timeout
    {
      StoredExactly(setup.hooks, p.hooks, id, h);
    }
  }

  // Once the handshake is done, what is in force is what the initialize that was stored asked for, and every
  // successful answer is to that initialize and tells just this.
  lemma {:induction false} ConfiguredFrom(setup: Setup, schedule: seq<Step>)
    requires Exec(setup, schedule).done
    ensures exists id, p ::
              var s := Exec(setup, schedule);
              && StoredBy(setup, schedule, id, p) && Happened(setup, schedule, Check(id, Some(p)))
              && InForce(setup, s, p)
              && forall i | 0 <= i < |s.log| && s.log[i].Initialized? ::
                   s.log[i].id == id && AnswerRight(setup, s, p, s.log[i].result)
  {
    var s := Exec(setup, schedule);
    var id, p := DoneIsStored(setup, schedule);
    StoredFrom(setup, schedule, id, p);
    StoredIsReceived(setup, schedule, id, p);
    FieldsInForce(setup, s, p);
    ResultIsRight(setup, s, p);
  }

  // ---------------------------------------------------------------------------------------------
  // Every initialize is answered
  // ---------------------------------------------------------------------------------------------

  // The ids of the initializes received, in order.
  ghost function Received(setup: Setup, schedule: seq<Step>): seq<string> {
    if schedule == [] then []
    else
      var before, st := schedule[..|schedule| - 1], schedule[|schedule| - 1];
      Received(setup, before) + if st.Check? && Enabled(Exec(setup, before), st) then [st.id] else []
  }

  predicate IsAnswer(e: Entry) {
    e.AlreadyCalled? || e.InvalidParams? || e.Initialized?
  }

  // The ids of the answers, in order.
  function AnsweredIds(log: seq<Entry>): seq<string> {
    if log == [] then []
    else AnsweredIds(log[..|log| - 1]) + if IsAnswer(log[|log| - 1]) then [log[|log| - 1].id] else []
  }

  function InHand(d: Dispatcher): seq<string> {
    match d
    case Idle => []
    case Checked(id, _) => [id]
    case Replying(id, _) => [id]
  }

  lemma AnsweredNext(log: seq<Entry>, e: Entry)
    ensures AnsweredIds(log + [e]) == AnsweredIds(log) + if IsAnswer(e) then [e.id] else []
  {
    assert (log + [e])[..|log|] == log;
  }

  lemma AnswersNext(setup: Setup, s: State, st: Step)
    requires Enabled(s, st)
    ensures var s' := Apply(setup, s, st);
            AnsweredIds(s'.log) + InHand(s'.dispatcher) ==
            AnsweredIds(s.log) + InHand(s.dispatcher) + if st.Check? then [st.id] else []
  {
    var log := Apply(setup, s, st).log;
    assert log == s.log || (|log| == |s.log| + 1 && log == s.log + [log[|s.log|]]);
    if log != s.log {
      AnsweredNext(s.log, log[|s.log|]);
    }
  }

  // Each initialize is answered once, in order and with its own id, but for the one in hand.
  lemma {:induction false} AnsweredExactly(setup: Setup, schedule: seq<Step>)
    ensures var s := Exec(setup, schedule);
            Received(setup, schedule) == AnsweredIds(s.log) + InHand(s.dispatcher)
  {
    if schedule != [] {
      AnsweredExactly(setup, schedule[..|schedule| - 1]);
      var s, st := Exec(setup, schedule[..|schedule| - 1]), schedule[|schedule| - 1];
      if Enabled(s, st) {
        AnswersNext(setup, s, st);
      }
    }
  }

  // It is refused exactly if its parameters do not parse; otherwise it is stored and then answered.
  lemma StoreExactly(setup: Setup, schedule: seq<Step>)
    requires Exec(setup, schedule).dispatcher.Checked?
    ensures var s := Exec(setup, schedule); var s' := Apply(setup, s, Store); var id := s.dispatcher.id;
            && (s'.log == s.log + [InvalidParams(id)] <==> s.dispatcher.parsed.None?)
            && (s'.done <==> s.dispatcher.parsed.Some?)
            && (s.dispatcher.parsed.Some? ==> s'.log == s.log && s'.dispatcher.Replying? && s'.dispatcher.id == id)
  {
    Invariant(setup, schedule);
    var s := Exec(setup, schedule);
    assert |s.log + [InvalidParams(s.dispatcher.id)]| == |s.log| + 1;
  }

  // ---------------------------------------------------------------------------------------------
  // Questions and hook requests
  // ---------------------------------------------------------------------------------------------

  // Call c asked a question, when the client supported questions or not.
  ghost predicate AskedWhen(setup: Setup, schedule: seq<Step>, c: nat, supported: bool) {
    && schedule != []
    && var before, st := schedule[..|schedule| - 1], schedule[|schedule| - 1]; var s := Exec(setup, before);
       || AskedWhen(setup, before, c, supported)
       || (st.Ask? && |s.calls| == c && (s.caps.question == Some(true)) == supported)
  }

  lemma CallNext(setup: Setup, s: State, st: Step, c: nat)
    requires Enabled(s, st) && c < |s.calls|
    ensures var k, k' := s.calls[c], Apply(setup, s, st).calls[c];
            && (k'.Refused? <==> k.Refused?) && (k'.Asking? <==> k.Asking?)
            && (k' == Asking(true) <==> k == Asking(true) || st == SendQuestion(c))
            && (k'.Hooking? && k'.sent <==> (k.Hooking? && k.sent) || st == SendHook(c))
  {
  }

  // A question is refused exactly if the client did not support questions when it was asked.
  lemma {:induction false} AskedExactly(setup: Setup, schedule: seq<Step>, c: nat)
    ensures var s := Exec(setup, schedule);
            && (c < |s.calls| && s.calls[c].Refused? <==> AskedWhen(setup, schedule, c, false))
            && (c < |s.calls| && s.calls[c].Asking? <==> AskedWhen(setup, schedule, c, true))
  {
    if schedule != [] {
      var before, st := schedule[..|schedule| - 1], schedule[|schedule| - 1];
      AskedExactly(setup, before, c);
      if Enabled(Exec(setup, before), st) && c < |Exec(setup, before).calls| {
        CallNext(setup, Exec(setup, before), st, c);
      }
    }
  }

  // The requests of call c among what was written.
  function RequestsOf(log: seq<Entry>, c: nat): nat {
    if log == [] then 0
    else
      var e := log[|log| - 1];
      RequestsOf(log[..|log| - 1], c) + if (e.Question? || e.HookRequest?) && e.call == c then 1 else 0
  }

  predicate HasSent(s: State, c: nat) {
    c < |s.calls| && (s.calls[c] == Asking(true) || (s.calls[c].Hooking? && s.calls[c].sent))
  }

  lemma RequestsNext(log: seq<Entry>, e: Entry, c: nat)
    ensures RequestsOf(log + [e], c) ==
            RequestsOf(log, c) + if (e.Question? || e.HookRequest?) && e.call == c then 1 else 0
  {
    assert (log + [e])[..|log|] == log;
  }

  lemma SendsNext(setup: Setup, s: State, st: Step, c: nat)
    requires Enabled(s, st) && RequestsOf(s.log, c) == if HasSent(s, c) then 1 else 0
    ensures var s' := Apply(setup, s, st); RequestsOf(s'.log, c) == if HasSent(s', c) then 1 else 0
    ensures HasSent(Apply(setup, s, st), c) <==> HasSent(s, c) || st == SendQuestion(c) || st == SendHook(c)
  {
    var log := Apply(setup, s, st).log;
    assert log == s.log || (|log| == |s.log| + 1 && log == s.log + [log[|s.log|]]);
    if log != s.log {
      RequestsNext(s.log, log[|s.log|], c);
    }
    if c < |s.calls| {
      CallNext(setup, s, st, c);
    }
  }

  // A call writes its one request exactly when it takes the step that sends it.
  lemma {:induction false} SentExactly(setup: Setup, schedule: seq<Step>, c: nat)
    ensures RequestsOf(Exec(setup, schedule).log, c) ==
            if Happened(setup, schedule, SendQuestion(c)) || Happened(setup, schedule, SendHook(c)) then 1 else 0
  {
    SendHistory(setup, schedule, c);
  }

  lemma {:induction false} SendHistory(setup: Setup, schedule: seq<Step>, c: nat)
    ensures var s := Exec(setup, schedule);
            && RequestsOf(s.log, c) == (if HasSent(s, c) then 1 else 0)
            && (HasSent(s, c) <==> Happened(setup, schedule, SendQuestion(c)) || Happened(setup, schedule, SendHook(c)))
  {
    if schedule != [] {
      SendHistory(setup, schedule[..|schedule| - 1], c);
      var s, st := Exec(setup, schedule[..|schedule| - 1]), schedule[|schedule| - 1];
      if Enabled(s, st) {
        SendsNext(setup, s, st, c);
      }
    }
  }

  // A hook request goes to a usable subscription of the client, the last one with its id, that is for the event
  // that was triggered and whose matcher, if it has one, matches the target.
  lemma {:induction false} HookRequestExactly(setup: Setup, schedule: seq<Step>, n: nat)
    requires var s := Exec(setup, schedule); n < |s.log| && s.log[n].HookRequest?
    ensures exists id, p, i: nat ::
              var s := Exec(setup, schedule); var e := s.log[n];
              && StoredBy(setup, schedule, id, p) && LastUsable(setup.hooks, p.hooks, e.subscription, i)
              && e.call < |s.calls| && s.calls[e.call].Hooking?
              && p.hooks[i].event == s.calls[e.call].event
              && (p.hooks[i].matcher != "" ==> setup.hooks.matches(p.hooks[i].matcher, s.calls[e.call].target))
  {
    OnlyWhatWasAskedFor(setup, schedule, n);
    var s := Exec(setup, schedule);
    var e := s.log[n];
    var id, p := DoneIsStored(setup, schedule);
    StoredFrom(setup, schedule, id, p);
    FieldsInForce(setup, s, p);
    FitsExactly(setup.hooks, s.hooks[e.subscription], s.calls[e.call].event, s.calls[e.call].target);
    var i: nat :| LastUsable(setup.hooks, p.hooks, e.subscription, i)
      && s.hooks[e.subscription].event == p.hooks[i].event && s.hooks[e.subscription].matcher == p.hooks[i].matcher;
  }
}
