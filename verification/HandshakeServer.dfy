// The handshake fields of the server as an object: the sections of handleInitialize, AskQuestion and
// TriggerHook change them in place.
module HandshakeServer {
  import opened Wrappers
  import opened Hooks
  import opened Handshake
  import Versions

  class Configuration {
    const setup: Setup
    var handshakeDone: bool
    var negotiated: string
    var clientCaps: Caps
    var serverQuestion: Option<bool>
    var hooks: map<string, Hook>
    var dispatcher: Dispatcher
    var calls: seq<Call>
    ghost var log: seq<Entry>

    ghost function View(): State
      reads this
    {
      State(handshakeDone, negotiated, clientCaps, serverQuestion, hooks, dispatcher, calls, log)
    }

    ghost predicate Valid()
      reads this
    {
      Inv(setup, View())
    }

    constructor (setup: Setup)
      ensures this.setup == setup && View() == Init() && Valid()
    {
      this.setup := setup;
      handshakeDone, negotiated, clientCaps, serverQuestion := false, Versions.LEGACY, Caps(None, None), None;
      hooks, dispatcher, calls, log := map[], Idle, [], [];
    }

    method CheckHandshake(id: string, params: Option<Params>)
      requires dispatcher.Idle?
      modifies this
      ensures View() == Apply(setup, old(View()), Check(id, params))
    {
      if handshakeDone {
        log := log + [AlreadyCalled(id)];
      } else {
        dispatcher := Checked(id, params);
      }
    }

    // From the parsed parameters to the second locked section.
    method StoreHandshake()
      requires dispatcher.Checked?
      modifies this
      ensures View() == Apply(setup, old(View()), Store)
    {
      var id := dispatcher.id;
      match dispatcher.parsed
      case None =>
        dispatcher := Idle;
        log := log + [InvalidParams(id)];
      case Some(p) =>
        var version := Versions.NegotiateVersion(p.version);
        var caps, question := ReadCapabilities(p);
        var stored, _ := Configure(setup.hooks, p.hooks);
        handshakeDone, negotiated, clientCaps, serverQuestion, hooks := true, version, caps, question, stored;
        dispatcher := Replying(id, p);
    }

    method ReadCapabilities(p: Params) returns (clientCaps: Caps, question: Option<bool>)
      ensures clientCaps == ClientCaps(p) && question == ServerQuestion(p)
    {
      clientCaps, question := Caps(None, None), None;
      if p.caps.Some? {
        clientCaps := p.caps.value;
        if p.caps.value.question.Some? && p.caps.value.question.value {
          question := Some(true);
        }
      }
    }

    // The loop over the client's tools.
    method SortTools(tools: seq<Tool>) returns (accepted: seq<string>, rejected: seq<Rejected>)
      ensures accepted == Accepted(setup.validate, tools) && rejected == Refusals(setup.validate, tools)
      ensures |accepted| + |rejected| == |tools|
    {
      accepted, rejected := [], [];
      var i := 0;
      while i < |tools|
        invariant i <= |tools| && |accepted| + |rejected| == i
        invariant accepted == Accepted(setup.validate, tools[..i]) && rejected == Refusals(setup.validate, tools[..i])
      {
        assert tools[..i + 1][..i] == tools[..i];
        var err := setup.validate(tools[i]);
        if err.Some? {
          rejected := rejected + [Rejected(tools[i].name, err.value)];
        } else {
          accepted := accepted + [tools[i].name];
        }
        i := i + 1;
      }
      assert tools[..i] == tools;
    }

    method ReplyHandshake() returns (result: InitResult)
      requires dispatcher.Replying?
      modifies this
      ensures result == ResultOf(setup, old(dispatcher.params)) && View() == Apply(setup, old(View()), Reply)
    {
      var id, p := dispatcher.id, dispatcher.params;
      var version := Versions.NegotiateVersion(p.version);
      var accepted, rejected := SortTools(p.tools);
      var _, configured := Configure(setup.hooks, p.hooks);
      result := InitResult(version, setup.info, setup.slashCommands, ServerQuestion(p), None, None);
      if |p.tools| > 0 {
        result := result.(tools := Some(ToolsResult(accepted, rejected)));
      }
      if setup.hooks.supported != [] || configured != map[] {
        result := result.(hooks := Some(HooksInfo(setup.hooks.supported, configured)));
      }
      dispatcher := Idle;
      log := log + [Initialized(id, result)];
    }

    method AskQuestion() returns (supported: bool)
      modifies this
      ensures View() == Apply(setup, old(View()), Ask) && supported == (clientCaps.question == Some(true))
    {
      supported := clientCaps.question.Some? && clientCaps.question.value;
      calls := calls + [if supported then Asking(false) else Refused];
    }

    method SendQuestionRequest(c: nat)
      requires Enabled(View(), SendQuestion(c))
      modifies this
      ensures View() == Apply(setup, old(View()), SendQuestion(c))
    {
      calls := calls[c := Asking(true)];
      log := log + [Question(c)];
    }

    // order is the order in which the map of subscriptions is iterated.
    method TriggerHook(event: string, target: string, order: seq<string>) returns (choice: Choice)
      requires IsOrder(hooks, order)
      modifies this
      ensures View() == Apply(setup, old(View()), Trigger(event, target, order))
      ensures choice.Chosen? <==> AnyFits(setup.hooks, old(hooks), event, target)
    {
      choice := ChooseHook(setup.hooks, hooks, order, event, target);
      calls := calls + [Hooking(event, target, choice, false)];
    }

    method SendHookRequest(c: nat)
      requires Enabled(View(), SendHook(c))
      modifies this
      ensures View() == Apply(setup, old(View()), SendHook(c))
    {
      log := log + [HookRequest(c, calls[c].choice.hook.id)];
      calls := calls[c := calls[c].(sent := true)];
    }

    method Do(st: Step)
      requires Valid() && Enabled(View(), st)
      modifies this
      ensures Valid() && View() == Apply(setup, old(View()), st)
    {
      StepKeeps(setup, View(), st);
      match st
      case Check(id, params) => CheckHandshake(id, params);
      case Store => StoreHandshake();
      case Reply => var _ := ReplyHandshake();
      case Ask => var _ := AskQuestion();
      case SendQuestion(c) => SendQuestionRequest(c);
      case Trigger(event, target, order) => var _ := TriggerHook(event, target, order);
      case SendHook(c) => SendHookRequest(c);
    }

    // Whether the goroutine can take the step now.
    method IsReady(st: Step) returns (ready: bool)
      ensures ready == Enabled(View(), st)
    {
      match st
      case Check(_, _) => return dispatcher.Idle?;
      case Store => return dispatcher.Checked?;
      case Reply => return dispatcher.Replying?;
      case Ask => return true;
      case SendQuestion(c) => return c < |calls| && calls[c] == Asking(false);
      case Trigger(_, _, order) => return IsOrder(hooks, order);
      case SendHook(c) => return c < |calls| && calls[c].Hooking? && calls[c].choice.Chosen? && !calls[c].sent;
    }

    // Any schedule, from the start. No question or hook request goes out that was not asked for, and one
    // initialize succeeds at most.
    method Run(schedule: seq<Step>)
      requires Valid() && View() == Init()
      modifies this
      ensures Valid() && View() == Exec(setup, schedule)
      ensures forall i | 0 <= i < |log| && log[i].Question? :: handshakeDone && clientCaps.question == Some(true)
      ensures forall i | 0 <= i < |log| && log[i].HookRequest? :: handshakeDone && log[i].subscription in hooks
      ensures forall i, j | 0 <= i < j < |log| && log[i].Initialized? :: !log[j].Initialized?
    {
      for n := 0 to |schedule|
        invariant Valid() && View() == Exec(setup, schedule[..n])
      {
        assert schedule[..n + 1][..n] == schedule[..n];
        var ready := IsReady(schedule[n]);
        if ready {
          Do(schedule[n]);
        }
      }
      assert schedule[..|schedule|] == schedule;
      OneInitialize(setup, schedule);
      forall i: nat | i < |log|
        ensures log[i].Question? ==> handshakeDone && clientCaps.question == Some(true)
        ensures log[i].HookRequest? ==> handshakeDone && log[i].subscription in hooks
      {
        OnlyWhatWasAskedFor(setup, schedule, i);
      }
    }
  }
}
