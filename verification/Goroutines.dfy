// The goroutines of the server together: the read loop, Serve, the dispatch loop and the agents' calls.
// What an agent does in SteerInput and sendRequestAndWait, and what the read loop holds while dispatchCh
// is full, decides which steps of the turn machine and of the request table can be taken.
module Goroutines {
  import opened Wrappers
  import opened Turns
  import opened TurnsSteps
  import TI = TurnsInvariant
  import R = Requests
  import RH = RequestHistory

  // What the agent call of an operation is doing. A request is bound if the agent passes a context that
  // follows the turn's.
  datatype AgentWait = Computing | InSteerInput | InRequest(call: nat, bound: bool)

  datatype Reader = Reading | Holding(m: Msg)

  datatype System = System(
    turns: State,
    requests: R.State,
    agents: map<nat, AgentWait>,   // an operation that is not listed is computing
    reader: Reader)

  function AtStart(steerer: bool, replayer: bool): System {
    System(Init(steerer, replayer), R.Init(), map[], Reading)
  }

  function Agent(y: System, i: nat): AgentWait {
    if i in y.agents then y.agents[i] else Computing
  }

  datatype Action =
    | ReadMessage(m: Msg)                       // readLoop has read a message with a method ...
    | SendMessage                               // ... and its select sends it to dispatchCh ...
    | DropMessage                               // ... or takes the cancelled context
    | ReadResponse(id: string)
    | EndRouting(drop: bool)                    // the select of routeResponse
    | EndReading                                // ReadLine has failed
    | EndServing                                // serveCtx is cancelled, by Serve or by its caller
    | ClosePending
    | NotifyPending(call: nat)
    | TurnStep(st: Step)
    | EnterSteerInput(op: nat)
    | LeaveSteerInput(op: nat)                  // the turn's context is cancelled
    | SteerInputTimesOut(op: nat)               // the agent's own context is
    | EnterRequest(op: nat, bound: bool)        // sendRequestAndWait, up to its id
    | RequestStep(op: nat)                      // its next section
    | AbandonRequest(op: nat)                   // serveCtx or, if it is bound, the turn's context is cancelled
    | RequestTimesOut(op: nat)                  // the agent's own context is
    | FailWrite(op: nat)
    | LeaveRequest(op: nat)

  // The section call c runs next, unless its write fails or a context is cancelled.
  function CallStep(c: nat, k: R.Call): R.Step {
    match k.phase
    case Issued => R.Register(c)
    case Registered => R.Written(c, true)
    case Waiting => R.Receive(c)
    case Leaving => R.Unregister(c)
    case Draining => R.Drain(c)
    case Returned => R.Drain(c)
  }

  // The step of the turn machine that is part of an action, if there is one ...
  function TurnPart(y: System, a: Action): Option<Step> {
    match a
    case SendMessage => if y.reader.Holding? then Some(Enqueue(y.reader.m)) else None
    case DropMessage => Some(ReaderExit)
    case EndReading => Some(ReaderExit)
    case EndServing => Some(CancelServe)
    case TurnStep(st) => Some(st)
    case _ => None
  }

  function CallPart(y: System, a: Action, c: nat): Option<R.Step> {
    if a.RequestStep? then if c < |y.requests.calls| then Some(CallStep(c, y.requests.calls[c])) else None
    else if a.FailWrite? then Some(R.Written(c, false))
    else Some(R.GiveUp(c))
  }

  predicate OfCall(a: Action) {
    a.RequestStep? || a.FailWrite? || a.AbandonRequest? || a.RequestTimesOut?
  }

  // ... and that of the request table.
  function RequestPart(y: System, a: Action): Option<R.Step> {
    match a
    case DropMessage => Some(R.ReaderExit)
    case ReadResponse(id) => Some(R.Route(id))
    case EndRouting(drop) => Some(if drop then R.Drop else R.Deliver)
    case EndReading => Some(R.ReaderExit)
    case EndServing => Some(R.CancelServe)
    case ClosePending => Some(R.ClosePending)
    case NotifyPending(c) => Some(R.Notify(c))
    case EnterRequest(_, _) => Some(R.Issue)
    case _ => if OfCall(a) && Agent(y, a.op).InRequest? then CallPart(y, a, Agent(y, a.op).call) else None
  }

  // Only a turn's agent is given the methods of Turn, and only while its call runs.
  predicate CanCall(y: System, i: nat) {
    Next(y.turns, i, Turn, Running) && Agent(y, i).Computing?
  }

  predicate AgentFree(y: System, st: Step) {
    match st
    case AgentEmit(i) => Agent(y, i).Computing?
    case AgentReturn(i, _) => Agent(y, i).Computing?
    case TakeSteer(i) => Agent(y, i).InSteerInput?
    case _ => !OfServe(st)
  }

  predicate CallIn(y: System, i: nat, p: R.Phase) {
    Agent(y, i).InRequest? && R.InPhase(y.requests, Agent(y, i).call, p)
  }

  // What an action needs beside the guards of its parts.
  predicate Guard(y: System, a: Action) {
    match a
    case ReadMessage(_) => y.reader.Reading? && y.requests.hand.Free? && !y.turns.readDone
    case SendMessage => y.reader.Holding?
    case DropMessage => y.reader.Holding? && y.turns.ctxDone
    case ReadResponse(_) => y.reader.Reading?
    case EndReading => y.reader.Reading?
    case TurnStep(st) => AgentFree(y, st)
    case EnterSteerInput(i) => CanCall(y, i)
    case LeaveSteerInput(i) =>
      Agent(y, i).InSteerInput? && i < |y.turns.ops| && (y.turns.ctxDone || y.turns.ops[i].ctxDone)
    case SteerInputTimesOut(i) => Agent(y, i).InSteerInput?
    case EnterRequest(i, _) => CanCall(y, i)
    case RequestStep(i) => Agent(y, i).InRequest? && !CallIn(y, i, R.Returned)
    case FailWrite(i) => Agent(y, i).InRequest?
    case AbandonRequest(i) =>
      && Agent(y, i).InRequest? && i < |y.turns.ops|
      && (y.turns.ctxDone || (Agent(y, i).bound && y.turns.ops[i].ctxDone))
    case RequestTimesOut(i) => Agent(y, i).InRequest?
    case LeaveRequest(i) => CallIn(y, i, R.Returned)
    case _ => true
  }

  predicate CanAct(y: System, a: Action) {
    && Guard(y, a)
    && (TurnPart(y, a).Some? ==> Enabled(y.turns, TurnPart(y, a).value))
    && (RequestPart(y, a).Some? ==> R.Enabled(y.requests, RequestPart(y, a).value))
    && (OfCall(a) ==> RequestPart(y, a).Some?)
  }

  function AgentsAfter(y: System, a: Action): map<nat, AgentWait> {
    match a
    case TurnStep(st) => if st.TakeSteer? then y.agents[st.op := Computing] else y.agents
    case EnterSteerInput(i) => y.agents[i := InSteerInput]
    case LeaveSteerInput(i) => y.agents[i := Computing]
    case SteerInputTimesOut(i) => y.agents[i := Computing]
    case EnterRequest(i, bound) => y.agents[i := InRequest(|y.requests.calls|, bound)]
    case LeaveRequest(i) => y.agents[i := Computing]
    case _ => y.agents
  }

  function ReaderAfter(y: System, a: Action): Reader {
    match a
    case ReadMessage(m) => Holding(m)
    case SendMessage => Reading
    case DropMessage => Reading
    case _ => y.reader
  }

  function TurnsAfter(s: State, part: Option<Step>): State
    requires part.Some? ==> Enabled(s, part.value)
  {
    if part.Some? then Apply(s, part.value) else s
  }

  function RequestsAfter(s: R.State, part: Option<R.Step>): R.State
    requires part.Some? ==> R.Enabled(s, part.value)
  {
    if part.Some? then R.Apply(s, part.value) else s
  }

  function Act(y: System, a: Action): System
    requires CanAct(y, a)
  {
    System(TurnsAfter(y.turns, TurnPart(y, a)), RequestsAfter(y.requests, RequestPart(y, a)), AgentsAfter(y, a),
           ReaderAfter(y, a))
  }

  function Run(steerer: bool, replayer: bool, actions: seq<Action>): System {
    if actions == [] then AtStart(steerer, replayer)
    else
      var y := Run(steerer, replayer, actions[..|actions| - 1]);
      var a := actions[|actions| - 1];
      if CanAct(y, a) then Act(y, a) else y
  }

  lemma {:induction false} RunNext(steerer: bool, replayer: bool, before: seq<Action>, a: Action)
    ensures var y := Run(steerer, replayer, before);
            Run(steerer, replayer, before + [a]) == if CanAct(y, a) then Act(y, a) else y
  {
    assert (before + [a])[..|before|] == before;
  }

  // The step of the turn machine was part of an action that was taken ...
  ghost predicate TookTurnStep(steerer: bool, replayer: bool, actions: seq<Action>, st: Step) {
    && actions != []
    && var before, a := actions[..|actions| - 1], actions[|actions| - 1]; var y := Run(steerer, replayer, before);
       TookTurnStep(steerer, replayer, before, st) || (CanAct(y, a) && TurnPart(y, a) == Some(st))
  }

  // ... and so was that of the request table.
  ghost predicate TookRequestStep(steerer: bool, replayer: bool, actions: seq<Action>, st: R.Step) {
    && actions != []
    && var before, a := actions[..|actions| - 1], actions[|actions| - 1]; var y := Run(steerer, replayer, before);
       TookRequestStep(steerer, replayer, before, st) || (CanAct(y, a) && RequestPart(y, a) == Some(st))
  }

  // The steps of both machines in a run.
  ghost predicate AreParts(
    steerer: bool, replayer: bool, actions: seq<Action>, steps: seq<Step>, requestSteps: seq<R.Step>)
  {
    var y := Run(steerer, replayer, actions);
    && y.turns == Exec(steerer, replayer, steps) && y.requests == R.Exec(requestSteps)
    && (forall st :: Happened(steerer, replayer, steps, st) <==> TookTurnStep(steerer, replayer, actions, st))
    && (forall st :: RH.Happened(requestSteps, st) <==> TookRequestStep(steerer, replayer, actions, st))
  }

  lemma {:induction false} TurnPartNext(steerer: bool, replayer: bool, steps: seq<Step>, part: Option<Step>)
    returns (all: seq<Step>)
    requires part.Some? ==> Enabled(Exec(steerer, replayer, steps), part.value)
    ensures Exec(steerer, replayer, all) == TurnsAfter(Exec(steerer, replayer, steps), part)
    ensures forall st :: Happened(steerer, replayer, all, st) <==>
                Happened(steerer, replayer, steps, st) || part == Some(st)
  {
    all := steps;
    if part.Some? {
      all := steps + [part.value];
      ExecNext(steerer, replayer, steps, part.value);
      forall st ensures Happened(steerer, replayer, all, st) <==>
          Happened(steerer, replayer, steps, st) || part == Some(st)
      {
        HappenedNext(steerer, replayer, steps, part.value, st);
      }
    }
  }

  lemma {:induction false} RequestPartNext(steps: seq<R.Step>, part: Option<R.Step>) returns (all: seq<R.Step>)
    requires part.Some? ==> R.Enabled(R.Exec(steps), part.value)
    ensures R.Exec(all) == RequestsAfter(R.Exec(steps), part)
    ensures forall st :: RH.Happened(all, st) <==> RH.Happened(steps, st) || part == Some(st)
  {
    all := steps;
    if part.Some? {
      all := steps + [part.value];
      R.ExecNext(steps, part.value);
      forall st ensures RH.Happened(all, st) <==> RH.Happened(steps, st) || part == Some(st) {
        RH.HappenedNext(steps, part.value, st);
      }
    }
  }

  // A run of the whole is a run of the turn machine and a run of the request table, of the steps that are
  // part of its actions; so the results about all runs of the two hold in it.
  lemma {:induction false} RunsOfBoth(steerer: bool, replayer: bool, actions: seq<Action>)
    returns (steps: seq<Step>, requestSteps: seq<R.Step>)
    ensures AreParts(steerer, replayer, actions, steps, requestSteps)
  {
    steps, requestSteps := [], [];
    if actions != [] {
      var before, a := actions[..|actions| - 1], actions[|actions| - 1];
      steps, requestSteps := RunsOfBoth(steerer, replayer, before);
      var y := Run(steerer, replayer, before);
      if CanAct(y, a) {
        steps := TurnPartNext(steerer, replayer, steps, TurnPart(y, a));
        requestSteps := RequestPartNext(requestSteps, RequestPart(y, a));
      }
    }
  }

  // The agent of an operation gave up request c, or its write failed.
  ghost predicate GaveUp(steerer: bool, replayer: bool, actions: seq<Action>, c: nat) {
    && actions != []
    && var before, a := actions[..|actions| - 1], actions[|actions| - 1]; var y := Run(steerer, replayer, before);
       || GaveUp(steerer, replayer, before, c)
       || (CanAct(y, a) && (a.AbandonRequest? || a.RequestTimesOut? || a.FailWrite?)
             && Agent(y, a.op).InRequest? && Agent(y, a.op).call == c)
  }

  lemma GivesUpExactly(y: System, a: Action, c: nat)
    ensures
        && CanAct(y, a)
        && (RequestPart(y, a) == Some(R.GiveUp(c)) || RequestPart(y, a) == Some(R.Written(c, false))) <==>
        && CanAct(y, a) && (a.AbandonRequest? || a.RequestTimesOut? || a.FailWrite?)
        && Agent(y, a.op).InRequest? && Agent(y, a.op).call == c
  {
  }

  lemma {:induction false} GaveUpExactly(steerer: bool, replayer: bool, actions: seq<Action>, c: nat)
    ensures GaveUp(steerer, replayer, actions, c) <==>
            || TookRequestStep(steerer, replayer, actions, R.GiveUp(c))
            || TookRequestStep(steerer, replayer, actions, R.Written(c, false))
  {
    if actions != [] {
      var before, a := actions[..|actions| - 1], actions[|actions| - 1];
      GaveUpExactly(steerer, replayer, before, c);
      GivesUpExactly(Run(steerer, replayer, before), a, c);
    }
  }

  // ---------------------------------------------------------------------------------------------
  // What ties the two machines, the agents and the reader together
  // ---------------------------------------------------------------------------------------------

  predicate AgentOk(ops: seq<Op>, calls: nat, i: nat, w: AgentWait) {
    && (!w.Computing? ==> i < |ops| && ops[i].kind.Turn? && ops[i].phase.Running?)
    && (w.InRequest? ==> w.call < calls)
  }

  ghost predicate OwnCalls(agents: map<nat, AgentWait>) {
    forall i, j | i in agents && j in agents && agents[i].InRequest? && agents[j].InRequest? ::
      agents[i].call == agents[j].call ==> i == j
  }

  ghost predicate AgentsOk(y: System) {
    && (forall i | i in y.agents :: AgentOk(y.turns.ops, |y.requests.calls|, i, y.agents[i]))
    && OwnCalls(y.agents)
  }

  predicate FlagsOk(y: System) {
    && y.turns.ctxDone == y.requests.ctxDone && y.turns.readDone == y.requests.readDone
    && (y.reader.Holding? ==> !y.turns.readDone && y.requests.hand.Free?)
  }

  ghost predicate SameFlags(s: State, s': State) {
    s'.ctxDone == s.ctxDone && s'.readDone == s.readDone
  }

  lemma MoverFlags(s: State, st: Step)
    requires Enabled(s, st) && (OfAgent(st) || OfTurnEnd(st) || OfReplayEnd(st))
    ensures SameFlags(s, Apply(s, st))
  {
  }

  lemma LoopFlags(s: State, st: Step)
    requires Enabled(s, st) && (OfLoop(st) || OfCancel(st) || OfSteer(st) || st.EmitBegin? || st.ClearActiveTurn?)
    ensures SameFlags(s, Apply(s, st))
  {
  }

  lemma TurnFlags(s: State, st: Step)
    requires Enabled(s, st)
    ensures Apply(s, st).ctxDone == (s.ctxDone || st.CancelServe?)
    ensures Apply(s, st).readDone == (s.readDone || st.ReaderExit?)
  {
    if st.RunHandler? {
      StartFlags(s, s.dispatcher.msg, st.inPlace);
    } else if OfAgent(st) || OfTurnEnd(st) || OfReplayEnd(st) {
      MoverFlags(s, st);
    } else if !OfServe(st) {
      LoopFlags(s, st);
    }
  }

  lemma StartFlags(s: State, k: nat, a: Answer)
    requires k < |s.accepted| && k < |s.owner|
    ensures SameFlags(s, Handle(s, k, a))
  {
  }

  lemma RequestFlags(s: R.State, st: R.Step)
    requires R.Enabled(s, st)
    ensures var s' := R.Apply(s, st);
            && s'.ctxDone == (s.ctxDone || st.CancelServe?) && s'.readDone == (s.readDone || st.ReaderExit?)
            && |s'.calls| == |s.calls| + (if st.Issue? then 1 else 0)
            && (s'.hand == s.hand || st.Route? || s.hand.Routing?)
  {
  }

  lemma FlagsKept(y: System, a: Action)
    requires FlagsOk(y) && CanAct(y, a)
    ensures FlagsOk(Act(y, a)) && |Act(y, a).requests.calls| >= |y.requests.calls|
  {
    if TurnPart(y, a).Some? {
      TurnFlags(y.turns, TurnPart(y, a).value);
    }
    if RequestPart(y, a).Some? {
      RequestFlags(y.requests, RequestPart(y, a).value);
    }
  }

  // Operation i runs before and after.
  ghost predicate RunsOn(s: State, s': State, i: nat) {
    i < |s.ops| && i < |s'.ops| && s'.ops[i].phase.Running? && s'.ops[i].kind == s.ops[i].kind
  }

  lemma StartRunsOn(s: State, k: nat, a: Answer, i: nat)
    requires k < |s.accepted| && k < |s.owner| && i < |s.ops| && s.ops[i].phase.Running?
    ensures RunsOn(s, Handle(s, k, a), i)
  {
  }

  lemma DispatcherRunsOn(s: State, st: Step, i: nat)
    requires Enabled(s, st) && i < |s.ops| && s.ops[i].phase.Running?
    requires OfServe(st) || OfLoop(st) || OfCancel(st) || OfSteer(st) || st.ClearActiveTurn?
    ensures RunsOn(s, Apply(s, st), i)
  {
    if !Loud(st) && !st.ClearActiveTurn? {
      CalmStep(s, st);
      assert SameButFlags(s.ops[i], Apply(s, st).ops[i]);
    }
  }

  // A running agent call goes on until it returns.
  lemma RunningStays(s: State, st: Step, i: nat)
    requires TI.Inv(s) && Enabled(s, st) && i < |s.ops| && s.ops[i].phase.Running?
    requires st.AgentReturn? ==> st.op != i
    ensures RunsOn(s, Apply(s, st), i)
  {
    if st.RunHandler? {
      StartRunsOn(s, s.dispatcher.msg, st.inPlace, i);
    } else if OfServe(st) || OfLoop(st) || OfCancel(st) || OfSteer(st) || st.ClearActiveTurn? {
      DispatcherRunsOn(s, st, i);
    } else {
      OpMoves(s, st, if st.EmitBegin? then s.dispatcher.op else st.op);
    }
  }

  lemma AgentKept(y: System, a: Action, i: nat)
    requires TI.Inv(y.turns) && FlagsOk(y) && AgentsOk(y) && CanAct(y, a) && i in Act(y, a).agents
    ensures var y' := Act(y, a); AgentOk(y'.turns.ops, |y'.requests.calls|, i, y'.agents[i])
  {
    FlagsKept(y, a);
    if a.EnterRequest? {
      RequestFlags(y.requests, R.Issue);
    }
    if TurnPart(y, a).Some? && !Agent(y, i).Computing? && !Act(y, a).agents[i].Computing? {
      RunningStays(y.turns, TurnPart(y, a).value, i);
    }
  }

  ghost predicate Inv(y: System) {
    TI.Inv(y.turns) && R.Inv(y.requests) && FlagsOk(y) && AgentsOk(y)
  }

  lemma CallsKept(y: System, a: Action)
    requires AgentsOk(y) && CanAct(y, a)
    ensures OwnCalls(Act(y, a).agents)
  {
    var agents := Act(y, a).agents;
    if a.EnterRequest? {
      forall j | j in y.agents && y.agents[j].InRequest? ensures y.agents[j].call < |y.requests.calls| {
        assert AgentOk(y.turns.ops, |y.requests.calls|, j, y.agents[j]);
      }
    }
  }

  lemma ActKeeps(y: System, a: Action)
    requires Inv(y) && CanAct(y, a)
    ensures Inv(Act(y, a))
  {
    if TurnPart(y, a).Some? {
      TI.StepKeeps(y.turns, TurnPart(y, a).value);
    }
    if RequestPart(y, a).Some? {
      R.StepKeeps(y.requests, RequestPart(y, a).value);
    }
    FlagsKept(y, a);
    CallsKept(y, a);
    forall i | i in Act(y, a).agents
      ensures var y' := Act(y, a); AgentOk(y'.turns.ops, |y'.requests.calls|, i, y'.agents[i])
    {
      AgentKept(y, a, i);
    }
  }

  lemma {:induction false} Invariant(steerer: bool, replayer: bool, actions: seq<Action>)
    ensures Inv(Run(steerer, replayer, actions))
  {
    if actions != [] {
      Invariant(steerer, replayer, actions[..|actions| - 1]);
      var y := Run(steerer, replayer, actions[..|actions| - 1]);
      if CanAct(y, actions[|actions| - 1]) {
        ActKeeps(y, actions[|actions| - 1]);
      }
    }
  }

  // ---------------------------------------------------------------------------------------------
  // Where the agents and the read loop are
  // ---------------------------------------------------------------------------------------------

  // The action takes the agent of operation i into a wait or out of it.
  predicate TurnsAgent(a: Action, i: nat) {
    || a == TurnStep(TakeSteer(i))
    || ((a.EnterSteerInput? || a.LeaveSteerInput? || a.SteerInputTimesOut? || a.EnterRequest? || a.LeaveRequest?)
          && a.op == i)
  }

  // The last such action.
  ghost function LastTurn(steerer: bool, replayer: bool, actions: seq<Action>, i: nat): Option<Action> {
    if actions == [] then None
    else
      var before, a := actions[..|actions| - 1], actions[|actions| - 1];
      if CanAct(Run(steerer, replayer, before), a) && TurnsAgent(a, i) then Some(a)
      else LastTurn(steerer, replayer, before, i)
  }

  // What the agent of operation i is doing after an action that takes it into a wait or out of it.
  predicate TurnsInto(a: Action, w: AgentWait) {
    match a
    case EnterSteerInput(_) => w.InSteerInput?
    case EnterRequest(_, bound) => w.InRequest? && w.bound == bound
    case _ => w.Computing?
  }

  lemma AgentTurns(y: System, a: Action, i: nat)
    requires CanAct(y, a)
    ensures if TurnsAgent(a, i) then TurnsInto(a, Agent(Act(y, a), i)) else Agent(Act(y, a), i) == Agent(y, i)
  {
  }

  // An agent waits in SteerInput, or in a request, exactly from when it entered until it left.
  lemma {:induction false} AgentExactly(steerer: bool, replayer: bool, actions: seq<Action>, i: nat)
    ensures var w, last := Agent(Run(steerer, replayer, actions), i), LastTurn(steerer, replayer, actions, i);
            && (w.InSteerInput? <==> last == Some(EnterSteerInput(i)))
            && (forall bound :: w.InRequest? && w.bound == bound <==> last == Some(EnterRequest(i, bound)))
  {
    if actions != [] {
      var before, a := actions[..|actions| - 1], actions[|actions| - 1];
      AgentExactly(steerer, replayer, before, i);
      if CanAct(Run(steerer, replayer, before), a) {
        AgentTurns(Run(steerer, replayer, before), a, i);
      }
    }
  }

  // The messages the read loop has read.
  ghost function Received(steerer: bool, replayer: bool, actions: seq<Action>): seq<Msg> {
    if actions == [] then []
    else
      var before, a := actions[..|actions| - 1], actions[|actions| - 1];
      Received(steerer, replayer, before)
          + if a.ReadMessage? && CanAct(Run(steerer, replayer, before), a) then [a.m] else []
  }

  ghost predicate Dropped(steerer: bool, replayer: bool, actions: seq<Action>) {
    && actions != []
    && var before, a := actions[..|actions| - 1], actions[|actions| - 1];
       Dropped(steerer, replayer, before) || (a.DropMessage? && CanAct(Run(steerer, replayer, before), a))
  }

  // received is what was accepted and, at the end, the message that the read loop holds or has dropped.
  ghost predicate ReadSoFar(y: System, received: seq<Msg>, dropped: bool) {
    && (dropped ==> y.reader.Reading? && y.turns.readDone)
    && match y.reader
       case Holding(m) => received == y.turns.accepted + [m]
       case Reading =>
         if dropped then |received| == |y.turns.accepted| + 1 && y.turns.accepted <= received
         else received == y.turns.accepted
  }

  lemma OthersAccept(s: State, st: Step)
    requires Enabled(s, st)
    ensures Apply(s, st).accepted == s.accepted + if st.Enqueue? then [st.m] else []
  {
    if !st.Enqueue? {
      AcceptedStays(s, st);
    }
  }

  lemma ReadsOn(y: System, a: Action, received: seq<Msg>, dropped: bool)
    requires FlagsOk(y) && CanAct(y, a) && ReadSoFar(y, received, dropped)
    ensures ReadSoFar(Act(y, a), received + (if a.ReadMessage? then [a.m] else []), dropped || a.DropMessage?)
  {
    assert received + [] == received && y.turns.accepted + [] == y.turns.accepted;
    FlagsKept(y, a);
    if TurnPart(y, a).Some? {
      OthersAccept(y.turns, TurnPart(y, a).value);
      TurnFlags(y.turns, TurnPart(y, a).value);
    }
  }

  // Every message that was read is accepted, in order, but for one that the read loop still holds or has
  // dropped for the cancelled context.
  lemma {:induction false} ReceivedExactly(steerer: bool, replayer: bool, actions: seq<Action>)
    ensures ReadSoFar(Run(steerer, replayer, actions), Received(steerer, replayer, actions),
                      Dropped(steerer, replayer, actions))
  {
    if actions != [] {
      var before, a := actions[..|actions| - 1], actions[|actions| - 1];
      var y := Run(steerer, replayer, before);
      ReceivedExactly(steerer, replayer, before);
      Invariant(steerer, replayer, before);
      if CanAct(y, a) {
        ReadsOn(y, a, Received(steerer, replayer, before), Dropped(steerer, replayer, before));
      } else {
        assert Received(steerer, replayer, before) + [] == Received(steerer, replayer, before);
      }
    }
  }
}
