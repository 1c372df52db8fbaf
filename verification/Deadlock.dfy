// The server can block for good: a run that does, and what ends it.
module Deadlock {
  import opened Turns
  import opened TurnsSteps
  import opened Goroutines
  import opened Waiting
  import TI = TurnsInvariant
  import R = Requests

  // ---------------------------------------------------------------------------------------------
  // How it begins
  // ---------------------------------------------------------------------------------------------

  // A turn whose agent is running, as the only operation.
  function OneTurn(p: Msg): State {
    Init(true, false).(accepted := [p], owner := [Taken(0)], ops := [NewOp(Turn, 0).(phase := Running)],
                       activeTurn := Taken(0), activeOp := Taken(0), log := Then(Empty, Begin(0)))
  }

  // Its agent waits for the response to its only request.
  function OneRequest(): R.State {
    R.Init().(calls := [R.Call(R.Waiting, R.Empty, R.Nothing, 0, R.Pending)], pending := map[R.Id(0) := 0])
  }

  function Asking(p: Msg, bound: bool): System {
    System(OneTurn(p), OneRequest(), map[0 := InRequest(0, bound)], Reading)
  }

  // The read loop passes message m on.
  lemma {:induction false} Fed(before: seq<Action>, m: Msg) returns (actions: seq<Action>)
    requires var y := Run(true, false, before);
             y.reader.Reading? && y.requests.hand.Free? && !y.turns.readDone && !QueueFull(y.turns)
    ensures var y := Run(true, false, before);
            Run(true, false, actions) == y.(turns := y.turns.(accepted := y.turns.accepted + [m]))
  {
    RunNext(true, false, before, ReadMessage(m));
    RunNext(true, false, before + [ReadMessage(m)], SendMessage);
    actions := before + [ReadMessage(m)] + [SendMessage];
  }

  // The dispatch loop takes one step.
  lemma {:induction false} Dispatched(before: seq<Action>, st: Step) returns (actions: seq<Action>)
    requires Enabled(Run(true, false, before).turns, st) && !OfServe(st) && !OfAgent(st)
    ensures var y := Run(true, false, before); Run(true, false, actions) == y.(turns := Apply(y.turns, st))
  {
    RunNext(true, false, before, TurnStep(st));
    actions := before + [TurnStep(st)];
  }

  lemma TurnRuns(p: Msg) returns (actions: seq<Action>)
    requires p.verb.Prompt? && p.wellFormed
    ensures Run(true, false, actions) == AtStart(true, false).(turns := OneTurn(p))
  {
    actions := Fed([], p);
    actions := Dispatched(actions, Receive);
    actions := Dispatched(actions, RunHandler(InPlaceResult));
    actions := Dispatched(actions, EmitBegin(true, Panicked));
  }

  lemma AgentAsks(p: Msg, bound: bool) returns (actions: seq<Action>)
    requires p.verb.Prompt? && p.wellFormed
    ensures Run(true, false, actions) == Asking(p, bound)
  {
    actions := TurnRuns(p);
    RunNext(true, false, actions, EnterRequest(0, bound));
    actions := actions + [EnterRequest(0, bound)];
    RunNext(true, false, actions, RequestStep(0));
    actions := actions + [RequestStep(0)];
    RunNext(true, false, actions, RequestStep(0));
    actions := actions + [RequestStep(0)];
  }

  // A second steer finds the first one still in steerCh.
  function SecondSteer(p: Msg, q: Msg): State {
    OneTurn(p).(accepted := [p, q, q], owner := [Taken(0), Free, Free], dispatcher := SteerSending(2, 0),
                ops := [NewOp(Turn, 0).(phase := Running, steerFull := true)],
                log := Then(Then(Empty, Begin(0)), Reply(1, q.id, Steered, Handler)))
  }

  lemma FirstSteerSent(p: Msg, q: Msg, bound: bool) returns (actions: seq<Action>)
    requires p.verb.Prompt? && p.wellFormed && q.verb.Steer? && q.wellFormed
    ensures Run(true, false, actions) ==
        Asking(p, bound).(turns := OneTurn(p).(accepted := [p, q], owner := [Taken(0), Free],
                                               dispatcher := SteerCalling(1, 0),
                                               ops := [NewOp(Turn, 0).(phase := Running, steerFull := true)]))
  {
    actions := AgentAsks(p, bound);
    actions := Fed(actions, q);
    actions := Dispatched(actions, Receive);
    actions := Dispatched(actions, RunHandler(InPlaceResult));
    actions := Dispatched(actions, SendSteer);
  }

  lemma SecondSteerBlocks(p: Msg, q: Msg, bound: bool) returns (actions: seq<Action>)
    requires p.verb.Prompt? && p.wellFormed && q.verb.Steer? && q.wellFormed
    ensures Run(true, false, actions) == Asking(p, bound).(turns := SecondSteer(p, q))
  {
    actions := FirstSteerSent(p, q, bound);
    actions := Dispatched(actions, SteerReturn(Steered));
    actions := Dispatched(actions, WriteAnswer);
    actions := Fed(actions, q);
    actions := Dispatched(actions, Receive);
    actions := Dispatched(actions, RunHandler(InPlaceResult));
  }

  // n more messages are read and passed on.
  lemma {:induction false} Filled(before: seq<Action>, m: Msg, n: nat) returns (actions: seq<Action>)
    requires var y := Run(true, false, before);
             && y.reader.Reading? && y.requests.hand.Free? && !y.turns.readDone
             && |y.turns.accepted| - |y.turns.owner| + n <= QUEUE_CAPACITY
    ensures var y := Run(true, false, before);
            && Run(true, false, actions) == y.(turns := y.turns.(accepted := Run(true, false, actions).turns.accepted))
            && y.turns.accepted <= Run(true, false, actions).turns.accepted
            && |Run(true, false, actions).turns.accepted| == |y.turns.accepted| + n
  {
    if n == 0 {
      actions := before;
    } else {
      actions := Filled(before, m, n - 1);
      actions := Fed(actions, m);
    }
  }

  // While the agent of a turn waits for a response, two steers and a full dispatchCh behind them are
  // enough: whatever the agent's context is, the server then waits for itself, with the second steer
  // unanswered.
  lemma DeadlockReached(p: Msg, q: Msg, m: Msg, bound: bool) returns (actions: seq<Action>)
    requires p.verb.Prompt? && p.wellFormed && q.verb.Steer? && q.wellFormed
    ensures var y := Run(true, false, actions);
            && Deadlock(y, 0) && y.agents == map[0 := InRequest(0, bound)] && y.reader == Holding(m)
            && y.turns.dispatcher == SteerSending(2, 0) && |y.turns.accepted| == 3 + QUEUE_CAPACITY
            && Replies(y.turns.log, 2) == 0
  {
    actions := SecondSteerBlocks(p, q, bound);
    actions := Filled(actions, m, QUEUE_CAPACITY);
    RunNext(true, false, actions, ReadMessage(m));
    actions := actions + [ReadMessage(m)];
  }

  // ---------------------------------------------------------------------------------------------
  // How it ends
  // ---------------------------------------------------------------------------------------------

  // Serve's context is cancelled, or the context of the agent's request.
  predicate Outside(a: Action, j: nat) {
    a.EndServing? || a == RequestTimesOut(j)
  }

  // Nobody has moved the dispatch loop, and nothing was taken out of dispatchCh.
  predicate StillThere(s: State, s': State) {
    s'.dispatcher == s.dispatcher && s'.owner == s.owner && s'.ctxDone == s.ctxDone
  }

  lemma AgentLeavesDispatcher(s: State, st: Step)
    requires Enabled(s, st) && OfAgent(st)
    ensures StillThere(s, Apply(s, st))
  {
  }

  lemma EndLeavesDispatcher(s: State, st: Step)
    requires Enabled(s, st) && (OfTurnEnd(st) || OfReplayEnd(st)) && !s.dispatcher.Ending?
    ensures StillThere(s, Apply(s, st))
  {
  }

  lemma OthersStay(s: State, st: Step, j: nat)
    requires Awaits(s, j) && Enabled(s, st) && (OfAgent(st) || OfTurnEnd(st) || OfReplayEnd(st)) && st.op != j
    ensures SameFor(s, Apply(s, st), j)
  {
    if OfAgent(st) {
      AgentLeavesDispatcher(s, st);
    } else {
      EndLeavesDispatcher(s, st);
    }
    OpMoves(s, st, st.op);
  }

  // Operation j, the queue and what the dispatch loop waits for are as before.
  ghost predicate SameFor(s: State, s': State, j: nat) {
    StillThere(s, s') && s'.accepted == s.accepted && j < |s.ops| && j < |s'.ops| && s'.ops[j] == s.ops[j]
  }

  lemma DeadlockFrame(y: System, y': System, j: nat)
    requires Deadlock(y, j) && SameFor(y.turns, y'.turns, j)
    requires Agent(y', j) == Agent(y, j) && y'.reader == y.reader && StillWaits(y'.requests, Agent(y, j).call)
    ensures Deadlock(y', j)
  {
  }

  // No step of another goroutine of the turn machine can be taken, except by older operations.
  lemma OnlyOthersStep(s: State, st: Step, j: nat)
    requires Awaits(s, j) && Enabled(s, st) && !OfServe(st) && !s.readDone
    ensures OfAgent(st) || OfTurnEnd(st) || OfReplayEnd(st)
  {
  }

  // Call c waits for its response.
  predicate StillWaits(s: R.State, c: nat) {
    R.InPhase(s, c, R.Waiting) && s.calls[c].ch.Empty?
  }

  lemma CallStays(s: R.State, st: R.Step, c: nat)
    requires StillWaits(s, c) && R.Enabled(s, st) && s.hand.Free? && s.closing == {}
    requires st != R.GiveUp(c) && !st.Route? && !st.ClosePending?
    ensures StillWaits(R.Apply(s, st), c)
  {
  }

  lemma TurnStays(y: System, st: Step, j: nat)
    requires FlagsOk(y) && AgentsOk(y) && Deadlock(y, j) && CanAct(y, TurnStep(st))
    ensures SameFor(y.turns, Apply(y.turns, st), j)
  {
    AgentsWaitWhileRunning(y, j);
    OnlyOthersStep(y.turns, st, j);
    OthersStay(y.turns, st, j);
  }

  // What the agent and the read loop do.
  lemma OutsideStays(y: System, a: Action, j: nat)
    requires FlagsOk(y) && Deadlock(y, j) && CanAct(y, a)
    ensures !a.TurnStep? && !a.EndServing? ==> TurnPart(y, a).None?
    ensures Agent(y, j) == if j in AgentsAfter(y, a) then AgentsAfter(y, a)[j] else Computing
    ensures ReaderAfter(y, a) == y.reader
  {
  }

  // Only a step of the call itself could change the call.
  lemma RequestStays(y: System, a: Action, j: nat)
    requires FlagsOk(y) && AgentsOk(y) && y.requests.closing == {}
    requires Deadlock(y, j) && CanAct(y, a) && RequestPart(y, a).Some? && !Outside(a, j)
    ensures StillWaits(R.Apply(y.requests, RequestPart(y, a).value), Agent(y, j).call)
  {
    CallStays(y.requests, RequestPart(y, a).value, Agent(y, j).call);
  }

  lemma DeadlockStays(y: System, a: Action, j: nat)
    requires Sound(y) && Deadlock(y, j) && CanAct(y, a) && !Outside(a, j)
    ensures Deadlock(Act(y, a), j) && StillThere(y.turns, Act(y, a).turns)
  {
    OutsideStays(y, a, j);
    if a.TurnStep? {
      TurnStays(y, a.st, j);
    } else if RequestPart(y, a).Some? {
      RequestStays(y, a, j);
    }
    DeadlockFrame(y, Act(y, a), j);
  }

  lemma OutsideEnds(y: System, a: Action, j: nat)
    requires CanAct(y, a) && Outside(a, j)
    ensures !Deadlock(Act(y, a), j)
  {
    if a.EndServing? {
      assert Act(y, a).turns.ctxDone;
    } else {
      assert !CallIn(Act(y, a), j, R.Waiting);
    }
  }

  // Only the context of Serve or that of the request ends a deadlock, and each of them does. In particular
  // the end of the stream does not: the read loop cannot see it.
  lemma {:induction false} DeadlockEndsExactly(
    steerer: bool, replayer: bool, actions: seq<Action>, a: Action, j: nat)
    requires var y := Run(steerer, replayer, actions); Deadlock(y, j) && CanAct(y, a)
    ensures Deadlock(Act(Run(steerer, replayer, actions), a), j) <==> !a.EndServing? && a != RequestTimesOut(j)
  {
    RunsAreSound(steerer, replayer, actions);
    if Outside(a, j) {
      OutsideEnds(Run(steerer, replayer, actions), a, j);
    } else {
      DeadlockStays(Run(steerer, replayer, actions), a, j);
    }
  }

  // However a run goes on, as long as neither of these happens the dispatch loop stays where it is, and no
  // message is taken out of dispatchCh.
  lemma {:induction false} DeadlockLasts(steerer: bool, replayer: bool, actions: seq<Action>, more: seq<Action>, j: nat)
    requires Deadlock(Run(steerer, replayer, actions), j)
    requires forall a | a in more :: !Outside(a, j)
    ensures var y, y' := Run(steerer, replayer, actions), Run(steerer, replayer, actions + more);
            Deadlock(y', j) && StillThere(y.turns, y'.turns)
  {
    if more == [] {
      assert actions + more == actions;
    } else {
      var before, a := more[..|more| - 1], more[|more| - 1];
      DeadlockLasts(steerer, replayer, actions, before, j);
      assert actions + more == actions + before + [a];
      RunNext(steerer, replayer, actions + before, a);
      RunsAreSound(steerer, replayer, actions + before);
      if CanAct(Run(steerer, replayer, actions + before), a) {
        DeadlockStays(Run(steerer, replayer, actions + before), a, j);
      }
    }
  }

  // And none of those that were waiting for the dispatch loop is ever answered.
  lemma {:induction false} UnansweredForGood(
    steerer: bool, replayer: bool, actions: seq<Action>, more: seq<Action>, j: nat, k: nat)
    requires var y := Run(steerer, replayer, actions);
             && Deadlock(y, j) && (forall a | a in more :: !Outside(a, j))
             && (TI.InHand(y.turns.dispatcher) == Taken(k) || |y.turns.owner| <= k)
    ensures Replies(Run(steerer, replayer, actions + more).turns.log, k) == 0
  {
    DeadlockLasts(steerer, replayer, actions, more, j);
    Goroutines.Invariant(steerer, replayer, actions + more);
    var s := Run(steerer, replayer, actions + more).turns;
    if k < |s.owner| {
      assert TI.MsgOk(s.dispatcher, s.ops, s.log, k, s.owner[k]);
    }
  }
}
