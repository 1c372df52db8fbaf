// The server as server/server.go, server/request.go and server/turn.go have it: one object whose
// fields are changed in place, one atomic section at a time. Every method does to the fields what the
// step it names says, and keeps the invariants of the turn machine and of the request table.
module Server {
  import opened Wrappers
  import opened Ids
  import opened T = Turns
  import TI = TurnsInvariant
  import TR = TurnsResults
  import SS = TurnsSteps
  import opened G = Goroutines
  import R = Requests
  import RH = RequestHistory

  // A step that neither accepts nor takes a message, nor starts an operation, keeps every message where it
  // is: in the dispatcher's hand, or with the operation it started.
  ghost predicate SameMsgs(s: State, s': State) {
    && s'.accepted == s.accepted
    && (TI.InHand(s'.dispatcher) == TI.InHand(s.dispatcher) || TI.InHand(s'.dispatcher).Free?)
    && |s'.ops| == |s.ops| && forall i: nat | i < |s.ops| :: s'.ops[i].msg == s.ops[i].msg
  }

  lemma CalmKeepsMsgs(s: State, st: Step)
    requires Enabled(s, st) && !Loud(st) && (OfLoop(st) || OfCancel(st) || OfSteer(st)) && !st.Receive?
    ensures SameMsgs(s, Apply(s, st))
  {
    SS.CalmStep(s, st);
    forall i: nat | i < |s.ops| ensures Apply(s, st).ops[i].msg == s.ops[i].msg {
      assert SS.SameButFlags(s.ops[i], Apply(s, st).ops[i]);
    }
  }

  lemma MoveKeepsMsgs(s: State, st: Step, i: nat)
    requires Enabled(s, st) && SS.Mover(s, st, i)
    ensures SameMsgs(s, Apply(s, st))
  {
    SS.OpMoves(s, st, i);
  }

  lemma StepKeepsMsgs(s: State, st: Step)
    requires Enabled(s, st) && !OfServe(st) && !st.Receive? && !st.RunHandler?
    ensures SameMsgs(s, Apply(s, st))
  {
    if st.EmitBegin? {
      MoveKeepsMsgs(s, st, s.dispatcher.op);
    } else if OfAgent(st) || OfTurnEnd(st) || OfReplayEnd(st) {
      MoveKeepsMsgs(s, st, st.op);
    } else if !Loud(st) && !st.ClearActiveTurn? {
      CalmKeepsMsgs(s, st);
    }
  }

  // Steps of a handler after its first section.
  predicate OfHandler(st: Step) {
    st.LoopExit? || st.EmitFromHandler? || st.WriteAnswer? || st.EmitBegin? || OfCancel(st) || OfSteer(st)
  }

  // Who runs a step: the reader or Serve, the dispatcher, or the goroutine of an operation.
  lemma Partition(st: Step)
    ensures || OfServe(st) || st.Receive? || st.RunHandler? || st.ClearActiveTurn? || OfHandler(st)
            || OfAgent(st) || OfTurnEnd(st) || OfReplayEnd(st)
  {
  }

  // Each operation has the id of the message that started it.
  ghost predicate IdsOk(accepted: seq<Msg>, ops: seq<Op>, ids: seq<string>) {
    |ids| == |ops| && forall i: nat | i < |ops| :: ops[i].msg < |accepted| && ids[i] == accepted[ops[i].msg].id
  }

  lemma IdsGrow(accepted: seq<Msg>, ops: seq<Op>, ids: seq<string>, o: Op)
    requires IdsOk(accepted, ops, ids) && o.msg < |accepted|
    ensures IdsOk(accepted, ops + [o], ids + [accepted[o.msg].id])
  {
  }

  predicate SharedPart(st: Step, st': R.Step) {
    (st.ReaderExit? && st'.ReaderExit?) || (st.CancelServe? && st'.CancelServe?)
  }

  predicate Paired(turnPart: Option<Step>, requestPart: Option<R.Step>) {
    if turnPart.Some? && requestPart.Some? then SharedPart(turnPart.value, requestPart.value)
    else
      && (turnPart.Some? ==> !turnPart.value.ReaderExit? && !turnPart.value.CancelServe?)
      && (requestPart.Some? ==> !requestPart.value.ReaderExit? && !requestPart.value.CancelServe?)
  }

  lemma PartsPaired(y: System, a: Action)
    requires CanAct(y, a)
    ensures Paired(TurnPart(y, a), RequestPart(y, a))
  {
  }

  class Server {
    // Turn machine. A turn or replay is an entry of ops; dispatcher is the dispatch goroutine's position.
    const steerer: bool
    const replayer: bool
    var dispatchCh: seq<Msg>
    var current: Msg                 // what dispatch was called with
    var taken: nat                   // the number of messages taken out of dispatchCh
    var dispatcher: Dispatcher
    var ops: seq<Op>
    var ids: seq<string>             // the id each of their goroutines was started with
    var activeTurn: Slot
    var activeOp: Slot
    var cleared: bool
    var log: Log                     // the writes attempted on the transport
    ghost var accepted: seq<Msg>
    ghost var owner: seq<Slot>
    ghost var evicted: Slot

    // Server-to-client requests.
    var requestCounter: nat
    var calls: seq<R.Call>
    var pending: map<string, nat>
    var lines: seq<string>
    var hand: R.Hand
    var closing: set<nat>
    var closed: bool

    // Shared by both, and the positions of the agents and of the read loop.
    var ctxDone: bool
    var readDone: bool
    var agents: map<nat, AgentWait>
    var reader: Reader

    ghost function TurnView(): State
      reads this`accepted, this`owner, this`dispatcher, this`ops, this`activeTurn, this`activeOp, this`log,
          this`ctxDone, this`readDone, this`cleared, this`evicted
    {
      State(steerer, replayer, accepted, owner, dispatcher, ops, activeTurn, activeOp, log, ctxDone, readDone,
          cleared, evicted)
    }

    function RequestView(): R.State
      reads this`calls, this`pending, this`lines, this`hand, this`closing, this`closed, this`ctxDone, this`readDone
    {
      R.State(calls, pending, lines, hand, closing, ctxDone, readDone, closed)
    }

    ghost function View(): System
      reads this
    {
      System(TurnView(), RequestView(), agents, reader)
    }

    // dispatchCh holds what was accepted and not yet taken.
    ghost predicate Linked()
      reads this`dispatchCh, this`taken, this`accepted, this`owner
    {
      |owner| <= |accepted| && dispatchCh == accepted[|owner|..] && taken == |owner|
    }

    // The dispatcher and the operations know the messages they have to answer.
    ghost predicate Named()
      reads this`dispatcher, this`accepted, this`current, this`ops, this`ids
    {
      && (TI.InHand(dispatcher).Taken? ==>
            TI.InHand(dispatcher).op < |accepted| && accepted[TI.InHand(dispatcher).op] == current)
      && IdsOk(accepted, ops, ids)
    }

    // Every id in pending is that of a call.
    ghost predicate PendingOk()
      reads this`pending, this`calls
    {
      forall id | id in pending :: pending[id] < |calls|
    }

    ghost predicate Valid()
      reads this
    {
      G.Inv(View()) && Linked() && Named() && requestCounter == |calls|
    }

    constructor (steerer: bool, replayer: bool)
      ensures Valid() && View() == AtStart(steerer, replayer)
      ensures this.steerer == steerer && this.replayer == replayer
    {
      this.steerer, this.replayer := steerer, replayer;
      dispatchCh, accepted, owner, ops, ids, log := [], [], [], [], [], Empty;
      current, taken := Msg("", InPlace, true), 0;
      dispatcher, activeTurn, activeOp, cleared, evicted := Idle, Free, Free, false, Free;
      requestCounter, calls, pending, lines, hand, closing, closed := 0, [], map[], [], R.Free, {}, false;
      ctxDone, readDone, agents, reader := false, false, map[], Reading;
    }

    // ---- readLoop and Serve ----

    method SendToDispatch(m: Msg)
      requires Linked() && Named() && Enabled(TurnView(), Enqueue(m))
      modifies this`dispatchCh, this`accepted
      ensures Linked() && Named() && TurnView() == Apply(old(TurnView()), Enqueue(m))
      ensures dispatchCh == old(dispatchCh) + [m]
    {
      dispatchCh := dispatchCh + [m];
      accepted := accepted + [m];
    }

    method ExitReadLoop()
      requires Enabled(TurnView(), ReaderExit) && R.Enabled(RequestView(), R.ReaderExit)
      modifies this`readDone
      ensures TurnView() == Apply(old(TurnView()), ReaderExit)
      ensures RequestView() == R.Apply(old(RequestView()), R.ReaderExit)
    {
      readDone := true;
    }

    method CancelServeCtx()
      modifies this`ctxDone
      ensures TurnView() == Apply(old(TurnView()), CancelServe)
      ensures RequestView() == R.Apply(old(RequestView()), R.CancelServe)
    {
      ctxDone := true;
    }

    method ClearActive()
      requires Enabled(TurnView(), ClearActiveTurn) && (activeOp.Taken? ==> activeOp.op < |ops|)
      modifies this`ops, this`activeTurn, this`activeOp, this`cleared, this`evicted
      ensures TurnView() == Apply(old(TurnView()), ClearActiveTurn)
    {
      var op := activeOp;
      activeTurn := Free;
      activeOp := Free;
      cleared, evicted := true, op;
      if op.Taken? {
        ops := ops[op.op := ops[op.op].(ctxDone := true)];
      }
    }

    // ---- serveLoop and the handlers ----

    method TakeFromDispatch()
      requires Linked() && Named() && Enabled(TurnView(), Receive)
      modifies this`dispatchCh, this`current, this`taken, this`owner, this`dispatcher
      ensures Linked() && Named() && TurnView() == Apply(old(TurnView()), Receive)
      ensures dispatchCh == old(dispatchCh)[1..] && accepted[dispatcher.msg] == current == old(dispatchCh)[0]
    {
      assert accepted[|owner|..][1..] == accepted[|owner| + 1..];
      current := dispatchCh[0];
      dispatchCh := dispatchCh[1..];
      dispatcher := Handling(taken);
      taken := taken + 1;
      owner := owner + [Free];
    }

    // The first section of a handler. Only prompt and replay take the slot, and only when it is free.
    method RunHandler(inPlace: Answer)
      requires Named() && Enabled(TurnView(), Step.RunHandler(inPlace))
      modifies this`ops, this`ids, this`owner, this`activeTurn, this`activeOp, this`dispatcher
      ensures Named() && TurnView() == Apply(old(TurnView()), Step.RunHandler(inPlace)) && |owner| == old(|owner|)
    {
      var k := dispatcher.msg;
      match current.verb
      case Prompt => HandlePrompt(k);
      case Replay => HandleReplay(k);
      case Cancel => HandleCancel(k);
      case Steer => HandleSteer(k);
      case InPlace => dispatcher := Answering(k, inPlace);
    }

    method HandlePrompt(k: nat)
      requires Named() && k < |owner| && dispatcher == Handling(k)
      modifies this`ops, this`ids, this`owner, this`activeTurn, this`activeOp, this`dispatcher
      ensures Named() && |owner| == old(|owner|)
      ensures var v := T.HandlePrompt(old(TurnView()), k, current.wellFormed);
              TurnView() == if v.Start? then StartTurn(old(TurnView()), k) else Goto(old(TurnView()), v.d)
    {
      if !current.wellFormed {
        dispatcher := Answering(k, Error(INVALID_PARAMS));
      } else if activeTurn.Taken? || activeOp.Taken? {
        dispatcher := Answering(k, Error(TURN_IN_PROGRESS));
      } else {
        BeginTurn(k);
      }
    }

    // newTurn, and the rest of the locked section.
    method BeginTurn(k: nat)
      requires Named() && k < |owner| && dispatcher == Handling(k)
      modifies this`ops, this`ids, this`owner, this`activeTurn, this`activeOp, this`dispatcher
      ensures Named() && |owner| == old(|owner|) && TurnView() == StartTurn(old(TurnView()), k)
    {
      var t := |ops|;
      IdsGrow(accepted, ops, ids, NewOp(Turn, k));
      ops := ops + [NewOp(Turn, k)];
      ids := ids + [current.id];
      owner := owner[k := Taken(t)];
      activeTurn := Taken(t);
      activeOp := Taken(t);
      dispatcher := Beginning(t);
    }

    method HandleReplay(k: nat)
      requires Named() && k < |owner| && dispatcher == Handling(k)
      modifies this`ops, this`ids, this`owner, this`activeOp, this`dispatcher
      ensures Named() && |owner| == old(|owner|)
      ensures var v := T.HandleReplay(old(TurnView()), k);
              TurnView() == if v.Start? then StartReplay(old(TurnView()), k) else Goto(old(TurnView()), v.d)
    {
      if !replayer {
        dispatcher := Answering(k, Error(METHOD_NOT_FOUND));
      } else if activeTurn.Taken? || activeOp.Taken? {
        dispatcher := Answering(k, Error(TURN_IN_PROGRESS));
      } else {
        var r := |ops|;
        IdsGrow(accepted, ops, ids, NewOp(Replaying, k));
        ops := ops + [NewOp(Replaying, k)];
        ids := ids + [current.id];
        owner := owner[k := Taken(r)];
        activeOp := Taken(r);
        dispatcher := Idle;
      }
    }

    method HandleCancel(k: nat)
      modifies this`dispatcher
      ensures TurnView() == Goto(old(TurnView()), T.HandleCancel(old(TurnView()), k).d)
    {
      if activeOp.Free? {
        dispatcher := Answering(k, Error(NO_TURN_IN_PROGRESS));
      } else {
        dispatcher := Flagging(k, activeOp.op, activeTurn);
      }
    }

    method HandleSteer(k: nat)
      modifies this`dispatcher
      ensures TurnView() == Goto(old(TurnView()), T.HandleSteer(old(TurnView()), k, current.wellFormed).d)
    {
      if !steerer {
        dispatcher := Answering(k, Error(METHOD_NOT_FOUND));
      } else if !current.wellFormed {
        dispatcher := Answering(k, Error(INVALID_PARAMS));
      } else if activeTurn.Free? {
        dispatcher := Answering(k, Error(NO_TURN_IN_PROGRESS));
      } else {
        dispatcher := SteerSending(k, activeTurn.op);
      }
    }

    method EmitTurnBegin(ok: bool, failure: Outcome)
      requires Enabled(TurnView(), EmitBegin(ok, failure))
      modifies this`log, this`ops, this`dispatcher
      ensures TurnView() == Apply(old(TurnView()), EmitBegin(ok, failure))
    {
      var t := dispatcher.op;
      log := Then(log, Begin(t));
      if ok {
        ops := ops[t := ops[t].(phase := Running)];
        dispatcher := Idle;
      } else {
        ops := ops[t := ops[t].(phase := EmitEnd, outcome := failure, flagAtEnd := ops[t].cancelled)];
        dispatcher := Ending(t);
      }
    }

    // handleCancel after it has captured the operation: the flag ...
    method SetCancelled()
      requires Enabled(TurnView(), SetFlag)
      modifies this`ops, this`dispatcher
      ensures TurnView() == Apply(old(TurnView()), SetFlag)
    {
      var t := dispatcher.turn;
      if t.Taken? {
        ops := ops[t.op := ops[t.op].(cancelled := true)];
      }
      dispatcher := Cancelling(dispatcher.msg, dispatcher.op);
    }

    // ... the cancel function ...
    method CancelOperation()
      requires Enabled(TurnView(), CallCancel)
      modifies this`ops, this`dispatcher
      ensures TurnView() == Apply(old(TurnView()), CallCancel)
    {
      var i := dispatcher.op;
      ops := ops[i := ops[i].(ctxDone := true)];
      dispatcher := AwaitingDone(dispatcher.msg, i);
    }

    // ... and the wait.
    method AwaitDone(shutdown: bool)
      requires Enabled(TurnView(), if shutdown then SeeShutdown else SeeDone)
      modifies this`dispatcher
      ensures TurnView() == Apply(old(TurnView()), if shutdown then SeeShutdown else SeeDone)
    {
      dispatcher := Answering(dispatcher.msg, if shutdown then Error(INTERNAL_ERROR) else CancelDone(dispatcher.op));
    }

    // handleSteer after it has captured the turn: the send to steerCh, the call of the steerer.
    method ContinueSteer(st: Step)
      requires Enabled(TurnView(), st) && (st.SendSteer? || st.SteerGone? || st.SteerReturn?)
      modifies this`ops, this`dispatcher
      ensures TurnView() == Apply(old(TurnView()), st)
    {
      var k, i := dispatcher.msg, dispatcher.op;
      match st
      case SendSteer =>
        ops := ops[i := ops[i].(steerFull := true)];
        dispatcher := SteerCalling(k, i);
      case SteerGone => dispatcher := Answering(k, Error(NO_TURN_IN_PROGRESS));
      case SteerReturn(a) => dispatcher := Answering(k, a);
    }

    method EmitPlanEvent()
      requires Enabled(TurnView(), EmitFromHandler)
      modifies this`log
      ensures TurnView() == Apply(old(TurnView()), EmitFromHandler)
    {
      log := Then(log, HandlerEvent(dispatcher.msg));
    }

    method SendAnswer()
      requires Named() && Enabled(TurnView(), WriteAnswer)
      modifies this`log, this`dispatcher
      ensures TurnView() == Apply(old(TurnView()), WriteAnswer)
    {
      log := Then(log, Reply(dispatcher.msg, current.id, dispatcher.answer, Handler));
      dispatcher := Idle;
    }

    method ExitServeLoop()
      requires Enabled(TurnView(), LoopExit)
      modifies this`dispatcher
      ensures TurnView() == Apply(old(TurnView()), LoopExit)
    {
      dispatcher := Exited;
    }

    // ---- the goroutines of turns and replays ----

    method EmitFromAgent(i: nat)
      requires Enabled(TurnView(), AgentEmit(i))
      modifies this`log
      ensures TurnView() == Apply(old(TurnView()), AgentEmit(i))
    {
      log := Then(log, AgentEvent(i, ops[i].kind.Turn?));
    }

    method SteerInput(t: nat)
      requires Enabled(TurnView(), TakeSteer(t))
      modifies this`ops
      ensures TurnView() == Apply(old(TurnView()), TakeSteer(t))
    {
      ops := ops[t := ops[t].(steerFull := false)];
    }

    method EndAgentCall(i: nat, outcome: Outcome)
      requires Enabled(TurnView(), AgentReturn(i, outcome))
      modifies this`ops
      ensures TurnView() == Apply(old(TurnView()), AgentReturn(i, outcome))
    {
      var o := ops[i];
      if o.kind.Turn? {
        ops := ops[i := o.(phase := EmitEnd, outcome := outcome, flagAtEnd := o.cancelled)];
      } else {
        ops := ops[i := o.(phase := Respond, outcome := outcome, answer := ReplayAnswer(outcome))];
      }
    }

    // endTurn, section by section.
    method EmitTurnEnd(t: nat)
      requires Enabled(TurnView(), TurnEnds(t))
      modifies this`log, this`ops
      ensures TurnView() == Apply(old(TurnView()), TurnEnds(t))
    {
      log := Then(log, End(t));
      ops := ops[t := ops[t].(phase := CloseDone)];
    }

    method CloseTurn(t: nat)
      requires Enabled(TurnView(), TurnCloses(t))
      modifies this`ops
      ensures TurnView() == Apply(old(TurnView()), TurnCloses(t))
    {
      ops := ops[t := ops[t].(phase := ClearSlot, ctxDone := true, done := true)];
    }

    method ClearTurnSlot(t: nat)
      requires Enabled(TurnView(), TurnGivesBack(t))
      modifies this`ops, this`activeTurn, this`activeOp
      ensures TurnView() == Apply(old(TurnView()), TurnGivesBack(t))
    {
      if activeTurn == Taken(t) {
        activeTurn := Free;
        activeOp := Free;
      }
      ops := ops[t := ops[t].(phase := ReadFlag)];
    }

    method ReadCancelled(t: nat)
      requires Enabled(TurnView(), TurnSettles(t))
      modifies this`ops
      ensures TurnView() == Apply(old(TurnView()), TurnSettles(t))
    {
      var wasCancelled := ops[t].cancelled;
      var answer := PromptAnswer(ops[t].outcome, wasCancelled);
      ops := ops[t := ops[t].(phase := Respond, wasCancelled := wasCancelled, answer := answer)];
    }

    method RespondToPrompt(t: nat)
      requires Named() && Enabled(TurnView(), TurnResponds(t))
      modifies this`log, this`ops, this`dispatcher
      ensures TurnView() == Apply(old(TurnView()), TurnResponds(t))
    {
      var o := ops[t];
      log := Then(log, Reply(o.msg, ids[t], o.answer, TurnOf(t)));
      ops := ops[t := o.(phase := Finished)];
      if dispatcher == Ending(t) {
        dispatcher := Idle;
      }
    }

    // The replay goroutine after Agent.Replay, section by section.
    method RespondToReplay(r: nat)
      requires Named() && Enabled(TurnView(), ReplayResponds(r))
      modifies this`log, this`ops
      ensures TurnView() == Apply(old(TurnView()), ReplayResponds(r))
    {
      var o := ops[r];
      log := Then(log, Reply(o.msg, ids[r], o.answer, ReplayOf(r)));
      ops := ops[r := o.(phase := ClearSlot)];
    }

    method ClearReplaySlot(r: nat)
      requires Enabled(TurnView(), ReplayGivesBack(r))
      modifies this`ops, this`activeOp
      ensures TurnView() == Apply(old(TurnView()), ReplayGivesBack(r))
    {
      if activeOp == Taken(r) {
        activeOp := Free;
      }
      ops := ops[r := ops[r].(phase := CloseDone)];
    }

    method CloseReplay(r: nat)
      requires Enabled(TurnView(), ReplayCloses(r))
      modifies this`ops
      ensures TurnView() == Apply(old(TurnView()), ReplayCloses(r))
    {
      ops := ops[r := ops[r].(phase := Finished, done := true)];
    }

    method DoAgentStep(st: Step)
      requires Enabled(TurnView(), st) && OfAgent(st)
      modifies this`log, this`ops
      ensures TurnView() == Apply(old(TurnView()), st)
    {
      match st
      case AgentEmit(i) => EmitFromAgent(i);
      case TakeSteer(i) => SteerInput(i);
      case AgentReturn(i, outcome) => EndAgentCall(i, outcome);
    }

    // endTurn.
    method DoTurnEnd(st: Step)
      requires Named() && Enabled(TurnView(), st) && OfTurnEnd(st)
      modifies this`log, this`ops, this`activeTurn, this`activeOp, this`dispatcher
      ensures TurnView() == Apply(old(TurnView()), st)
    {
      match st
      case TurnEnds(i) => EmitTurnEnd(i);
      case TurnCloses(i) => CloseTurn(i);
      case TurnGivesBack(i) => ClearTurnSlot(i);
      case TurnSettles(i) => ReadCancelled(i);
      case TurnResponds(i) => RespondToPrompt(i);
    }

    // The end of a replay goroutine.
    method DoReplayEnd(st: Step)
      requires Named() && Enabled(TurnView(), st) && OfReplayEnd(st)
      modifies this`log, this`ops, this`activeOp
      ensures TurnView() == Apply(old(TurnView()), st)
    {
      match st
      case ReplayResponds(i) => RespondToReplay(i);
      case ReplayGivesBack(i) => ClearReplaySlot(i);
      case ReplayCloses(i) => CloseReplay(i);
    }

    method DoHandlerStep(st: Step)
      requires Named() && Enabled(TurnView(), st) && OfHandler(st)
      modifies this`log, this`ops, this`dispatcher
      ensures TurnView() == Apply(old(TurnView()), st)
    {
      match st
      case LoopExit => ExitServeLoop();
      case EmitBegin(ok, failure) => EmitTurnBegin(ok, failure);
      case SetFlag => SetCancelled();
      case CallCancel => CancelOperation();
      case SeeDone => AwaitDone(false);
      case SeeShutdown => AwaitDone(true);
      case SendSteer => ContinueSteer(st);
      case SteerGone => ContinueSteer(st);
      case SteerReturn(_) => ContinueSteer(st);
      case EmitFromHandler => EmitPlanEvent();
      case WriteAnswer => SendAnswer();
    }

    // A step that leaves the messages where they are.
    method DoLocalStep(st: Step)
      requires Named() && Enabled(TurnView(), st) && (activeOp.Taken? ==> activeOp.op < |ops|)
      requires !OfServe(st) && !st.Receive? && !st.RunHandler?
      modifies this`dispatcher, this`ops, this`activeTurn, this`activeOp, this`log, this`cleared, this`evicted
      ensures TurnView() == Apply(old(TurnView()), st)
    {
      var handler, agent, turnEnd := OfHandler(st), OfAgent(st), OfTurnEnd(st);
      Partition(st);
      if st.ClearActiveTurn? {
        ClearActive();
      } else if handler {
        DoHandlerStep(st);
      } else if agent {
        DoAgentStep(st);
      } else if turnEnd {
        DoTurnEnd(st);
      } else {
        DoReplayEnd(st);
      }
    }

    method DoNamedStep(st: Step)
      requires Named() && Enabled(TurnView(), st) && (activeOp.Taken? ==> activeOp.op < |ops|)
      requires !OfServe(st) && !st.Receive? && !st.RunHandler?
      modifies this`dispatcher, this`ops, this`activeTurn, this`activeOp, this`log, this`cleared, this`evicted
      ensures Named() && TurnView() == Apply(old(TurnView()), st)
    {
      StepKeepsMsgs(TurnView(), st);
      DoLocalStep(st);
    }

    // Any step of the turn machine except the two it shares with the request table.
    method DoTurnStep(st: Step)
      requires Linked() && Named() && Enabled(TurnView(), st) && !st.ReaderExit? && !st.CancelServe?
      requires activeOp.Taken? ==> activeOp.op < |ops|
      modifies this`accepted, this`dispatchCh, this`current, this`taken, this`owner, this`dispatcher, this`ops,
          this`ids, this`activeTurn, this`activeOp, this`log, this`cleared, this`evicted
      ensures Linked() && Named() && TurnView() == Apply(old(TurnView()), st)
    {
      if st.Enqueue? {
        SendToDispatch(st.m);
      } else if st.Receive? {
        TakeFromDispatch();
      } else if st.RunHandler? {
        RunHandler(st.inPlace);
      } else {
        DoNamedStep(st);
      }
    }

    // ---- server-to-client requests ----

    method NextRequestID() returns (id: string)
      requires requestCounter == |calls|
      modifies this`requestCounter, this`calls
      ensures requestCounter == |calls| && RequestView() == R.Apply(old(RequestView()), R.Issue)
      ensures id == ServerId(requestCounter) == R.Id(|calls| - 1)
    {
      requestCounter := requestCounter + 1;
      calls := calls + [R.Call(R.Issued, R.Empty, R.Nothing, 0, R.NotYet)];
      id := ServerId(requestCounter);
    }

    // sendRequestAndWait up to and including its select.
    method SendRequest(st: R.Step)
      requires R.Enabled(RequestView(), st)
      requires st.Register? || st.Written? || st.Receive? || st.GiveUp?
      modifies this`calls, this`pending
      ensures RequestView() == R.Apply(old(RequestView()), st) && |calls| == old(|calls|)
    {
      var c := st.call;
      match st
      case Register(_) =>
        pending := pending[R.Id(c) := c];
        calls := calls[c := calls[c].(phase := R.Registered, since := |lines|, token := R.Pending)];
      case Written(_, ok) =>
        calls := calls[c := if ok then calls[c].(phase := R.Waiting)
            else calls[c].(phase := R.Leaving, result := R.Failed)];
      case Receive(_) =>
        calls := calls[c := calls[c].(phase := R.Leaving, ch := R.Empty, result := R.Got(calls[c].ch.m),
            token := R.Gone)];
      case GiveUp(_) => calls := calls[c := calls[c].(phase := R.Leaving, result := R.Failed)];
    }

    // Its deferred function: unregister under the lock, then drain the channel.
    method LeaveRequest(st: R.Step)
      requires R.Enabled(RequestView(), st) && (st.Unregister? || st.Drain?)
      modifies this`calls, this`pending
      ensures RequestView() == R.Apply(old(RequestView()), st) && |calls| == old(|calls|)
    {
      var c := st.call;
      var token := calls[c].token;
      if st.Unregister? {
        pending := pending - {R.Id(c)};
        calls := calls[c := calls[c].(phase := R.Draining, token := if token.Pending? then R.Gone else token)];
      } else {
        calls := calls[c := calls[c].(phase := R.Returned, ch := R.Empty,
                                      token := if token.InChan? then R.Gone else token)];
      }
    }

    method RouteResponse(id: string)
      requires PendingOk() && R.Enabled(RequestView(), R.Route(id))
      modifies this`lines, this`pending, this`hand, this`calls
      ensures RequestView() == R.Apply(old(RequestView()), R.Route(id)) && |calls| == old(|calls|)
    {
      var no := |lines|;
      lines := lines + [id];
      if id in pending {
        var c := pending[id];
        pending := pending - {id};
        hand := R.Routing(c, no);
        calls := calls[c := calls[c].(token := R.InHand(no))];
      }
    }

    // The select at the end of routeResponse.
    method FinishRouting(st: R.Step)
      requires R.Enabled(RequestView(), st) && (st.Deliver? || st.Drop?)
      modifies this`hand, this`calls
      ensures RequestView() == R.Apply(old(RequestView()), st) && |calls| == old(|calls|)
    {
      var c := hand.call;
      if st.Deliver? {
        calls := calls[c := calls[c].(ch := R.Full(R.Line(hand.no)), token := R.InChan(R.Line(hand.no)))];
      } else {
        calls := calls[c := calls[c].(token := R.Lost)];
      }
      hand := R.Free;
    }

    method ClosePending()
      requires R.Enabled(RequestView(), R.ClosePending)
      modifies this`pending, this`closing, this`closed, this`calls
      ensures RequestView() == R.Apply(old(RequestView()), R.ClosePending) && |calls| == old(|calls|)
    {
      closing := set id | id in pending :: pending[id];
      calls := seq(|calls|, c requires 0 <= c < |calls| reads this => R.Closed(calls[c], c, pending));
      pending := map[];
      closed := true;
    }

    method NotifyClosed(c: nat)
      requires R.Enabled(RequestView(), R.Notify(c))
      modifies this`closing, this`calls
      ensures RequestView() == R.Apply(old(RequestView()), R.Notify(c)) && |calls| == old(|calls|)
    {
      closing := closing - {c};
      if calls[c].ch.Empty? {
        calls := calls[c := calls[c].(ch := R.Full(R.ClosedError), token := R.InChan(R.ClosedError))];
      }
    }

    // Any step of the request table except the two it shares with the turn machine.
    method DoRequestStep(st: R.Step)
      requires PendingOk() && requestCounter == |calls|
      requires R.Enabled(RequestView(), st) && !st.ReaderExit? && !st.CancelServe?
      modifies this`requestCounter, this`calls, this`pending, this`lines, this`hand, this`closing, this`closed
      ensures requestCounter == |calls| && RequestView() == R.Apply(old(RequestView()), st)
    {
      if st.Issue? {
        var _ := NextRequestID();
      } else {
        DoCallStep(st);
      }
    }

    method DoCallStep(st: R.Step)
      requires PendingOk() && R.Enabled(RequestView(), st) && !st.ReaderExit? && !st.CancelServe? && !st.Issue?
      modifies this`calls, this`pending, this`lines, this`hand, this`closing, this`closed
      ensures RequestView() == R.Apply(old(RequestView()), st) && |calls| == old(|calls|)
    {
      match st
      case Register(_) => SendRequest(st);
      case Written(_, _) => SendRequest(st);
      case Receive(_) => SendRequest(st);
      case GiveUp(_) => SendRequest(st);
      case Unregister(_) => LeaveRequest(st);
      case Drain(_) => LeaveRequest(st);
      case Route(id) => RouteResponse(id);
      case Deliver => FinishRouting(st);
      case Drop => FinishRouting(st);
      case ClosePending => ClosePending();
      case Notify(c) => NotifyClosed(c);
    }

    // ---- one action of the goroutines ----

    // The guards, from what the object holds.
    predicate ReadyLoop(st: Step)
      reads this
    {
      match st
      case Receive => dispatcher.Idle? && dispatchCh != []
      case LoopExit => dispatcher.Idle? && ctxDone
      case RunHandler(a) => dispatcher.Handling? && (a.InPlaceResult? || a.Error?)
      case EmitFromHandler => dispatcher.Handling? && current.verb.InPlace?
      case EmitBegin(ok, failure) => dispatcher.Beginning? && (ok || failure.Failed?)
      case WriteAnswer => dispatcher.Answering?
      case _ => false
    }

    predicate ReadyCancel(st: Step)
      reads this
    {
      match st
      case SetFlag => dispatcher.Flagging?
      case CallCancel => dispatcher.Cancelling?
      case SeeDone => dispatcher.AwaitingDone? && dispatcher.op < |ops| && ops[dispatcher.op].done
      case SeeShutdown => dispatcher.AwaitingDone? && ctxDone
      case SendSteer => dispatcher.SteerSending? && dispatcher.op < |ops| && !ops[dispatcher.op].steerFull
      case SteerGone =>
        dispatcher.SteerSending? && dispatcher.op < |ops| && (ctxDone || ops[dispatcher.op].ctxDone)
      case SteerReturn(a) => dispatcher.SteerCalling? && (a.Steered? || a == Error(INTERNAL_ERROR))
      case _ => false
    }

    predicate InPhase(i: nat, k: Kind, p: Phase)
      reads this
    {
      i < |ops| && ops[i].kind == k && ops[i].phase == p
    }

    predicate ReadyOp(st: Step)
      reads this
    {
      match st
      case AgentEmit(i) => i < |ops| && ops[i].phase.Running?
      case TakeSteer(i) => i < |ops| && ops[i].phase.Running? && ops[i].steerFull
      case AgentReturn(i, _) => i < |ops| && ops[i].phase.Running?
      case TurnEnds(i) => InPhase(i, Turn, EmitEnd)
      case TurnCloses(i) => InPhase(i, Turn, CloseDone)
      case TurnGivesBack(i) => InPhase(i, Turn, ClearSlot)
      case TurnSettles(i) => InPhase(i, Turn, ReadFlag)
      case TurnResponds(i) => InPhase(i, Turn, Respond)
      case ReplayResponds(i) => InPhase(i, Replaying, Respond)
      case ReplayGivesBack(i) => InPhase(i, Replaying, ClearSlot)
      case ReplayCloses(i) => InPhase(i, Replaying, CloseDone)
      case _ => false
    }

    predicate ReadyServe(st: Step)
      reads this
    {
      match st
      case Enqueue(_) => !readDone && |dispatchCh| < QUEUE_CAPACITY
      case ReaderExit => !readDone
      case CancelServe => true
      case ClearActiveTurn => readDone && ctxDone && !cleared
      case _ => false
    }

    predicate Ready(st: Step)
      reads this
    {
      ReadyServe(st) || ReadyLoop(st) || ReadyCancel(st) || ReadyOp(st)
    }

    lemma ReadyServeExactly(st: Step)
      requires Linked() && (OfServe(st) || st.ClearActiveTurn?)
      ensures Ready(st) <==> Enabled(TurnView(), st)
    {
    }

    lemma ReadyLoopExactly(st: Step)
      requires Linked() && Named() && TI.DispatcherOk(TurnView())
      requires st.RunHandler? || st.EmitBegin? || OfLoop(st)
      ensures Ready(st) <==> Enabled(TurnView(), st)
    {
    }

    lemma ReadyCancelExactly(st: Step)
      requires TI.DispatcherOk(TurnView()) && (OfCancel(st) || OfSteer(st))
      ensures Ready(st) <==> Enabled(TurnView(), st)
    {
    }

    lemma ReadyOpExactly(st: Step)
      requires Named() && (OfAgent(st) || OfTurnEnd(st) || OfReplayEnd(st))
      ensures Ready(st) <==> Enabled(TurnView(), st)
    {
    }

    lemma ReadyExactly(st: Step)
      requires Linked() && Named() && TI.Inv(TurnView())
      ensures Ready(st) <==> Enabled(TurnView(), st)
    {
      Partition(st);
      if OfServe(st) || st.ClearActiveTurn? {
        ReadyServeExactly(st);
      } else if OfAgent(st) || OfTurnEnd(st) || OfReplayEnd(st) {
        ReadyOpExactly(st);
      } else if OfCancel(st) || OfSteer(st) {
        ReadyCancelExactly(st);
      } else {
        ReadyLoopExactly(st);
      }
    }

    // What there is to see of the whole without the histories.
    function Visible(): System
      reads this
    {
      System(State(steerer, replayer, [], [], dispatcher, ops, activeTurn, activeOp, log, ctxDone, readDone,
                   cleared, Free),
             RequestView(), agents, reader)
    }

    predicate ReadyToAct(a: Action)
      reads this
    {
      && Guard(Visible(), a)
      && (TurnPart(Visible(), a).Some? ==> Ready(TurnPart(Visible(), a).value))
      && (RequestPart(Visible(), a).Some? ==> R.Enabled(RequestView(), RequestPart(Visible(), a).value))
      && (OfCall(a) ==> RequestPart(Visible(), a).Some?)
    }

    // None of the guards and parts of an action depends on the histories.
    lemma GuardVisible(a: Action)
      ensures Guard(Visible(), a) <==> Guard(View(), a)
    {
    }

    lemma PartsVisible(a: Action)
      ensures TurnPart(Visible(), a) == TurnPart(View(), a) && RequestPart(Visible(), a) == RequestPart(View(), a)
    {
    }

    lemma ReadyToActExactly(a: Action)
      requires Linked() && Named() && TI.Inv(TurnView())
      ensures ReadyToAct(a) <==> CanAct(View(), a)
    {
      GuardVisible(a);
      PartsVisible(a);
      if TurnPart(View(), a).Some? {
        ReadyExactly(TurnPart(View(), a).value);
      }
    }

    // Where the agents and the read loop are after an action.
    method MoveAgents(a: Action)
      modifies this`agents
      ensures agents == AgentsAfter(old(Visible()), a)
    {
      match a
      case TurnStep(st) =>
        if st.TakeSteer? {
          agents := agents[st.op := Computing];
        }
      case EnterSteerInput(i) => agents := agents[i := InSteerInput];
      case LeaveSteerInput(i) => agents := agents[i := Computing];
      case SteerInputTimesOut(i) => agents := agents[i := Computing];
      case EnterRequest(i, bound) => agents := agents[i := InRequest(|calls|, bound)];
      case LeaveRequest(i) => agents := agents[i := Computing];
      case _ =>
    }

    method MoveReader(a: Action)
      modifies this`reader
      ensures reader == ReaderAfter(old(Visible()), a)
    {
      match a
      case ReadMessage(m) => reader := Holding(m);
      case SendMessage => reader := Reading;
      case DropMessage => reader := Reading;
      case _ =>
    }

    method MoveOn(a: Action)
      modifies this`agents, this`reader
      ensures agents == AgentsAfter(old(Visible()), a) && reader == ReaderAfter(old(Visible()), a)
    {
      MoveReader(a);
      MoveAgents(a);
    }

    // A step that both machines share.
    method DoBoth(st: Step, st': R.Step)
      requires SharedPart(st, st') && Enabled(TurnView(), st) && R.Enabled(RequestView(), st')
      modifies this`readDone, this`ctxDone
      ensures TurnView() == Apply(old(TurnView()), st) && RequestView() == R.Apply(old(RequestView()), st')
      ensures Linked() == old(Linked()) && Named() == old(Named())
    {
      if st.ReaderExit? {
        ExitReadLoop();
      } else {
        CancelServeCtx();
      }
    }

    // The part of an action in one machine leaves the other alone.
    method DoTurnPart(st: Step)
      requires Linked() && Named() && (activeOp.Taken? ==> activeOp.op < |ops|)
      requires Enabled(TurnView(), st) && !st.ReaderExit? && !st.CancelServe?
      modifies this`accepted, this`dispatchCh, this`current, this`taken, this`owner, this`dispatcher, this`ops,
          this`ids, this`activeTurn, this`activeOp, this`log, this`cleared, this`evicted
      ensures Linked() && Named() && TurnView() == Apply(old(TurnView()), st) && RequestView() == old(RequestView())
    {
      DoTurnStep(st);
    }

    method DoRequestPart(st: R.Step)
      requires Linked() && Named() && PendingOk() && requestCounter == |calls|
      requires R.Enabled(RequestView(), st) && !st.ReaderExit? && !st.CancelServe?
      modifies this`requestCounter, this`calls, this`pending, this`lines, this`hand, this`closing, this`closed
      ensures Linked() && Named() && requestCounter == |calls|
      ensures TurnView() == old(TurnView()) && RequestView() == R.Apply(old(RequestView()), st)
    {
      DoRequestStep(st);
    }

    // Both parts: only a step that the two share is in both.
    method DoParts(turnPart: Option<Step>, requestPart: Option<R.Step>)
      requires Linked() && Named() && PendingOk() && requestCounter == |calls|
      requires Paired(turnPart, requestPart) && (activeOp.Taken? ==> activeOp.op < |ops|)
      requires turnPart.Some? ==> Enabled(TurnView(), turnPart.value)
      requires requestPart.Some? ==> R.Enabled(RequestView(), requestPart.value)
      modifies this`accepted, this`dispatchCh, this`current, this`taken, this`owner, this`dispatcher, this`ops,
          this`ids, this`activeTurn, this`activeOp, this`log, this`cleared, this`evicted, this`requestCounter,
          this`calls, this`pending, this`lines, this`hand, this`closing, this`closed, this`readDone, this`ctxDone
      ensures Linked() && Named() && requestCounter == |calls|
      ensures TurnView() == TurnsAfter(old(TurnView()), turnPart)
      ensures RequestView() == RequestsAfter(old(RequestView()), requestPart)
    {
      if turnPart.Some? && requestPart.Some? {
        DoBoth(turnPart.value, requestPart.value);
      } else if turnPart.Some? {
        DoTurnPart(turnPart.value);
      } else if requestPart.Some? {
        DoRequestPart(requestPart.value);
      }
    }

    lemma Parts(a: Action)
      requires CanAct(View(), a)
      ensures TurnPart(Visible(), a) == TurnPart(View(), a) && RequestPart(Visible(), a) == RequestPart(View(), a)
      ensures Paired(TurnPart(View(), a), RequestPart(View(), a))
    {
      PartsVisible(a);
      PartsPaired(View(), a);
    }

    // DoParts, after the agents and the read loop have moved.
    method Finish(a: Action, turnPart: Option<Step>, requestPart: Option<R.Step>)
      requires Linked() && Named() && PendingOk() && requestCounter == |calls|
      requires Paired(turnPart, requestPart) && (activeOp.Taken? ==> activeOp.op < |ops|)
      requires turnPart.Some? ==> Enabled(TurnView(), turnPart.value)
      requires requestPart.Some? ==> R.Enabled(RequestView(), requestPart.value)
      modifies this
      ensures Linked() && Named() && requestCounter == |calls|
      ensures View() == System(TurnsAfter(old(TurnView()), turnPart), RequestsAfter(old(RequestView()), requestPart),
                               AgentsAfter(old(Visible()), a), ReaderAfter(old(Visible()), a))
    {
      MoveOn(a);
      DoParts(turnPart, requestPart);
    }

    method Perform(a: Action)
      requires Linked() && Named() && PendingOk() && requestCounter == |calls|
      requires (activeOp.Taken? ==> activeOp.op < |ops|) && CanAct(View(), a)
      modifies this
      ensures Linked() && Named() && requestCounter == |calls| && View() == Act(old(View()), a)
    {
      Parts(a);
      Finish(a, TurnPart(Visible(), a), RequestPart(Visible(), a));
    }

    method Do(a: Action)
      requires Valid() && CanAct(View(), a)
      modifies this
      ensures Valid() && View() == Act(old(View()), a)
    {
      ActKeeps(View(), a);
      Perform(a);
    }

    // One action, if it can be taken.
    method Try(a: Action)
      requires Valid()
      modifies this
      ensures Valid()
      ensures View() == if CanAct(old(View()), a) then Act(old(View()), a) else old(View())
    {
      ReadyToActExactly(a);
      if ReadyToAct(a) {
        Do(a);
      }
    }

    // No message is answered twice, replies carry their own ids, and up to clearActiveTurn the frames
    // alternate and one operation at most holds the slot.
    ghost predicate KeepsTurnPromises()
      reads this
    {
      && (forall k: nat | k < |accepted| :: Replies(log, k) <= 1)
      && (forall e | In(log, e) && e.Reply? :: e.msg < |accepted| && e.id == accepted[e.msg].id)
      && (!cleared ==> TR.Alternating(TR.Marks(log, Free)) && TR.Exclusive(TurnView()))
    }

    // A request that is over failed if its agent gave it up or its write failed; otherwise it returned the
    // first response read for it, or the closing error if there was none. Until shutdown one that waits has
    // its answer pending, in hand or in its channel.
    ghost predicate KeepsRequestPromises(actions: seq<Action>)
      reads this
    {
      && (forall c: nat | c < |calls| && RH.IsOver(calls[c]) :: EndsRight(actions, c))
      && (forall c: nat | c < |calls| && R.StillWaiting(calls[c]) && !ctxDone :: R.Tokens(RequestView(), c) == 1)
    }

    ghost predicate EndsRight(actions: seq<Action>, c: nat)
      requires c < |calls|
      reads this
    {
      var r := calls[c].result;
      if GaveUp(steerer, replayer, actions, c) then r.Failed?
      else r.Got? && R.MessageOk(lines, closed, c, calls[c].since, r.m)
    }

    // Any run of the goroutines, from the start.
    method Serve(actions: seq<Action>)
      requires Valid() && View() == AtStart(steerer, replayer)
      modifies this
      ensures Valid() && View() == Run(steerer, replayer, actions)
      ensures KeepsTurnPromises() && KeepsRequestPromises(actions)
    {
      for i := 0 to |actions|
        invariant Valid() && View() == Run(steerer, replayer, actions[..i])
      {
        assert actions[..i + 1] == actions[..i] + [actions[i]];
        RunNext(steerer, replayer, actions[..i], actions[i]);
        Try(actions[i]);
      }
      assert actions[..|actions|] == actions;
      ghost var steps, requestSteps := RunsOfBoth(steerer, replayer, actions);
      TurnPromises(steps);
      RequestPromises(actions, steps, requestSteps);
    }

    lemma {:induction false} TurnPromises(steps: seq<Step>)
      requires TurnView() == Exec(steerer, replayer, steps)
      ensures KeepsTurnPromises()
    {
      TR.Framing(steerer, replayer, steps);
      TR.MutualExclusion(steerer, replayer, steps);
      TI.Invariant(steerer, replayer, steps);
      forall k: nat | k < |accepted| ensures Replies(log, k) <= 1 {
        TR.AtMostOneReply(log, k);
      }
      forall e | In(log, e) && e.Reply? ensures e.msg < |accepted| && e.id == accepted[e.msg].id {
        TR.RepliesCarryOwnIds(log, accepted, e);
      }
    }

    lemma {:induction false} RequestPromises(actions: seq<Action>, steps: seq<Step>, requestSteps: seq<R.Step>)
      requires View() == Run(steerer, replayer, actions)
      requires AreParts(steerer, replayer, actions, steps, requestSteps)
      ensures KeepsRequestPromises(actions)
    {
      forall c: nat | c < |calls| && RH.IsOver(calls[c]) ensures EndsRight(actions, c) {
        RH.ReturnedExactly(requestSteps, c);
        GaveUpExactly(steerer, replayer, actions, c);
      }
      forall c: nat | c < |calls| && R.StillWaiting(calls[c]) && !ctxDone ensures R.Tokens(RequestView(), c) == 1 {
        R.OneToken(requestSteps, c);
      }
    }
  }
}
