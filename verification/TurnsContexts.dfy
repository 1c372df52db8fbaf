// Contexts, steers and the shutdown of the turn machine, told by the steps that were taken.
module TurnsContexts {
  import opened Turns
  import opened TurnsInvariant
  import opened TurnsResults
  import opened TurnsSteps

  // ---------------------------------------------------------------------------------------------
  // Whose context is cancelled
  // ---------------------------------------------------------------------------------------------

  // The step cancels the context of operation i: a cancel that captured it, the end of its turn, or
  // clearActiveTurn.
  predicate Cancels(s: State, st: Step, i: nat) {
    || (st.CallCancel? && s.dispatcher.Cancelling? && s.dispatcher.op == i)
    || st == TurnCloses(i)
    || (st.ClearActiveTurn? && s.activeOp == Taken(i))
  }

  ghost predicate CancelledBefore(steerer: bool, replayer: bool, schedule: seq<Step>, i: nat) {
    && schedule != []
    && var before, st := schedule[..|schedule| - 1], schedule[|schedule| - 1]; var s := Exec(steerer, replayer, before);
       CancelledBefore(steerer, replayer, before, i) || (Enabled(s, st) && Cancels(s, st, i))
  }

  predicate IsCancelled(s: State, i: nat) {
    i < |s.ops| && s.ops[i].ctxDone
  }

  lemma StartCancelsNothing(s: State, k: nat, a: Answer, i: nat)
    requires k < |s.accepted| && k < |s.owner|
    ensures IsCancelled(Handle(s, k, a), i) <==> IsCancelled(s, i)
  {
  }

  lemma CancelCancels(s: State, st: Step, i: nat)
    requires Enabled(s, st) && OfCancel(st)
    ensures IsCancelled(Apply(s, st), i) <==> IsCancelled(s, i) || Cancels(s, st, i)
  {
  }

  lemma DispatcherCancelsNothing(s: State, st: Step, i: nat)
    requires Enabled(s, st) && (OfServe(st) || OfLoop(st) || OfSteer(st))
    ensures IsCancelled(Apply(s, st), i) <==> IsCancelled(s, i)
  {
  }

  lemma ClearCancels(s: State, i: nat)
    requires s.activeOp.Taken? ==> s.activeOp.op < |s.ops|
    ensures IsCancelled(ClearActive(s), i) <==> IsCancelled(s, i) || s.activeOp == Taken(i)
  {
  }

  lemma OpCancels(s: State, st: Step, i: nat)
    requires Enabled(s, st) && (OfTurnEnd(st) || OfReplayEnd(st))
    ensures IsCancelled(Apply(s, st), i) <==> IsCancelled(s, i) || Cancels(s, st, i)
  {
    OpMoves(s, st, st.op);
  }

  lemma AgentCancelsNothing(s: State, st: Step, i: nat)
    requires Enabled(s, st) && (OfAgent(st) || st.EmitBegin?)
    ensures IsCancelled(Apply(s, st), i) <==> IsCancelled(s, i)
  {
    if !st.TakeSteer? {
      OpMoves(s, st, if st.EmitBegin? then s.dispatcher.op else st.op);
    }
  }

  lemma StepCancels(s: State, st: Step, i: nat)
    requires SlotOk(s) && Enabled(s, st)
    ensures IsCancelled(Apply(s, st), i) <==> IsCancelled(s, i) || Cancels(s, st, i)
  {
    if st.RunHandler? {
      StartCancelsNothing(s, s.dispatcher.msg, st.inPlace, i);
    } else if st.ClearActiveTurn? {
      ClearCancels(s, i);
    } else if OfTurnEnd(st) || OfReplayEnd(st) {
      OpCancels(s, st, i);
    } else if OfAgent(st) || st.EmitBegin? {
      AgentCancelsNothing(s, st, i);
    } else if OfCancel(st) {
      CancelCancels(s, st, i);
    } else {
      DispatcherCancelsNothing(s, st, i);
    }
  }

  // The context of an operation is cancelled exactly if a cancel that captured it, the end of its turn or
  // clearActiveTurn did so: no other operation's cancel ever reaches it.
  lemma {:induction false} ContextExactly(steerer: bool, replayer: bool, schedule: seq<Step>, i: nat)
    ensures IsCancelled(Exec(steerer, replayer, schedule), i) <==>
            CancelledBefore(steerer, replayer, schedule, i)
  {
    if schedule != [] {
      var before, st := schedule[..|schedule| - 1], schedule[|schedule| - 1];
      ContextExactly(steerer, replayer, before, i);
      Invariant(steerer, replayer, before);
      if Enabled(Exec(steerer, replayer, before), st) {
        StepCancels(Exec(steerer, replayer, before), st, i);
      }
    }
  }

  // ---------------------------------------------------------------------------------------------
  // Steers
  // ---------------------------------------------------------------------------------------------

  predicate Sends(s: State, st: Step, i: nat) {
    st.SendSteer? && s.dispatcher.SteerSending? && s.dispatcher.op == i
  }

  // The inputs sent to operation i, and those its agent took.
  ghost function Sent(steerer: bool, replayer: bool, schedule: seq<Step>, i: nat): nat {
    if schedule == [] then 0
    else
      var before, st := schedule[..|schedule| - 1], schedule[|schedule| - 1]; var s := Exec(steerer, replayer, before);
      Sent(steerer, replayer, before, i) + if Enabled(s, st) && Sends(s, st, i) then 1 else 0
  }

  ghost function Received(steerer: bool, replayer: bool, schedule: seq<Step>, i: nat): nat {
    if schedule == [] then 0
    else
      var before, st := schedule[..|schedule| - 1], schedule[|schedule| - 1];
      Received(steerer, replayer, before, i)
          + if st == TakeSteer(i) && Enabled(Exec(steerer, replayer, before), st) then 1 else 0
  }

  predicate HasSteer(s: State, i: nat) {
    i < |s.ops| && s.ops[i].steerFull
  }

  // What a step does to the steer channel of operation i.
  predicate Steers(s: State, st: Step, i: nat) {
    if Sends(s, st, i) then true else if st == TakeSteer(i) then false else HasSteer(s, i)
  }

  lemma StartSteersNothing(s: State, k: nat, a: Answer, i: nat)
    requires k < |s.accepted| && k < |s.owner|
    ensures HasSteer(Handle(s, k, a), i) <==> HasSteer(s, i)
  {
  }

  lemma SteerSteers(s: State, st: Step, i: nat)
    requires Enabled(s, st) && (OfSteer(st) || st.TakeSteer?)
    ensures HasSteer(Apply(s, st), i) <==> Steers(s, st, i)
    ensures Sends(s, st, i) ==> !HasSteer(s, i)
  {
  }

  lemma DispatcherSteersNothing(s: State, st: Step, i: nat)
    requires Enabled(s, st) && (OfServe(st) || OfLoop(st) || st.ClearActiveTurn?)
    ensures HasSteer(Apply(s, st), i) <==> HasSteer(s, i)
  {
  }

  lemma CancelSteersNothing(s: State, st: Step, i: nat)
    requires Enabled(s, st) && OfCancel(st)
    ensures HasSteer(Apply(s, st), i) <==> HasSteer(s, i)
  {
  }

  lemma OpSteersNothing(s: State, st: Step, i: nat)
    requires Enabled(s, st) && (OfTurnEnd(st) || OfReplayEnd(st) || st.AgentEmit?)
    ensures HasSteer(Apply(s, st), i) <==> HasSteer(s, i)
  {
    OpMoves(s, st, st.op);
  }

  lemma ReturnSteersNothing(s: State, j: nat, outcome: Outcome, i: nat)
    requires j < |s.ops|
    ensures HasSteer(Return(s, j, outcome), i) <==> HasSteer(s, i)
  {
  }

  lemma BeginSteersNothing(s: State, j: nat, ok: bool, failure: Outcome, i: nat)
    requires j < |s.ops|
    ensures HasSteer(BeginTurn(s, j, ok, failure), i) <==> HasSteer(s, i)
  {
  }

  lemma StepSteers(s: State, st: Step, i: nat)
    requires Enabled(s, st)
    ensures HasSteer(Apply(s, st), i) <==> Steers(s, st, i)
    ensures Sends(s, st, i) ==> !HasSteer(s, i)
    ensures st == TakeSteer(i) ==> HasSteer(s, i)
  {
    if st.RunHandler? {
      StartSteersNothing(s, s.dispatcher.msg, st.inPlace, i);
    } else if OfTurnEnd(st) || OfReplayEnd(st) || st.AgentEmit? {
      OpSteersNothing(s, st, i);
    } else if st.AgentReturn? {
      ReturnSteersNothing(s, st.op, st.outcome, i);
    } else if st.EmitBegin? {
      BeginSteersNothing(s, s.dispatcher.op, st.ok, st.failure, i);
    } else if OfSteer(st) || st.TakeSteer? {
      SteerSteers(s, st, i);
    } else if OfCancel(st) {
      CancelSteersNothing(s, st, i);
    } else {
      DispatcherSteersNothing(s, st, i);
    }
  }

  // Every input sent to a turn is taken by its agent once, or is the one that still lies in steerCh.
  lemma {:induction false} SteerConservation(steerer: bool, replayer: bool, schedule: seq<Step>, i: nat)
    ensures Sent(steerer, replayer, schedule, i) == Received(steerer, replayer, schedule, i)
        + if HasSteer(Exec(steerer, replayer, schedule), i) then 1 else 0
  {
    if schedule != [] {
      var before, st := schedule[..|schedule| - 1], schedule[|schedule| - 1];
      SteerConservation(steerer, replayer, before, i);
      if Enabled(Exec(steerer, replayer, before), st) {
        StepSteers(Exec(steerer, replayer, before), st, i);
      }
    }
  }

  // ---------------------------------------------------------------------------------------------
  // Messages and shutdown
  // ---------------------------------------------------------------------------------------------

  // The messages sent to dispatchCh, and the number of those taken out.
  ghost function Enqueued(steerer: bool, replayer: bool, schedule: seq<Step>): seq<Msg> {
    if schedule == [] then []
    else
      var before, st := schedule[..|schedule| - 1], schedule[|schedule| - 1];
      Enqueued(steerer, replayer, before)
          + if st.Enqueue? && Enabled(Exec(steerer, replayer, before), st) then [st.m] else []
  }

  ghost function TakenOut(steerer: bool, replayer: bool, schedule: seq<Step>): nat {
    if schedule == [] then 0
    else
      var before, st := schedule[..|schedule| - 1], schedule[|schedule| - 1];
      TakenOut(steerer, replayer, before) + if st.Receive? && Enabled(Exec(steerer, replayer, before), st) then 1 else 0
  }

  lemma StartKeepsQueue(s: State, k: nat, a: Answer)
    requires k < |s.accepted| && k < |s.owner|
    ensures var s' := Handle(s, k, a);
            && |s'.owner| == |s.owner| && s'.ctxDone == s.ctxDone && s'.readDone == s.readDone
            && s'.cleared == s.cleared && s'.evicted == s.evicted && !s'.dispatcher.Exited?
  {
  }

  // What a step that is no handler's first section does to the queue and to the flags of the shutdown.
  ghost predicate Keeps(s: State, st: Step, s': State) {
    && |s'.owner| == |s.owner| + (if st.Receive? then 1 else 0)
    && (s'.ctxDone <==> s.ctxDone || st.CancelServe?) && (s'.readDone <==> s.readDone || st.ReaderExit?)
    && (s'.cleared <==> s.cleared || st.ClearActiveTurn?)
    && (s'.dispatcher.Exited? <==> s.dispatcher.Exited? || st.LoopExit?)
    && s'.evicted == if st.ClearActiveTurn? then s.activeOp else s.evicted
  }

  lemma ServeKeepsQueue(s: State, st: Step)
    requires Enabled(s, st) && (OfServe(st) || OfLoop(st) || st.ClearActiveTurn?)
    ensures Keeps(s, st, Apply(s, st))
  {
  }

  lemma WaitKeepsQueue(s: State, st: Step)
    requires Enabled(s, st) && (OfCancel(st) || OfSteer(st))
    ensures Keeps(s, st, Apply(s, st))
  {
  }

  lemma AgentKeepsQueue(s: State, st: Step)
    requires Enabled(s, st) && OfAgent(st)
    ensures Keeps(s, st, Apply(s, st))
  {
  }

  lemma BeginKeepsQueue(s: State, st: Step)
    requires Enabled(s, st) && st.EmitBegin?
    ensures Keeps(s, st, Apply(s, st))
  {
  }

  lemma EndKeepsQueue(s: State, st: Step)
    requires Enabled(s, st) && (OfTurnEnd(st) || OfReplayEnd(st))
    ensures Keeps(s, st, Apply(s, st))
  {
  }

  lemma StepKeepsQueue(s: State, st: Step)
    requires Enabled(s, st)
    ensures Keeps(s, st, Apply(s, st))
    ensures Apply(s, st).accepted == s.accepted + if st.Enqueue? then [st.m] else []
  {
    if !st.Enqueue? {
      AcceptedStays(s, st);
    }
    if st.RunHandler? {
      StartKeepsQueue(s, s.dispatcher.msg, st.inPlace);
    } else if OfAgent(st) {
      AgentKeepsQueue(s, st);
    } else if st.EmitBegin? {
      BeginKeepsQueue(s, st);
    } else if OfTurnEnd(st) || OfReplayEnd(st) {
      EndKeepsQueue(s, st);
    } else if OfCancel(st) || OfSteer(st) {
      WaitKeepsQueue(s, st);
    } else {
      ServeKeepsQueue(s, st);
    }
  }

  // Messages are accepted in the order in which they were sent, and the next one the dispatcher takes is the
  // oldest that is left.
  lemma {:induction false} QueueExactly(steerer: bool, replayer: bool, schedule: seq<Step>)
    ensures var s := Exec(steerer, replayer, schedule);
            && s.accepted == Enqueued(steerer, replayer, schedule)
            && |s.owner| == TakenOut(steerer, replayer, schedule)
            && (Enabled(s, Receive) ==>
                  Apply(s, Receive).dispatcher == Handling(TakenOut(steerer, replayer, schedule)))
  {
    if schedule != [] {
      var before, st := schedule[..|schedule| - 1], schedule[|schedule| - 1];
      QueueExactly(steerer, replayer, before);
      if Enabled(Exec(steerer, replayer, before), st) {
        StepKeepsQueue(Exec(steerer, replayer, before), st);
      }
    }
  }

  lemma {:induction false} ShutdownExactly(steerer: bool, replayer: bool, schedule: seq<Step>)
    ensures var s := Exec(steerer, replayer, schedule);
            && (s.ctxDone <==> Happened(steerer, replayer, schedule, CancelServe))
            && (s.readDone <==> Happened(steerer, replayer, schedule, ReaderExit))
            && (s.cleared <==> Happened(steerer, replayer, schedule, ClearActiveTurn))
            && (s.dispatcher.Exited? <==> Happened(steerer, replayer, schedule, LoopExit))
  {
    if schedule != [] {
      var before, st := schedule[..|schedule| - 1], schedule[|schedule| - 1];
      ShutdownExactly(steerer, replayer, before);
      if Enabled(Exec(steerer, replayer, before), st) {
        StepKeepsQueue(Exec(steerer, replayer, before), st);
      }
    }
  }

  // Operation i was in the slot when clearActiveTurn emptied it.
  ghost predicate FoundInSlot(steerer: bool, replayer: bool, schedule: seq<Step>, i: nat) {
    && schedule != []
    && var before, st := schedule[..|schedule| - 1], schedule[|schedule| - 1]; var s := Exec(steerer, replayer, before);
       || FoundInSlot(steerer, replayer, before, i)
       || (st.ClearActiveTurn? && Enabled(s, st) && InProgress(s, i))
  }

  lemma {:induction false} EvictedExactly(steerer: bool, replayer: bool, schedule: seq<Step>, i: nat)
    ensures Exec(steerer, replayer, schedule).evicted == Taken(i) <==> FoundInSlot(steerer, replayer, schedule, i)
  {
    if schedule != [] {
      var before, st := schedule[..|schedule| - 1], schedule[|schedule| - 1];
      var s := Exec(steerer, replayer, before);
      EvictedExactly(steerer, replayer, before, i);
      Invariant(steerer, replayer, before);
      InProgressExactly(s, i);
      if Enabled(s, st) {
        StepKeepsQueue(s, st);
      }
    }
  }
}
