// What the steps of the turn machine leave alone.
module TurnsSteps {
  import opened Turns

  // Only flags were changed.
  predicate SameButFlags(o: Op, o': Op) {
    && o' == o.(cancelled := o'.cancelled, ctxDone := o'.ctxDone, steerFull := o'.steerFull)
    && (o.cancelled ==> o'.cancelled) && (o.ctxDone ==> o'.ctxDone)
  }

  // Nothing is written, no slot is touched, and operations keep everything but their flags.
  ghost predicate Calm(s: State, s': State) {
    && s'.log == s.log
    && s'.activeOp == s.activeOp && s'.evicted == s.evicted && s'.cleared == s.cleared
    && |s'.ops| == |s.ops| && (forall i: nat | i < |s.ops| :: SameButFlags(s.ops[i], s'.ops[i]))
    && (s'.dispatcher.Beginning? ==> s'.dispatcher == s.dispatcher)
  }

  ghost predicate SameCancelled(s: State, s': State) {
    |s'.ops| == |s.ops| && forall i: nat | i < |s.ops| :: s'.ops[i].cancelled == s.ops[i].cancelled
  }

  lemma ChangeIsCalm(s: State, i: nat, o: Op, d: Dispatcher)
    requires i < |s.ops| && SameButFlags(s.ops[i], o) && !d.Beginning?
    ensures Calm(s, Change(s, i, o, d)) && Change(s, i, o, d).accepted == s.accepted
    ensures o.cancelled == s.ops[i].cancelled ==> SameCancelled(s, Change(s, i, o, d))
  {
  }

  lemma GotoIsCalm(s: State, d: Dispatcher)
    requires !d.Beginning?
    ensures Calm(s, Goto(s, d)) && Goto(s, d).accepted == s.accepted
  {
  }

  lemma CancelIsCalm(s: State, st: Step)
    requires Enabled(s, st) && OfCancel(st)
    ensures Calm(s, Apply(s, st)) && Apply(s, st).accepted == s.accepted
    ensures !st.SetFlag? ==> SameCancelled(s, Apply(s, st))
  {
    var d := s.dispatcher;
    match st
    case SetFlag =>
      if d.turn.Taken? {
        ChangeIsCalm(s, d.turn.op, s.ops[d.turn.op].(cancelled := true), Cancelling(d.msg, d.op));
      } else {
        GotoIsCalm(s, Cancelling(d.msg, d.op));
      }
    case CallCancel => ChangeIsCalm(s, d.op, s.ops[d.op].(ctxDone := true), AwaitingDone(d.msg, d.op));
    case SeeDone => GotoIsCalm(s, Answering(d.msg, CancelDone(d.op)));
    case SeeShutdown => GotoIsCalm(s, Answering(d.msg, Error(INTERNAL_ERROR)));
  }

  lemma SteerIsCalm(s: State, st: Step)
    requires Enabled(s, st) && OfSteer(st)
    ensures Calm(s, Apply(s, st)) && Apply(s, st).accepted == s.accepted && SameCancelled(s, Apply(s, st))
  {
    var d := s.dispatcher;
    match st
    case SendSteer => ChangeIsCalm(s, d.op, s.ops[d.op].(steerFull := true), SteerCalling(d.msg, d.op));
    case SteerGone => GotoIsCalm(s, Answering(d.msg, Error(NO_TURN_IN_PROGRESS)));
    case SteerReturn(a) => GotoIsCalm(s, Answering(d.msg, a));
  }

  lemma CalmStep(s: State, st: Step)
    requires Enabled(s, st) && !Loud(st) && (OfServe(st) || OfLoop(st) || OfCancel(st) || OfSteer(st))
    ensures Calm(s, Apply(s, st)) && (!st.Enqueue? ==> Apply(s, st).accepted == s.accepted)
    ensures !st.SetFlag? ==> SameCancelled(s, Apply(s, st))
  {
    if OfCancel(st) {
      CancelIsCalm(s, st);
    } else if OfSteer(st) {
      SteerIsCalm(s, st);
    }
  }

  // Operation i moves from o to o'.
  predicate Moves(st: Step, o: Op, o': Op) {
    && o'.kind == o.kind && o'.msg == o.msg && o'.cancelled == o.cancelled
    && match st
       case AgentEmit(_) => o' == o
       case TakeSteer(_) => o'.phase == o.phase && SameButFlags(o, o')
       case AgentReturn(_, _) =>
         && o.phase.Running? && o'.phase == (if o.kind.Turn? then EmitEnd else Respond)
         && o'.done == o.done && o'.ctxDone == o.ctxDone
       case EmitBegin(_, _) => (o'.phase.Running? || o'.phase.EmitEnd?) && o'.done == o.done && o'.ctxDone == o.ctxDone
       case TurnEnds(_) => o.phase.EmitEnd? && o' == o.(phase := CloseDone)
       case TurnCloses(_) => o.phase.CloseDone? && o' == o.(phase := ClearSlot, ctxDone := true, done := true)
       case TurnGivesBack(_) => o.phase.ClearSlot? && o' == o.(phase := ReadFlag)
       case TurnSettles(_) =>
         && o.phase.ReadFlag?
         && o' == o.(phase := Respond, wasCancelled := o.cancelled, answer := PromptAnswer(o.outcome, o.cancelled))
       case TurnResponds(_) => o.phase.Respond? && o' == o.(phase := Finished)
       case ReplayResponds(_) => o.phase.Respond? && o' == o.(phase := ClearSlot)
       case ReplayGivesBack(_) => o.phase.ClearSlot? && o' == o.(phase := CloseDone)
       case ReplayCloses(_) => o.phase.CloseDone? && o' == o.(phase := Finished, done := true)
       case _ => false
  }

  // One operation moves; the slot may only be emptied.
  ghost predicate OneMoves(s: State, st: Step, i: nat, s': State) {
    && s'.accepted == s.accepted && s'.evicted == s.evicted && s'.cleared == s.cleared && s'.ctxDone == s.ctxDone
    && i < |s.ops| == |s'.ops| && Moves(st, s.ops[i], s'.ops[i])
    && (forall j: nat | j < |s.ops| && j != i :: s'.ops[j] == s.ops[j])
    && (s'.activeOp == s.activeOp || (s'.activeOp.Free? && (st.TurnGivesBack? || st.ReplayGivesBack?)))
    && (s'.dispatcher == s.dispatcher || s'.dispatcher.Idle? || s'.dispatcher.Ending?)
    && (!Loud(st) ==> s'.log == s.log)
  }

  lemma ReturnMoves(s: State, st: Step)
    requires Enabled(s, st) && st.AgentReturn?
    ensures OneMoves(s, st, st.op, Apply(s, st))
  {
  }

  lemma AgentMoves(s: State, st: Step)
    requires Enabled(s, st) && OfAgent(st)
    ensures OneMoves(s, st, st.op, Apply(s, st))
  {
    if st.AgentReturn? {
      ReturnMoves(s, st);
    }
  }

  lemma TurnBegins(s: State, st: Step, i: nat, ok: bool, failure: Outcome)
    requires i < |s.ops| && st.EmitBegin?
    ensures OneMoves(s, st, i, BeginTurn(s, i, ok, failure))
  {
  }

  lemma BeginMoves(s: State, st: Step)
    requires Enabled(s, st) && st.EmitBegin?
    ensures OneMoves(s, st, s.dispatcher.op, Apply(s, st))
  {
    TurnBegins(s, st, s.dispatcher.op, st.ok, st.failure);
  }

  lemma TurnMoves(s: State, st: Step)
    requires Enabled(s, st) && OfTurnEnd(st)
    ensures OneMoves(s, st, st.op, Apply(s, st))
  {
    match st
    case TurnEnds(_) =>
    case TurnCloses(_) =>
    case TurnGivesBack(_) =>
    case TurnSettles(_) =>
    case TurnResponds(_) =>
  }

  lemma ReplayMoves(s: State, st: Step)
    requires Enabled(s, st) && OfReplayEnd(st)
    ensures OneMoves(s, st, st.op, Apply(s, st))
  {
  }

  // The operation a step belongs to.
  predicate Mover(s: State, st: Step, i: nat) {
    if st.EmitBegin? then s.dispatcher == Beginning(i)
    else (OfAgent(st) || OfTurnEnd(st) || OfReplayEnd(st)) && st.op == i
  }

  lemma OpMoves(s: State, st: Step, i: nat)
    requires Enabled(s, st) && Mover(s, st, i)
    ensures OneMoves(s, st, i, Apply(s, st))
  {
    if OfAgent(st) {
      AgentMoves(s, st);
    } else if OfTurnEnd(st) {
      TurnMoves(s, st);
    } else if OfReplayEnd(st) {
      ReplayMoves(s, st);
    } else {
      BeginMoves(s, st);
    }
  }

  lemma HandlerIsQuiet(s: State, k: nat, a: Answer)
    requires k < |s.accepted| && k < |s.owner|
    ensures Handle(s, k, a).log == s.log && Handle(s, k, a).accepted == s.accepted
  {
  }

  // A step that does not write leaves the log alone, and only the reader accepts messages.
  lemma QuietStep(s: State, st: Step)
    requires Enabled(s, st) && !Loud(st)
    ensures Apply(s, st).log == s.log && (!st.Enqueue? ==> Apply(s, st).accepted == s.accepted)
  {
    if st.RunHandler? {
      HandlerIsQuiet(s, s.dispatcher.msg, st.inPlace);
    } else if OfServe(st) || OfLoop(st) || OfCancel(st) || OfSteer(st) {
      CalmStep(s, st);
    } else if !st.ClearActiveTurn? {
      OpMoves(s, st, st.op);
    }
  }

  lemma AcceptedStays(s: State, st: Step)
    requires Enabled(s, st) && !st.Enqueue?
    ensures Apply(s, st).accepted == s.accepted
  {
    if !Loud(st) {
      QuietStep(s, st);
    } else if !OfLoop(st) {
      OpMoves(s, st, if st.EmitBegin? then s.dispatcher.op else st.op);
    }
  }

  // A step adds one write to the log, or none.
  lemma LogStep(s: State, st: Step)
    requires Enabled(s, st)
    ensures var s' := Apply(s, st); if Loud(st) then s'.log.Then? && s'.log.before == s.log else s'.log == s.log
  {
    if !Loud(st) {
      QuietStep(s, st);
    }
  }

  // The schedule takes a step only if its guard holds.
  function After(s: State, st: Step): State {
    if Enabled(s, st) then Apply(s, st) else s
  }

  // The step was taken at some point of the schedule.
  ghost predicate Happened(steerer: bool, replayer: bool, schedule: seq<Step>, st: Step) {
    && schedule != []
    && var before, last := schedule[..|schedule| - 1], schedule[|schedule| - 1];
       || Happened(steerer, replayer, before, st)
       || (last == st && Enabled(Exec(steerer, replayer, before), st))
  }

  lemma {:induction false} HappenedNext(steerer: bool, replayer: bool, before: seq<Step>, last: Step, st: Step)
    ensures Happened(steerer, replayer, before + [last], st) <==>
        Happened(steerer, replayer, before, st) || (last == st && Enabled(Exec(steerer, replayer, before), st))
  {
    assert (before + [last])[..|before|] == before;
  }

  lemma {:induction false} ExecNext(steerer: bool, replayer: bool, before: seq<Step>, st: Step)
    ensures Exec(steerer, replayer, before + [st]) == After(Exec(steerer, replayer, before), st)
  {
    assert (before + [st])[..|before|] == before;
  }
}
