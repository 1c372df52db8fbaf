// What every message is answered, told by the steps that were taken.
module TurnsAnswers {
  import opened Turns
  import opened TurnsInvariant
  import opened TurnsResults
  import opened TurnsSteps
  import TH = TurnsHistory

  // ---------------------------------------------------------------------------------------------
  // How the agent call of an operation ended
  // ---------------------------------------------------------------------------------------------

  // The write of the TurnBegin of operation i failed.
  ghost predicate BeginFailed(steerer: bool, replayer: bool, schedule: seq<Step>, i: nat, failure: Outcome) {
    && schedule != []
    && var before, st := schedule[..|schedule| - 1], schedule[|schedule| - 1]; var s := Exec(steerer, replayer, before);
       || BeginFailed(steerer, replayer, before, i, failure)
       || (Enabled(s, st) && st == EmitBegin(false, failure) && s.dispatcher == Beginning(i))
  }

  // What a taken step makes the outcome of operation i.
  predicate Ends(s: State, st: Step, i: nat, outcome: Outcome) {
    st == AgentReturn(i, outcome) || (st == EmitBegin(false, outcome) && s.dispatcher == Beginning(i))
  }

  // Operation i is past its agent call, with this outcome.
  predicate HasEnded(s: State, i: nat, outcome: Outcome) {
    i < |s.ops| && !s.ops[i].phase.Accepted? && !s.ops[i].phase.Running? && s.ops[i].outcome == outcome
  }

  lemma StartEndsNothing(s: State, k: nat, a: Answer, i: nat, outcome: Outcome)
    requires k < |s.accepted| && k < |s.owner|
    ensures HasEnded(Handle(s, k, a), i, outcome) <==> HasEnded(s, i, outcome)
  {
  }

  lemma DispatcherEndsNothing(s: State, st: Step, i: nat, outcome: Outcome)
    requires Enabled(s, st) && (OfServe(st) || OfLoop(st) || OfCancel(st) || OfSteer(st) || st.ClearActiveTurn?)
    ensures HasEnded(Apply(s, st), i, outcome) <==> HasEnded(s, i, outcome)
  {
    if !Loud(st) && !st.ClearActiveTurn? {
      CalmStep(s, st);
      if i < |s.ops| {
        assert SameButFlags(s.ops[i], Apply(s, st).ops[i]);
      }
    }
  }

  lemma MoverEnds(s: State, st: Step, i: nat, outcome: Outcome)
    requires Enabled(s, st) && (OfTurnEnd(st) || OfReplayEnd(st) || st.AgentEmit? || st.TakeSteer?)
    ensures HasEnded(Apply(s, st), i, outcome) <==> HasEnded(s, i, outcome)
  {
    OpMoves(s, st, st.op);
  }

  predicate OverWith(o: Op, outcome: Outcome) {
    !o.phase.Accepted? && !o.phase.Running? && o.outcome == outcome
  }

  // Only operation i was changed.
  ghost predicate OnlyOp(s: State, s': State, i: nat) {
    i < |s.ops| == |s'.ops| && forall j: nat | j < |s.ops| && j != i :: s'.ops[j] == s.ops[j]
  }

  lemma ReturnSets(s: State, i: nat, returned: Outcome)
    requires i < |s.ops|
    ensures OnlyOp(s, Return(s, i, returned), i) && OverWith(Return(s, i, returned).ops[i], returned)
  {
  }

  lemma BeginSets(s: State, i: nat, ok: bool, failure: Outcome)
    requires i < |s.ops|
    ensures OnlyOp(s, BeginTurn(s, i, ok, failure), i)
    ensures var o := BeginTurn(s, i, ok, failure).ops[i]; if ok then o.phase.Running? else OverWith(o, failure)
  {
  }

  lemma OnlyOpEnds(s: State, s': State, j: nat, i: nat, outcome: Outcome)
    requires OnlyOp(s, s', j) && (s.ops[j].phase.Accepted? || s.ops[j].phase.Running?)
    ensures HasEnded(s', i, outcome) <==> HasEnded(s, i, outcome) || (i == j && OverWith(s'.ops[j], outcome))
  {
  }

  lemma CallEnds(s: State, st: Step, i: nat, outcome: Outcome)
    requires DispatcherOk(s) && Enabled(s, st) && (st.AgentReturn? || st.EmitBegin?)
    ensures HasEnded(Apply(s, st), i, outcome) <==> HasEnded(s, i, outcome) || Ends(s, st, i, outcome)
  {
    if st.AgentReturn? {
      ReturnSets(s, st.op, st.outcome);
      OnlyOpEnds(s, Apply(s, st), st.op, i, outcome);
    } else {
      BeginSets(s, s.dispatcher.op, st.ok, st.failure);
      OnlyOpEnds(s, Apply(s, st), s.dispatcher.op, i, outcome);
    }
  }

  lemma StepEnds(s: State, st: Step, i: nat, outcome: Outcome)
    requires DispatcherOk(s) && Enabled(s, st)
    ensures HasEnded(Apply(s, st), i, outcome) <==> HasEnded(s, i, outcome) || Ends(s, st, i, outcome)
  {
    if st.RunHandler? {
      StartEndsNothing(s, s.dispatcher.msg, st.inPlace, i, outcome);
    } else if OfServe(st) || OfLoop(st) || OfCancel(st) || OfSteer(st) || st.ClearActiveTurn? {
      DispatcherEndsNothing(s, st, i, outcome);
    } else if st.AgentReturn? || st.EmitBegin? {
      CallEnds(s, st, i, outcome);
    } else {
      MoverEnds(s, st, i, outcome);
    }
  }

  // The outcome of an operation is the one with which its agent call returned or, for a turn that could not
  // begin, the failure of that write.
  lemma {:induction false} OutcomeExactly(
    steerer: bool, replayer: bool, schedule: seq<Step>, i: nat, outcome: Outcome)
    ensures HasEnded(Exec(steerer, replayer, schedule), i, outcome) <==>
            || Happened(steerer, replayer, schedule, AgentReturn(i, outcome))
            || BeginFailed(steerer, replayer, schedule, i, outcome)
  {
    if schedule != [] {
      var before, st := schedule[..|schedule| - 1], schedule[|schedule| - 1];
      OutcomeExactly(steerer, replayer, before, i, outcome);
      Invariant(steerer, replayer, before);
      if Enabled(Exec(steerer, replayer, before), st) {
        StepEnds(Exec(steerer, replayer, before), st, i, outcome);
      }
    }
  }

  // Only turns begin.
  lemma {:induction false} BeginFailedIsTurn(
    steerer: bool, replayer: bool, schedule: seq<Step>, i: nat, failure: Outcome)
    requires BeginFailed(steerer, replayer, schedule, i, failure)
    ensures var s := Exec(steerer, replayer, schedule); i < |s.ops| && s.ops[i].kind.Turn?
  {
    var before, st := schedule[..|schedule| - 1], schedule[|schedule| - 1];
    var s := Exec(steerer, replayer, before);
    Invariant(steerer, replayer, before);
    if BeginFailed(steerer, replayer, before, i, failure) {
      BeginFailedIsTurn(steerer, replayer, before, i, failure);
    }
    if Enabled(s, st) {
      TH.StepKept(s, st, i);
    }
  }

  // ---------------------------------------------------------------------------------------------
  // Replays and prompts
  // ---------------------------------------------------------------------------------------------

  // The reply of a replay: the agent's result, "cancelled" after context.Canceled, and an internal error
  // after any other error and after a panic.
  ghost predicate RepliesAsReplay(steerer: bool, replayer: bool, schedule: seq<Step>, i: nat, a: Answer) {
    && (forall v :: a == AgentResult(v) <==> Happened(steerer, replayer, schedule, AgentReturn(i, Returned(v))))
    && (a.ReplayCancelled? <==>
          exists code :: Happened(steerer, replayer, schedule, AgentReturn(i, Failed(code, true))))
    && (a == Error(-32603) <==>
          || (exists code :: Happened(steerer, replayer, schedule, AgentReturn(i, Failed(code, false))))
          || Happened(steerer, replayer, schedule, AgentReturn(i, Panicked)))
    && (a.AgentResult? || a.ReplayCancelled? || a == Error(-32603))
  }

  lemma {:induction false} ReplayOutcome(
    steerer: bool, replayer: bool, schedule: seq<Step>, i: nat, outcome: Outcome)
    requires var s := Exec(steerer, replayer, schedule);
             i < |s.ops| && s.ops[i].kind.Replaying? && !s.ops[i].phase.Running?
    ensures Happened(steerer, replayer, schedule, AgentReturn(i, outcome)) <==>
            Exec(steerer, replayer, schedule).ops[i].outcome == outcome
  {
    var s := Exec(steerer, replayer, schedule);
    Invariant(steerer, replayer, schedule);
    assert OpOk(s.activeOp, s.evicted, s.dispatcher, s.owner, s.log, i, s.ops[i]);
    OutcomeExactly(steerer, replayer, schedule, i, outcome);
    if BeginFailed(steerer, replayer, schedule, i, outcome) {
      BeginFailedIsTurn(steerer, replayer, schedule, i, outcome);
    }
  }

  lemma {:induction false} ReplayAnswered(steerer: bool, replayer: bool, schedule: seq<Step>, i: nat)
    requires var s := Exec(steerer, replayer, schedule);
             i < |s.ops| && s.ops[i].kind.Replaying? && !s.ops[i].phase.Running? && !s.ops[i].phase.Respond?
    ensures exists r ::
              && CompletedReplay(Exec(steerer, replayer, schedule), i, r)
              && RepliesAsReplay(steerer, replayer, schedule, i, r.answer)
  {
    ReplayOrder(steerer, replayer, schedule, i);
    var s := Exec(steerer, replayer, schedule);
    var r :| CompletedReplay(s, i, r);
    forall outcome
      ensures Happened(steerer, replayer, schedule, AgentReturn(i, outcome)) <==> s.ops[i].outcome == outcome
    {
      ReplayOutcome(steerer, replayer, schedule, i, outcome);
    }
    assert RepliesAsReplay(steerer, replayer, schedule, i, r.answer);
  }

  // The agent call of turn i ended so, or its TurnBegin could not be written.
  ghost predicate EndedWith(steerer: bool, replayer: bool, schedule: seq<Step>, i: nat, outcome: Outcome) {
    || Happened(steerer, replayer, schedule, AgentReturn(i, outcome))
    || BeginFailed(steerer, replayer, schedule, i, outcome)
  }

  // The reply of a prompt: "cancelled" if a cancel came in time or the call failed with context.Canceled;
  // otherwise the agent's result or its error, with the error's own code if it has one.
  ghost predicate RepliesAsPrompt(steerer: bool, replayer: bool, schedule: seq<Step>, i: nat, a: Answer) {
    var inTime := TH.CancelledInTime(steerer, replayer, schedule, i);
    && (a.PromptCancelled? <==> inTime || exists code :: EndedWith(steerer, replayer, schedule, i, Failed(code, true)))
    && (forall v :: a == AgentResult(v) <==> !inTime && EndedWith(steerer, replayer, schedule, i, Returned(v)))
    && (forall n | n != 0 && n != -32603 ::
          a == Error(n) <==> !inTime && EndedWith(steerer, replayer, schedule, i, Failed(n, false)))
    && (a == Error(-32603) <==>
          && !inTime
          && (|| EndedWith(steerer, replayer, schedule, i, Panicked)
              || EndedWith(steerer, replayer, schedule, i, Failed(0, false))
              || EndedWith(steerer, replayer, schedule, i, Failed(-32603, false))))
    && (a.PromptCancelled? || a.AgentResult? || (a.Error? && a.code != 0))
  }

  lemma {:induction false} PromptAnswered(steerer: bool, replayer: bool, schedule: seq<Step>, i: nat)
    requires var s := Exec(steerer, replayer, schedule); i < |s.ops| && s.ops[i].kind.Turn? && s.ops[i].phase.Finished?
    ensures exists r ::
              && CompletedTurn(Exec(steerer, replayer, schedule), i, r)
              && RepliesAsPrompt(steerer, replayer, schedule, i, r.answer)
  {
    TurnOrder(steerer, replayer, schedule, i);
    TH.ReadsFlag(steerer, replayer, schedule, i);
    var s := Exec(steerer, replayer, schedule);
    var r :| CompletedTurn(s, i, r);
    forall outcome ensures EndedWith(steerer, replayer, schedule, i, outcome) <==> s.ops[i].outcome == outcome {
      OutcomeExactly(steerer, replayer, schedule, i, outcome);
    }
    assert RepliesAsPrompt(steerer, replayer, schedule, i, r.answer);
  }

  // ---------------------------------------------------------------------------------------------
  // What the handlers answer themselves
  // ---------------------------------------------------------------------------------------------

  // The first section of the handler of message k answers it.
  ghost predicate Refuses(s: State, k: nat, inPlace: Answer, a: Answer)
    requires k < |s.accepted|
  {
    var m := s.accepted[k];
    var busy := exists i: nat :: InProgress(s, i);
    var turn := exists i: nat :: InProgress(s, i) && s.ops[i].kind.Turn?;
    match m.verb
    case Prompt => if !m.wellFormed then a == Error(-32602) else busy && a == Error(-32000)
    case Replay => if !s.replayer then a == Error(-32601) else busy && a == Error(-32000)
    case Cancel => !busy && a == Error(-32001)
    case Steer =>
      if !s.steerer then a == Error(-32601)
      else if !m.wellFormed then a == Error(-32602)
      else !turn && a == Error(-32001)
    case InPlace => a == inPlace
  }

  // The step decides what message k is answered by its handler: a refusal, the answer to a cancel whose target
  // is done or which the shutdown cut off, or the answer to a steer whose turn is gone or was steered.
  ghost predicate Decides(s: State, st: Step, k: nat, a: Answer) {
    && Enabled(s, st)
    && match st
       case RunHandler(inPlace) => s.dispatcher == Handling(k) && k < |s.accepted| && Refuses(s, k, inPlace, a)
       case SeeDone => exists i: nat :: s.dispatcher == AwaitingDone(k, i) && s.ops[i].done && a == CancelDone(i)
       case SeeShutdown => (exists i: nat :: s.dispatcher == AwaitingDone(k, i)) && s.ctxDone && a == Error(-32603)
       case SteerGone => (exists i: nat :: s.dispatcher == SteerSending(k, i)) && a == Error(-32001)
       case SteerReturn(b) =>
         (exists i: nat :: s.dispatcher == SteerCalling(k, i)) && a == b && (a == Steered || a == Error(-32603))
       case _ => false
  }

  ghost predicate Decided(steerer: bool, replayer: bool, schedule: seq<Step>, k: nat, a: Answer) {
    && schedule != []
    && var before, st := schedule[..|schedule| - 1], schedule[|schedule| - 1];
       Decided(steerer, replayer, before, k, a) || Decides(Exec(steerer, replayer, before), st, k, a)
  }

  // The dispatcher is about to write this answer to message k, or has written it.
  predicate Answers(s: State, k: nat, a: Answer) {
    s.dispatcher == Answering(k, a) || Gave(s.log, k, a, Handler)
  }

  lemma BusyExactly(s: State)
    requires Inv(s)
    ensures SlotBusy(s) <==> exists i: nat :: InProgress(s, i)
    ensures s.activeTurn.Taken? <==> exists i: nat :: InProgress(s, i) && s.ops[i].kind.Turn?
  {
    forall i: nat ensures InProgress(s, i) <==> s.activeOp == Taken(i) {
      InProgressExactly(s, i);
    }
    if s.activeOp.Taken? {
      assert InProgress(s, s.activeOp.op);
    }
  }

  lemma JudgeRefuses(s: State, k: nat, inPlace: Answer, a: Answer)
    requires k < |s.accepted|
    requires SlotBusy(s) <==> exists i: nat :: InProgress(s, i)
    requires s.activeOp.Taken? <==> exists i: nat :: InProgress(s, i)
    requires s.activeTurn.Taken? <==> exists i: nat :: InProgress(s, i) && s.ops[i].kind.Turn?
    ensures Judge(s, k, inPlace) == Go(Answering(k, a)) <==> Refuses(s, k, inPlace, a)
  {
  }

  lemma JudgesOwn(s: State, k: nat, inPlace: Answer)
    requires k < |s.accepted|
    ensures var v := Judge(s, k, inPlace); v.Go? && v.d.Answering? ==> v.d.msg == k
  {
  }

  lemma HandledDispatcher(s: State, k: nat, inPlace: Answer)
    requires k < |s.accepted| && k < |s.owner|
    ensures var v, d := Judge(s, k, inPlace), Handle(s, k, inPlace).dispatcher;
            if v.Go? then d == v.d else !d.Answering?
  {
  }

  lemma JudgeAnswers(s: State, k: nat, inPlace: Answer, j: nat, a: Answer)
    requires s.dispatcher == Handling(k) && k < |s.accepted| && k < |s.owner|
    ensures Answers(Handle(s, k, inPlace), j, a) <==>
        Answers(s, j, a) || (j == k && Judge(s, k, inPlace) == Go(Answering(k, a)))
  {
    HandlerIsQuiet(s, k, inPlace);
    HandledDispatcher(s, k, inPlace);
    JudgesOwn(s, k, inPlace);
  }

  lemma HandlerAnswers(s: State, k: nat, inPlace: Answer, j: nat, a: Answer)
    requires Inv(s) && s.dispatcher == Handling(k)
    ensures Answers(Handle(s, k, inPlace), j, a) <==> Answers(s, j, a) || (j == k && Refuses(s, k, inPlace, a))
  {
    BusyExactly(s);
    JudgeAnswers(s, k, inPlace, j, a);
    JudgeRefuses(s, k, inPlace, a);
  }

  lemma WaitAnswers(s: State, st: Step, k: nat, a: Answer)
    requires Enabled(s, st) && (OfCancel(st) || OfSteer(st))
    ensures Answers(Apply(s, st), k, a) <==> Answers(s, k, a) || Decides(s, st, k, a)
  {
    if OfCancel(st) {
      CancelIsCalm(s, st);
    } else {
      SteerIsCalm(s, st);
    }
  }

  lemma LoopAnswers(s: State, st: Step, k: nat, a: Answer)
    requires Enabled(s, st) && OfLoop(st)
    ensures Answers(Apply(s, st), k, a) <==> Answers(s, k, a)
  {
  }

  lemma OthersAnswer(s: State, st: Step, k: nat, a: Answer)
    requires Enabled(s, st) && (OfServe(st) || st.EmitBegin? || st.ClearActiveTurn?)
    ensures Answers(Apply(s, st), k, a) <==> Answers(s, k, a)
  {
    if st.EmitBegin? {
      BeginAnswers(s, s.dispatcher.op, st.ok, st.failure, k, a);
    }
  }

  lemma BeginAnswers(s: State, i: nat, ok: bool, failure: Outcome, k: nat, a: Answer)
    requires i < |s.ops| && s.dispatcher == Beginning(i)
    ensures Answers(BeginTurn(s, i, ok, failure), k, a) <==> Answers(s, k, a)
  {
    var s' := BeginTurn(s, i, ok, failure);
    assert s'.log == Then(s.log, Begin(i)) && !s'.dispatcher.Answering?;
  }

  lemma OpsAnswer(s: State, st: Step, k: nat, a: Answer)
    requires Enabled(s, st) && (OfAgent(st) || OfTurnEnd(st) || OfReplayEnd(st))
    ensures Answers(Apply(s, st), k, a) <==> Answers(s, k, a)
  {
    OpMoves(s, st, st.op);
    LogStep(s, st);
  }

  lemma StepAnswers(s: State, st: Step, k: nat, a: Answer)
    requires Inv(s) && Enabled(s, st)
    ensures Answers(Apply(s, st), k, a) <==> Answers(s, k, a) || Decides(s, st, k, a)
  {
    if st.RunHandler? {
      HandlerAnswers(s, s.dispatcher.msg, st.inPlace, k, a);
    } else if OfCancel(st) || OfSteer(st) {
      WaitAnswers(s, st, k, a);
    } else if OfAgent(st) || OfTurnEnd(st) || OfReplayEnd(st) {
      OpsAnswer(s, st, k, a);
    } else if OfLoop(st) {
      LoopAnswers(s, st, k, a);
    } else {
      OthersAnswer(s, st, k, a);
    }
  }

  // The handler of a message gives an answer exactly if one of its sections decided so.
  lemma {:induction false} HandlerAnswersExactly(
    steerer: bool, replayer: bool, schedule: seq<Step>, k: nat, a: Answer)
    ensures Answers(Exec(steerer, replayer, schedule), k, a) <==> Decided(steerer, replayer, schedule, k, a)
  {
    if schedule != [] {
      var before, st := schedule[..|schedule| - 1], schedule[|schedule| - 1];
      HandlerAnswersExactly(steerer, replayer, before, k, a);
      Invariant(steerer, replayer, before);
      if Enabled(Exec(steerer, replayer, before), st) {
        StepAnswers(Exec(steerer, replayer, before), st, k, a);
      }
    }
  }
}
