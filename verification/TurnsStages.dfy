// How far each operation is, told by the steps that were taken.
module TurnsStages {
  import opened Turns
  import opened TurnsInvariant
  import opened TurnsResults
  import opened TurnsSteps

  // The place of an operation's next section in the order of its sections.
  function Stage(o: Op): nat {
    if o.kind.Turn? then
      match o.phase
      case Accepted => 1
      case Running => 2
      case EmitEnd => 3
      case CloseDone => 4
      case ClearSlot => 5
      case ReadFlag => 6
      case Respond => 7
      case Finished => 8
    else
      match o.phase
      case Running => 2
      case Respond => 3
      case ClearSlot => 4
      case CloseDone => 5
      case Finished => 6
      case _ => 0
  }

  predicate IsAt(s: State, i: nat, kind: Kind, stage: nat) {
    i < |s.ops| && s.ops[i].kind == kind && stage <= Stage(s.ops[i])
  }

  predicate Begins(s: State, st: Step, i: nat) {
    st.EmitBegin? && s.dispatcher == Beginning(i)
  }

  predicate Returns(s: State, st: Step, i: nat, kind: Kind) {
    st.AgentReturn? && st.op == i && i < |s.ops| && s.ops[i].kind == kind
  }

  // The step takes operation i to this stage, or past it.
  predicate Reaches(s: State, st: Step, i: nat, kind: Kind, stage: nat) {
    if kind.Turn? then
      match stage
      case 2 => Begins(s, st, i)
      case 3 => Returns(s, st, i, kind) || (Begins(s, st, i) && !st.ok)
      case 4 => st == TurnEnds(i)
      case 5 => st == TurnCloses(i)
      case 6 => st == TurnGivesBack(i)
      case 7 => st == TurnSettles(i)
      case 8 => st == TurnResponds(i)
      case _ => false
    else
      match stage
      case 3 => Returns(s, st, i, kind)
      case 4 => st == ReplayResponds(i)
      case 5 => st == ReplayGivesBack(i)
      case 6 => st == ReplayCloses(i)
      case _ => false
  }

  predicate IsStage(kind: Kind, stage: nat) {
    if kind.Turn? then 2 <= stage <= 8 else 3 <= stage <= 6
  }

  ghost predicate Reached(steerer: bool, replayer: bool, schedule: seq<Step>, i: nat, kind: Kind, stage: nat) {
    && schedule != []
    && var before, st := schedule[..|schedule| - 1], schedule[|schedule| - 1]; var s := Exec(steerer, replayer, before);
       || Reached(steerer, replayer, before, i, kind, stage)
       || (Enabled(s, st) && Reaches(s, st, i, kind, stage))
  }

  lemma StartStage(s: State, k: nat, a: Answer, i: nat, kind: Kind, stage: nat)
    requires k < |s.accepted| && k < |s.owner| && IsStage(kind, stage)
    ensures IsAt(Handle(s, k, a), i, kind, stage) <==> IsAt(s, i, kind, stage)
  {
  }

  lemma DispatcherStage(s: State, st: Step, i: nat, kind: Kind, stage: nat)
    requires Enabled(s, st) && (OfServe(st) || OfLoop(st) || OfCancel(st) || OfSteer(st) || st.ClearActiveTurn?)
    ensures IsAt(Apply(s, st), i, kind, stage) <==> IsAt(s, i, kind, stage)
  {
    if !Loud(st) && !st.ClearActiveTurn? {
      CalmStep(s, st);
      if i < |s.ops| {
        assert SameButFlags(s.ops[i], Apply(s, st).ops[i]);
      }
    }
  }

  lemma TurnEndStage(s: State, st: Step, i: nat, kind: Kind, stage: nat)
    requires Enabled(s, st) && OfTurnEnd(st) && IsStage(kind, stage)
    ensures IsAt(Apply(s, st), i, kind, stage) <==> IsAt(s, i, kind, stage) || Reaches(s, st, i, kind, stage)
  {
    OpMoves(s, st, st.op);
  }

  lemma ReplayEndStage(s: State, st: Step, i: nat, kind: Kind, stage: nat)
    requires Enabled(s, st) && OfReplayEnd(st) && IsStage(kind, stage)
    ensures IsAt(Apply(s, st), i, kind, stage) <==> IsAt(s, i, kind, stage) || Reaches(s, st, i, kind, stage)
  {
    OpMoves(s, st, st.op);
  }

  lemma AgentStage(s: State, st: Step, i: nat, kind: Kind, stage: nat)
    requires Enabled(s, st) && OfAgent(st) && IsStage(kind, stage)
    ensures IsAt(Apply(s, st), i, kind, stage) <==> IsAt(s, i, kind, stage) || Reaches(s, st, i, kind, stage)
  {
    OpMoves(s, st, st.op);
  }

  lemma BeginStage(s: State, j: nat, ok: bool, failure: Outcome, i: nat, stage: nat)
    requires j < |s.ops| && s.ops[j].kind.Turn? && s.ops[j].phase.Accepted? && 2 <= stage
    ensures IsAt(BeginTurn(s, j, ok, failure), i, Turn, stage) <==>
        IsAt(s, i, Turn, stage) || (i == j && stage <= if ok then 2 else 3)
    ensures IsAt(BeginTurn(s, j, ok, failure), i, Replaying, stage) <==> IsAt(s, i, Replaying, stage)
  {
  }

  lemma StageNext(s: State, st: Step, i: nat, kind: Kind, stage: nat)
    requires DispatcherOk(s) && Enabled(s, st) && IsStage(kind, stage)
    ensures IsAt(Apply(s, st), i, kind, stage) <==> IsAt(s, i, kind, stage) || Reaches(s, st, i, kind, stage)
  {
    if st.RunHandler? {
      StartStage(s, s.dispatcher.msg, st.inPlace, i, kind, stage);
    } else if OfTurnEnd(st) {
      TurnEndStage(s, st, i, kind, stage);
    } else if OfReplayEnd(st) {
      ReplayEndStage(s, st, i, kind, stage);
    } else if OfAgent(st) {
      AgentStage(s, st, i, kind, stage);
    } else if st.EmitBegin? {
      BeginStage(s, s.dispatcher.op, st.ok, st.failure, i, stage);
    } else {
      DispatcherStage(s, st, i, kind, stage);
    }
  }

  // An operation runs its sections in order, and is past each of them exactly if that section was run: none
  // is skipped, and none has no effect.
  lemma {:induction false} StageExactly(
    steerer: bool, replayer: bool, schedule: seq<Step>, i: nat, kind: Kind, stage: nat)
    requires IsStage(kind, stage)
    ensures IsAt(Exec(steerer, replayer, schedule), i, kind, stage) <==>
            Reached(steerer, replayer, schedule, i, kind, stage)
  {
    if schedule != [] {
      var before, st := schedule[..|schedule| - 1], schedule[|schedule| - 1];
      StageExactly(steerer, replayer, before, i, kind, stage);
      Invariant(steerer, replayer, before);
      if Enabled(Exec(steerer, replayer, before), st) {
        StageNext(Exec(steerer, replayer, before), st, i, kind, stage);
      }
    }
  }

  // After its end gave the slot back, an operation does not hold it again.
  lemma {:induction false} GivenBack(steerer: bool, replayer: bool, schedule: seq<Step>, i: nat)
    requires || Reached(steerer, replayer, schedule, i, Turn, 6)
             || Reached(steerer, replayer, schedule, i, Replaying, 5)
    ensures var s := Exec(steerer, replayer, schedule); s.activeOp != Taken(i) && s.activeTurn != Taken(i)
  {
    var s := Exec(steerer, replayer, schedule);
    Invariant(steerer, replayer, schedule);
    StageExactly(steerer, replayer, schedule, i, Turn, 6);
    StageExactly(steerer, replayer, schedule, i, Replaying, 5);
    assert OpOk(s.activeOp, s.evicted, s.dispatcher, s.owner, s.log, i, s.ops[i]);
  }
}
