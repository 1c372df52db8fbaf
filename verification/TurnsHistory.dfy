// What a turn's flag and the answers in the log go back to.
module TurnsHistory {
  import opened Turns
  import opened TurnsInvariant
  import opened TurnsResults
  import opened TurnsSteps

  // ---------------------------------------------------------------------------------------------
  // The fate of one operation
  // ---------------------------------------------------------------------------------------------

  predicate Settled(o: Op) {
    o.kind.Turn? && (o.phase.Respond? || o.phase.Finished?)
  }

  // The step sets the flag of turn i.
  predicate Flags(s: State, st: Step, i: nat) {
    st.SetFlag? && s.dispatcher.Flagging? && s.dispatcher.turn == Taken(i)
  }

  // What one step does to operation i.
  ghost predicate Kept(s: State, st: Step, i: nat, o: Op, o': Op) {
    && o'.kind == o.kind && o'.msg == o.msg
    && (o'.cancelled <==> o.cancelled || Flags(s, st, i))
    && (Settled(o') <==> Settled(o) || st == TurnSettles(i))
    && (Settled(o) ==> o'.wasCancelled == o.wasCancelled)
    && (st == TurnSettles(i) ==> o'.wasCancelled == o.cancelled)
  }

  lemma FlagKept(s: State, i: nat)
    requires Enabled(s, SetFlag) && i < |s.ops|
    ensures Kept(s, SetFlag, i, s.ops[i], Apply(s, SetFlag).ops[i])
  {
  }

  // A move of operation i, seen from operation i.
  lemma MoveSettles(st: Step, i: nat, o: Op, o': Op)
    requires Moves(st, o, o') && LocalOk(o) && (st.EmitBegin? ==> o.phase.Accepted?) && (!st.EmitBegin? ==> st.op == i)
    requires OfTurnEnd(st) ==> o.kind.Turn?
    requires OfReplayEnd(st) ==> o.kind.Replaying?
    ensures Settled(o') <==> Settled(o) || st == TurnSettles(i)
    ensures Settled(o) ==> o'.wasCancelled == o.wasCancelled
    ensures st == TurnSettles(i) ==> o'.wasCancelled == o.cancelled
  {
  }

  lemma EnderKind(s: State, st: Step)
    requires Enabled(s, st) && (OfTurnEnd(st) || OfReplayEnd(st))
    ensures st.op < |s.ops| && s.ops[st.op].kind == if OfTurnEnd(st) then Turn else Replaying
  {
  }

  lemma MoverKind(s: State, st: Step, j: nat)
    requires Inv(s) && Enabled(s, st) && Mover(s, st, j)
    ensures j < |s.ops| && LocalOk(s.ops[j]) && (st.EmitBegin? ==> s.ops[j].phase.Accepted?)
  {
    assert j < |s.ops| by {
      if OfTurnEnd(st) || OfReplayEnd(st) {
        EnderKind(s, st);
      }
    }
    assert OpOk(s.activeOp, s.evicted, s.dispatcher, s.owner, s.log, j, s.ops[j]);
  }

  lemma MovedKept(s: State, st: Step, i: nat, j: nat, s': State)
    requires OneMoves(s, st, j, s') && Mover(s, st, j) && i < |s.ops|
    requires LocalOk(s.ops[j]) && (st.EmitBegin? ==> s.ops[j].phase.Accepted?)
    requires OfTurnEnd(st) ==> s.ops[j].kind.Turn?
    requires OfReplayEnd(st) ==> s.ops[j].kind.Replaying?
    ensures Kept(s, st, i, s.ops[i], s'.ops[i])
  {
    if i == j {
      MoveSettles(st, i, s.ops[i], s'.ops[i]);
    }
  }

  lemma MoveKept(s: State, st: Step, i: nat, j: nat)
    requires Inv(s) && Enabled(s, st) && Mover(s, st, j) && i < |s.ops|
    ensures |Apply(s, st).ops| == |s.ops| && Kept(s, st, i, s.ops[i], Apply(s, st).ops[i])
  {
    OpMoves(s, st, j);
    MoverKind(s, st, j);
    if OfTurnEnd(st) || OfReplayEnd(st) {
      EnderKind(s, st);
    }
    MovedKept(s, st, i, j, Apply(s, st));
  }

  lemma StartKept(s: State, k: nat, a: Answer, i: nat)
    requires k < |s.accepted| && k < |s.owner| && i < |s.ops|
    ensures i < |Handle(s, k, a).ops| && Handle(s, k, a).ops[i] == s.ops[i]
  {
    StartOutcome(s, k, a);
    var s' := Handle(s, k, a);
    assert |s'.ops| > |s.ops| ==> s'.ops[i] == s'.ops[..|s.ops|][i];
  }

  lemma CalmKept(s: State, st: Step, i: nat)
    requires Enabled(s, st) && !Loud(st) && (OfServe(st) || OfLoop(st) || OfCancel(st) || OfSteer(st))
    requires !st.SetFlag? && i < |s.ops|
    ensures |Apply(s, st).ops| == |s.ops| && Kept(s, st, i, s.ops[i], Apply(s, st).ops[i])
  {
    CalmStep(s, st);
    assert SameButFlags(s.ops[i], Apply(s, st).ops[i]);
  }

  lemma AsideKept(s: State, st: Step, i: nat)
    requires Enabled(s, st) && (st.EmitFromHandler? || st.WriteAnswer? || st.ClearActiveTurn?)
    requires i < |s.ops|
    ensures |Apply(s, st).ops| == |s.ops| && Kept(s, st, i, s.ops[i], Apply(s, st).ops[i])
  {
  }

  lemma DispatcherKept(s: State, st: Step, i: nat)
    requires Enabled(s, st) && i < |s.ops|
    requires OfServe(st) || OfLoop(st) || OfCancel(st) || OfSteer(st) || st.ClearActiveTurn?
    ensures |Apply(s, st).ops| == |s.ops| && Kept(s, st, i, s.ops[i], Apply(s, st).ops[i])
  {
    if st.SetFlag? {
      FlagKept(s, i);
    } else if Loud(st) || st.ClearActiveTurn? {
      AsideKept(s, st, i);
    } else {
      CalmKept(s, st, i);
    }
  }

  lemma StepKept(s: State, st: Step, i: nat)
    requires Inv(s) && Enabled(s, st) && i < |s.ops|
    ensures i < |Apply(s, st).ops| && Kept(s, st, i, s.ops[i], Apply(s, st).ops[i])
  {
    if st.RunHandler? {
      StartKept(s, s.dispatcher.msg, st.inPlace, i);
    } else if OfServe(st) || OfLoop(st) || OfCancel(st) || OfSteer(st) || st.ClearActiveTurn? {
      DispatcherKept(s, st, i);
    } else {
      MoveKept(s, st, i, if st.EmitBegin? then s.dispatcher.op else st.op);
    }
  }

  // A new operation is neither flagged nor settled.
  lemma StartIsFresh(s: State, k: nat, a: Answer, i: nat)
    requires k < |s.accepted| && k < |s.owner| && |s.ops| <= i < |Handle(s, k, a).ops|
    ensures !Handle(s, k, a).ops[i].cancelled && !Settled(Handle(s, k, a).ops[i])
  {
  }

  lemma NewIsFresh(s: State, st: Step, i: nat)
    requires Inv(s) && Enabled(s, st) && |s.ops| <= i < |Apply(s, st).ops|
    ensures st.RunHandler? && !Apply(s, st).ops[i].cancelled && !Settled(Apply(s, st).ops[i])
  {
    if st.RunHandler? {
      StartIsFresh(s, s.dispatcher.msg, st.inPlace, i);
    } else if !st.ClearActiveTurn? {
      StepShrinks(s, st);
    }
  }

  // ---------------------------------------------------------------------------------------------
  // Behind every flag there is a cancel
  // ---------------------------------------------------------------------------------------------

  // The message of the cancel the dispatcher is carrying out.
  function CancelInHand(d: Dispatcher): Slot {
    match d
    case Flagging(k, _, _) => Taken(k)
    case Cancelling(k, _) => Taken(k)
    case AwaitingDone(k, _) => Taken(k)
    case _ => Free
  }

  ghost predicate CancelsOk(s: State) {
    var k := CancelInHand(s.dispatcher);
    k.Taken? ==> k.op < |s.accepted| && s.accepted[k.op].verb.Cancel?
  }

  lemma StartCancelsOk(s: State, k: nat, a: Answer)
    requires k < |s.accepted| && k < |s.owner|
    ensures CancelsOk(Handle(s, k, a))
  {
  }

  lemma DispatcherCancelsOk(s: State, st: Step)
    requires CancelsOk(s) && Enabled(s, st) && (OfLoop(st) || OfCancel(st) || OfSteer(st))
    ensures CancelsOk(Apply(s, st))
  {
  }

  lemma StepCancelsOk(s: State, st: Step)
    requires CancelsOk(s) && Enabled(s, st)
    ensures CancelsOk(Apply(s, st))
  {
    if st.RunHandler? {
      StartCancelsOk(s, s.dispatcher.msg, st.inPlace);
    } else if OfLoop(st) || OfCancel(st) || OfSteer(st) {
      DispatcherCancelsOk(s, st);
    } else if !OfServe(st) && !st.ClearActiveTurn? {
      OpMoves(s, st, if st.EmitBegin? then s.dispatcher.op else st.op);
    }
  }

  lemma {:induction false} CancelsInvariant(steerer: bool, replayer: bool, schedule: seq<Step>)
    ensures CancelsOk(Exec(steerer, replayer, schedule))
  {
    if schedule != [] {
      var before, st := schedule[..|schedule| - 1], schedule[|schedule| - 1];
      CancelsInvariant(steerer, replayer, before);
      if Enabled(Exec(steerer, replayer, before), st) {
        StepCancelsOk(Exec(steerer, replayer, before), st);
      }
    }
  }

  // Step n of the schedule carries out the flag section of an accepted cancel that captured turn i.
  ghost predicate FlaggedAt(steerer: bool, replayer: bool, schedule: seq<Step>, n: nat, i: nat) {
    && n < |schedule|
    && var s := Exec(steerer, replayer, schedule[..n]);
       && Enabled(s, schedule[n]) && Flags(s, schedule[n], i)
       && s.dispatcher.msg < |s.accepted| && s.accepted[s.dispatcher.msg].verb.Cancel?
  }

  // Step m of the schedule is the section of endTurn in which turn i reads its flag.
  ghost predicate SettledAt(steerer: bool, replayer: bool, schedule: seq<Step>, m: nat, i: nat) {
    && m < |schedule| && schedule[m] == TurnSettles(i)
    && Enabled(Exec(steerer, replayer, schedule[..m]), schedule[m])
  }

  lemma {:induction false} FlaggedAtLast(steerer: bool, replayer: bool, before: seq<Step>, st: Step, i: nat)
    ensures var s := Exec(steerer, replayer, before);
            (exists n: nat :: FlaggedAt(steerer, replayer, before + [st], n, i)) <==>
            (exists n: nat :: FlaggedAt(steerer, replayer, before, n, i)) || (Enabled(s, st) && Flags(s, st, i))
  {
    var all := before + [st];
    var s := Exec(steerer, replayer, before);
    CancelsInvariant(steerer, replayer, before);
    forall n: nat | n <= |before| ensures all[..n] == before[..n] {}
    forall n: nat | n < |before|
      ensures FlaggedAt(steerer, replayer, before, n, i) <==> FlaggedAt(steerer, replayer, all, n, i)
    {
    }
    assert before[..|before|] == before && all[|before|] == st;
    assert FlaggedAt(steerer, replayer, all, |before|, i) <==> Enabled(s, st) && Flags(s, st, i);
  }

  // A turn's flag is set exactly if an accepted cancel that captured it set it: no turn is cancelled
  // spuriously.
  lemma {:induction false} FlagHistory(steerer: bool, replayer: bool, schedule: seq<Step>, i: nat)
    ensures var s := Exec(steerer, replayer, schedule);
            (exists n: nat :: FlaggedAt(steerer, replayer, schedule, n, i)) <==> i < |s.ops| && s.ops[i].cancelled
  {
    if schedule != [] {
      var before, st := schedule[..|schedule| - 1], schedule[|schedule| - 1];
      assert schedule == before + [st];
      FlagHistory(steerer, replayer, before, i);
      FlaggedAtLast(steerer, replayer, before, st, i);
      Invariant(steerer, replayer, before);
      ExecNext(steerer, replayer, before, st);
      FlagNext(Exec(steerer, replayer, before), st, i);
    }
  }

  lemma FlagNext(s: State, st: Step, i: nat)
    requires Inv(s)
    ensures var s' := After(s, st);
            i < |s'.ops| && s'.ops[i].cancelled <==>
            (i < |s.ops| && s.ops[i].cancelled) || (Enabled(s, st) && Flags(s, st, i))
  {
    if Enabled(s, st) {
      if i < |s.ops| {
        StepKept(s, st, i);
      } else if i < |Apply(s, st).ops| {
        NewIsFresh(s, st, i);
      }
    }
  }

  // ---------------------------------------------------------------------------------------------
  // The answer of a turn
  // ---------------------------------------------------------------------------------------------

  // What turn i read when it was settled is what its flag was then.
  ghost predicate ReadAt(steerer: bool, replayer: bool, schedule: seq<Step>, m: nat, i: nat, o: Op)
    requires m <= |schedule|
  {
    var s := Exec(steerer, replayer, schedule[..m]);
    i < |s.ops| && Settled(o) && o.wasCancelled == s.ops[i].cancelled
  }

  ghost predicate SettledOnce(steerer: bool, replayer: bool, schedule: seq<Step>, i: nat) {
    var s := Exec(steerer, replayer, schedule);
    && (i < |s.ops| && Settled(s.ops[i]) ==> exists m: nat :: SettledAt(steerer, replayer, schedule, m, i))
    && (forall m: nat | SettledAt(steerer, replayer, schedule, m, i) ::
          i < |s.ops| && ReadAt(steerer, replayer, schedule, m, i, s.ops[i]))
  }

  lemma SettleNext(s: State, st: Step, i: nat)
    requires Inv(s)
    ensures var s' := After(s, st);
            && (i < |s'.ops| && Settled(s'.ops[i]) ==>
                  (i < |s.ops| && Settled(s.ops[i])) || (Enabled(s, st) && st == TurnSettles(i)))
            && (i < |s.ops| && Settled(s.ops[i]) ==>
                  i < |s'.ops| && Settled(s'.ops[i]) && s'.ops[i].wasCancelled == s.ops[i].wasCancelled)
            && (Enabled(s, st) && st == TurnSettles(i) ==>
                  i < |s.ops| == |s'.ops| && Settled(s'.ops[i]) && s'.ops[i].wasCancelled == s.ops[i].cancelled)
  {
    if Enabled(s, st) {
      if i < |s.ops| {
        StepKept(s, st, i);
        if st == TurnSettles(i) {
          OpMoves(s, st, i);
        }
      } else if i < |Apply(s, st).ops| {
        NewIsFresh(s, st, i);
      }
    }
  }

  lemma {:induction false} SettledOnceThen(steerer: bool, replayer: bool, before: seq<Step>, st: Step, i: nat)
    requires SettledOnce(steerer, replayer, before, i)
    ensures SettledOnce(steerer, replayer, before + [st], i)
  {
    var all := before + [st];
    var s := Exec(steerer, replayer, before);
    Invariant(steerer, replayer, before);
    ExecNext(steerer, replayer, before, st);
    SettleNext(s, st, i);
    forall m: nat | m <= |before| ensures all[..m] == before[..m] {}
    forall m: nat | m < |before|
      ensures SettledAt(steerer, replayer, before, m, i) <==> SettledAt(steerer, replayer, all, m, i)
    {
    }
    assert before[..|before|] == before && all[|before|] == st;
    assert SettledAt(steerer, replayer, all, |before|, i) <==> Enabled(s, st) && st == TurnSettles(i);
    var s' := Exec(steerer, replayer, all);
    forall m: nat | SettledAt(steerer, replayer, all, m, i)
      ensures i < |s'.ops| && ReadAt(steerer, replayer, all, m, i, s'.ops[i])
    {
      if m < |before| {
        assert ReadAt(steerer, replayer, before, m, i, s.ops[i]);
      }
    }
  }

  lemma {:induction false} SettledHistory(steerer: bool, replayer: bool, schedule: seq<Step>, i: nat)
    ensures SettledOnce(steerer, replayer, schedule, i)
  {
    if schedule == [] {
      NothingSettled(steerer, replayer, i);
    } else {
      var before, st := schedule[..|schedule| - 1], schedule[|schedule| - 1];
      assert schedule == before + [st];
      SettledHistory(steerer, replayer, before, i);
      SettledOnceThen(steerer, replayer, before, st, i);
    }
  }

  lemma NothingSettled(steerer: bool, replayer: bool, i: nat)
    ensures SettledOnce(steerer, replayer, [], i)
  {
    assert forall m: nat :: !SettledAt(steerer, replayer, [], m, i);
  }

  // An accepted cancel set the flag of turn i before the turn read it.
  ghost predicate CancelledInTime(steerer: bool, replayer: bool, schedule: seq<Step>, i: nat) {
    exists m: nat, n: nat ::
      n < m && FlaggedAt(steerer, replayer, schedule, n, i) && SettledAt(steerer, replayer, schedule, m, i)
  }

  lemma {:induction false} ReadsFlagAt(steerer: bool, replayer: bool, schedule: seq<Step>, i: nat, m: nat)
    requires SettledAt(steerer, replayer, schedule, m, i) && SettledOnce(steerer, replayer, schedule, i)
    ensures var s := Exec(steerer, replayer, schedule);
            i < |s.ops| && (s.ops[i].wasCancelled <==>
                exists n: nat :: n < m && FlaggedAt(steerer, replayer, schedule, n, i))
  {
    FlagHistory(steerer, replayer, schedule[..m], i);
    forall n: nat
      ensures FlaggedAt(steerer, replayer, schedule[..m], n, i) <==>
          n < m && FlaggedAt(steerer, replayer, schedule, n, i)
    {
      if n < m {
        assert schedule[..m][..n] == schedule[..n];
      }
    }
    assert ReadAt(steerer, replayer, schedule, m, i, Exec(steerer, replayer, schedule).ops[i]);
  }

  lemma {:induction false} ReadsFlag(steerer: bool, replayer: bool, schedule: seq<Step>, i: nat)
    requires var s := Exec(steerer, replayer, schedule); i < |s.ops| && Settled(s.ops[i])
    ensures Exec(steerer, replayer, schedule).ops[i].wasCancelled <==> CancelledInTime(steerer, replayer, schedule, i)
  {
    SettledHistory(steerer, replayer, schedule, i);
    forall m: nat | SettledAt(steerer, replayer, schedule, m, i)
      ensures Exec(steerer, replayer, schedule).ops[i].wasCancelled <==>
              exists n: nat :: n < m && FlaggedAt(steerer, replayer, schedule, n, i)
    {
      ReadsFlagAt(steerer, replayer, schedule, i, m);
    }
  }

  // The reply of a finished turn is "cancelled" exactly when an accepted cancel set the turn's flag
  // before the turn read it, or the agent call failed with context.Canceled; it is an error exactly when
  // neither holds and the call failed or panicked.
  lemma {:induction false} CancelledExactly(steerer: bool, replayer: bool, schedule: seq<Step>, i: nat)
    requires var s := Exec(steerer, replayer, schedule); i < |s.ops| && s.ops[i].kind.Turn? && s.ops[i].phase.Finished?
    ensures var s := Exec(steerer, replayer, schedule); var o := s.ops[i];
            exists r :: CompletedTurn(s, i, r) &&
              var inTime := CancelledInTime(steerer, replayer, schedule, i);
              && (r.answer.PromptCancelled? <==> inTime || (o.outcome.Failed? && o.outcome.canceled))
              && (r.answer.Error? <==> !inTime && (o.outcome.Panicked? || (o.outcome.Failed? && !o.outcome.canceled)))
              && (o.outcome.Returned? && !inTime ==> r.answer == AgentResult(o.outcome.result))
  {
    TurnOrder(steerer, replayer, schedule, i);
    ReadsFlag(steerer, replayer, schedule, i);
    var s := Exec(steerer, replayer, schedule);
    var r :| CompletedTurn(s, i, r);
  }

  // ---------------------------------------------------------------------------------------------
  // The answer of a cancel
  // ---------------------------------------------------------------------------------------------

  // Only replays answer as replays.
  ghost predicate AuthorsTrue(s: State) {
    forall i: nat | RepliedBy(s.log, ReplayOf(i)) :: i < |s.ops| && s.ops[i].kind.Replaying?
  }

  lemma WritesByReplay(s: State, st: Step, i: nat)
    requires Enabled(s, st) && RepliedBy(Apply(s, st).log, ReplayOf(i))
    ensures RepliedBy(s.log, ReplayOf(i)) || (st == ReplayResponds(i) && i < |s.ops| && s.ops[i].kind.Replaying?)
  {
    if !Loud(st) {
      QuietStep(s, st);
    }
  }

  lemma {:induction false} AuthorsInvariant(steerer: bool, replayer: bool, schedule: seq<Step>)
    ensures AuthorsTrue(Exec(steerer, replayer, schedule))
  {
    if schedule != [] {
      var before, st := schedule[..|schedule| - 1], schedule[|schedule| - 1];
      AuthorsInvariant(steerer, replayer, before);
      Invariant(steerer, replayer, before);
      var s := Exec(steerer, replayer, before);
      if Enabled(s, st) {
        forall i: nat | RepliedBy(Apply(s, st).log, ReplayOf(i))
          ensures i < |Apply(s, st).ops| && Apply(s, st).ops[i].kind.Replaying?
        {
          WritesByReplay(s, st, i);
          StepKept(s, st, i);
        }
      }
    }
  }

  lemma {:induction false} PrecedesIn(log: Log, a: Entry, b: Entry)
    requires Precedes(log, a, b)
    ensures In(log, a) && (a.Reply? ==> RepliedBy(log, a.author))
  {
    if log.last == b && In(log.before, a) {
      InReplied(log.before, a);
    } else {
      PrecedesIn(log.before, a, b);
    }
  }

  lemma {:induction false} InReplied(log: Log, a: Entry)
    requires In(log, a)
    ensures a.Reply? ==> RepliedBy(log, a.author)
  {
    if log.last != a {
      InReplied(log.before, a);
    }
  }

  // A successful cancel of a turn is answered after that turn's TurnEnd, and one of a replay after the
  // replay's answer.
  lemma {:induction false} CancelOrder(steerer: bool, replayer: bool, schedule: seq<Step>, e: Entry)
    requires var s := Exec(steerer, replayer, schedule); In(s.log, e) && e.Reply? && e.answer.CancelDone?
    ensures var s := Exec(steerer, replayer, schedule); var i := e.answer.op;
            && i < |s.ops|
            && (s.ops[i].kind.Turn? ==> Precedes(s.log, End(i), e))
            && (s.ops[i].kind.Replaying? ==> ReplayAnswerPrecedes(s.log, i, e))
  {
    var s := Exec(steerer, replayer, schedule);
    var i := e.answer.op;
    Invariant(steerer, replayer, schedule);
    AuthorsInvariant(steerer, replayer, schedule);
    CancelFollowsItsTarget(s.log, e);
    if Precedes(s.log, End(i), e) {
      PrecedesIn(s.log, End(i), e);
      assert OpOk(s.activeOp, s.evicted, s.dispatcher, s.owner, s.log, i, s.ops[i]);
    }
    if ReplayAnswerPrecedes(s.log, i, e) {
      var r: Entry :| r.Reply? && r.author == ReplayOf(i) && Precedes(s.log, r, e);
      PrecedesIn(s.log, r, e);
    }
  }
}
