// Exactly when the whole output stays framed, also after clearActiveTurn.
module TurnsFrames {
  import opened Turns
  import opened TurnsInvariant
  import opened TurnsResults
  import opened TurnsSteps

  // The TurnBegin of another operation has been written and its TurnEnd has not.
  ghost predicate OtherOpen(s: State, i: nat) {
    exists j: nat :: j < |s.ops| && j != i && InFrame(s.ops[j])
  }

  // The step writes a TurnBegin inside another operation's frame.
  ghost predicate Nests(s: State, st: Step) {
    st.EmitBegin? && s.dispatcher.Beginning? && OtherOpen(s, s.dispatcher.op)
  }

  // Or, if events count as well, an agent emits one there.
  ghost predicate Breaks(s: State, st: Step, events: bool) {
    Nests(s, st) || (events && st.AgentEmit? && OtherOpen(s, st.op))
  }

  // The bracket structure of the whole output, with or without the agents' events.
  function Brackets(log: Log, events: bool): Frame {
    if log.Empty? then Closed
    else if log.last.AgentEvent? && !events then Brackets(log.before, events)
    else FrameStep(Brackets(log.before, events), log.last, Free)
  }

  lemma {:induction false} BracketsAreFrames(log: Log)
    ensures Brackets(log, true) == Frames(log, Free)
  {
    if log.Then? {
      BracketsAreFrames(log.before);
    }
  }

  // ---------------------------------------------------------------------------------------------
  // The frame that is open, in the log and among the operations
  // ---------------------------------------------------------------------------------------------

  lemma {:induction false} EndHasBegin(log: Log, i: nat)
    requires CausalLog(log) && In(log, End(i))
    ensures In(log, Begin(i))
  {
    if log.last != End(i) {
      EndHasBegin(log.before, i);
    }
  }

  lemma {:induction false} OpenIsFrame(log: Log, i: nat, events: bool)
    requires CausalLog(log) && In(log, Begin(i)) && !In(log, End(i)) && !Brackets(log, events).Broken?
    ensures Brackets(log, events) == Open(i)
  {
    if log.last != Begin(i) {
      OpenIsFrame(log.before, i, events);
    }
  }

  lemma {:induction false} FrameIsOpen(log: Log, i: nat, events: bool)
    requires CausalLog(log) && Brackets(log, events) == Open(i)
    ensures In(log, Begin(i)) && !In(log, End(i))
  {
    if log.last == Begin(i) {
      if In(log.before, End(i)) {
        EndHasBegin(log.before, i);
      }
    } else {
      FrameIsOpen(log.before, i, events);
    }
  }

  // While the output is unbroken, its open frame is that of the one operation inside its frame.
  lemma FrameOfOps(s: State, i: nat, events: bool)
    requires Inv(s) && !Brackets(s.log, events).Broken?
    ensures Brackets(s.log, events) == Open(i) <==> i < |s.ops| && InFrame(s.ops[i])
  {
    if i < |s.ops| {
      assert OpOk(s.activeOp, s.evicted, s.dispatcher, s.owner, s.log, i, s.ops[i]);
      if InFrame(s.ops[i]) {
        OpenIsFrame(s.log, i, events);
      }
    }
    if Brackets(s.log, events) == Open(i) {
      FrameIsOpen(s.log, i, events);
    }
  }

  // ---------------------------------------------------------------------------------------------
  // One step
  // ---------------------------------------------------------------------------------------------

  // Whether the step writes, and then what.
  ghost predicate Writes(s: State, st: Step, e: Entry) {
    match st
    case EmitBegin(_, _) => s.dispatcher.Beginning? && e == Begin(s.dispatcher.op)
    case TurnEnds(i) => e == End(i)
    case AgentEmit(i) => i < |s.ops| && e == AgentEvent(i, s.ops[i].kind.Turn?)
    case EmitFromHandler => e.HandlerEvent?
    case WriteAnswer => e.Reply?
    case TurnResponds(_) => e.Reply?
    case ReplayResponds(_) => e.Reply?
    case _ => false
  }

  lemma WriteStep(s: State, st: Step)
    requires Enabled(s, st) && Loud(st)
    ensures Apply(s, st).log.Then? && Apply(s, st).log.before == s.log && Writes(s, st, Apply(s, st).log.last)
  {
  }

  // A write breaks an unbroken output exactly when it falls into another operation's frame; a turn's
  // own events, its TurnEnd and the replies never do.
  lemma BreaksExactly(s: State, st: Step, events: bool)
    requires Inv(s) && Enabled(s, st) && !Brackets(s.log, events).Broken?
    ensures Brackets(Apply(s, st).log, events).Broken? <==> Breaks(s, st, events)
  {
    if !Loud(st) {
      QuietStep(s, st);
    } else {
      WriteStep(s, st);
      var e := Apply(s, st).log.last;
      if events || !e.AgentEvent? {
        WriteBreaksExactly(s, st, e, events);
      }
    }
  }

  lemma WriteBreaksExactly(s: State, st: Step, e: Entry, events: bool)
    requires Inv(s) && Enabled(s, st) && !Brackets(s.log, events).Broken? && Writes(s, st, e)
    requires (events || !e.AgentEvent?)
    ensures FrameStep(Brackets(s.log, events), e, Free).Broken? <==> Breaks(s, st, events)
  {
    var f := Brackets(s.log, events);
    forall i: nat ensures f == Open(i) <==> i < |s.ops| && InFrame(s.ops[i]) {
      FrameOfOps(s, i, events);
    }
    if !e.Reply? && !e.HandlerEvent? {
      var i := e.op;
      assert OpOk(s.activeOp, s.evicted, s.dispatcher, s.owner, s.log, i, s.ops[i]);
      if f.Open? && f.op != i {
        assert OtherOpen(s, i);
      }
    }
  }

  // ---------------------------------------------------------------------------------------------
  // Runs
  // ---------------------------------------------------------------------------------------------

  // Step n of the schedule is taken, in a state where it breaks the frames.
  ghost predicate BreaksAt(steerer: bool, replayer: bool, schedule: seq<Step>, n: nat, events: bool) {
    && n < |schedule|
    && var s := Exec(steerer, replayer, schedule[..n]); Enabled(s, schedule[n]) && Breaks(s, schedule[n], events)
  }

  lemma BrokenStays(s: State, st: Step, events: bool)
    requires Enabled(s, st) && Brackets(s.log, events).Broken?
    ensures Brackets(Apply(s, st).log, events).Broken?
  {
    if !Loud(st) {
      QuietStep(s, st);
    } else {
      WriteStep(s, st);
    }
  }

  lemma BrokenNext(s: State, st: Step, events: bool)
    requires Inv(s)
    ensures Brackets(After(s, st).log, events).Broken? <==>
        Brackets(s.log, events).Broken? || (Enabled(s, st) && Breaks(s, st, events))
  {
    if Enabled(s, st) {
      if Brackets(s.log, events).Broken? {
        BrokenStays(s, st, events);
      } else {
        BreaksExactly(s, st, events);
      }
    }
  }

  lemma {:induction false} BreaksAtLast(steerer: bool, replayer: bool, before: seq<Step>, st: Step, events: bool)
    ensures var s := Exec(steerer, replayer, before);
            (exists n: nat :: BreaksAt(steerer, replayer, before + [st], n, events)) <==>
            (exists n: nat :: BreaksAt(steerer, replayer, before, n, events))
                || (Enabled(s, st) && Breaks(s, st, events))
  {
    var all := before + [st];
    forall n: nat | n <= |before| ensures all[..n] == before[..n] {}
    forall n: nat | n < |before|
      ensures BreaksAt(steerer, replayer, before, n, events) <==> BreaksAt(steerer, replayer, all, n, events)
    {
    }
    assert before[..|before|] == before && all[|before|] == st;
    assert BreaksAt(steerer, replayer, all, |before|, events) <==>
      Enabled(Exec(steerer, replayer, before), st) && Breaks(Exec(steerer, replayer, before), st, events);
  }

  // The brackets of the whole output, agent events included, are broken exactly when some step wrote
  // into another operation's frame.
  lemma {:induction false} BracketsExactly(steerer: bool, replayer: bool, schedule: seq<Step>, events: bool)
    ensures Brackets(Exec(steerer, replayer, schedule).log, events).Broken? <==>
            exists n: nat :: BreaksAt(steerer, replayer, schedule, n, events)
  {
    if schedule != [] {
      var before, st := schedule[..|schedule| - 1], schedule[|schedule| - 1];
      assert schedule == before + [st];
      BracketsExactly(steerer, replayer, before, events);
      Invariant(steerer, replayer, before);
      BreaksAtLast(steerer, replayer, before, st, events);
      ExecNext(steerer, replayer, before, st);
      BrokenNext(Exec(steerer, replayer, before), st, events);
    }
  }

  // ---------------------------------------------------------------------------------------------
  // Alternation
  // ---------------------------------------------------------------------------------------------

  lemma AlternatingPrefix(a: seq<Entry>, b: seq<Entry>)
    requires a <= b && Alternating(b)
    ensures Alternating(a)
  {
    forall n: nat | n < |a| ensures if n % 2 == 0 then a[n].Begin? else a[n].End? && a[n - 1] == Begin(a[n].op) {
      assert a[n] == b[n];
      assert n > 0 ==> a[n - 1] == b[n - 1];
    }
  }

  // Where the alternation stands.
  ghost predicate Stands(marks: seq<Entry>, f: Frame) {
    match f
    case Closed => Alternating(marks) && |marks| % 2 == 0
    case Open(i) => Alternating(marks) && |marks| % 2 == 1 && marks[|marks| - 1] == Begin(i)
    case Broken => !Alternating(marks)
  }

  lemma StandsThen(marks: seq<Entry>, f: Frame, e: Entry)
    requires Stands(marks, f) && (e.Begin? || e.End?)
    ensures Stands(marks + [e], FrameStep(f, e, Free))
  {
    var all := marks + [e];
    assert all[|marks|] == e && (marks != [] ==> all[|marks| - 1] == marks[|marks| - 1]);
    if f.Broken? {
      if Alternating(all) {
        AlternatingPrefix(marks, all);
      }
    } else if !FrameStep(f, e, Free).Broken? {
      AlternatingThen(marks, e);
    }
  }

  lemma {:induction false} MarksStand(log: Log)
    ensures Stands(Marks(log, Free), Brackets(log, false))
  {
    if log.Then? {
      MarksStand(log.before);
      if log.last.Begin? || log.last.End? {
        StandsThen(Marks(log.before, Free), Brackets(log.before, false), log.last);
      }
    }
  }

  // The TurnBegin and TurnEnd writes of the whole output alternate exactly in the runs in which no
  // TurnBegin was written between the TurnBegin and the TurnEnd of another turn.
  lemma {:induction false} FramingExactly(steerer: bool, replayer: bool, schedule: seq<Step>)
    ensures Alternating(Marks(Exec(steerer, replayer, schedule).log, Free)) <==>
            forall n: nat | n < |schedule| ::
              var s := Exec(steerer, replayer, schedule[..n]);
              !(Enabled(s, schedule[n]) && Nests(s, schedule[n]))
  {
    BracketsExactly(steerer, replayer, schedule, false);
    MarksStand(Exec(steerer, replayer, schedule).log);
    if n: nat :| n < |schedule| && BreaksAt(steerer, replayer, schedule, n, false) {
    } else {
      forall n: nat | n < |schedule|
        ensures var s := Exec(steerer, replayer, schedule[..n]); !(Enabled(s, schedule[n]) && Nests(s, schedule[n]))
      {
        assert !BreaksAt(steerer, replayer, schedule, n, false);
      }
    }
  }

  // The operation in the slot, and the one whose TurnBegin is due, is the last one accepted.
  ghost predicate Newest(s: State) {
    && (s.activeOp.Taken? ==> s.activeOp.op == |s.ops| - 1)
    && (s.dispatcher.Beginning? ==> s.dispatcher.op == |s.ops| - 1)
  }

  lemma StartBegins(s: State, k: nat, a: Answer)
    requires k < |s.accepted| && k < |s.owner|
    ensures var s' := Handle(s, k, a);
            s'.dispatcher.Beginning? ==> |s'.ops| == |s.ops| + 1 && s'.dispatcher.op == |s.ops|
  {
  }

  lemma StartIsNewest(s: State, k: nat, a: Answer)
    requires Newest(s) && k < |s.accepted| && k < |s.owner|
    ensures Newest(Handle(s, k, a))
  {
    StartOutcome(s, k, a);
    StartBegins(s, k, a);
  }

  lemma DispatcherKeepsNewest(s: State, st: Step)
    requires Newest(s) && Enabled(s, st) && (OfServe(st) || OfLoop(st) || OfCancel(st) || OfSteer(st))
    ensures Newest(Apply(s, st))
  {
    if !Loud(st) {
      CalmStep(s, st);
    }
  }

  lemma NewestStep(s: State, st: Step)
    requires Inv(s) && Newest(s) && Enabled(s, st)
    ensures Newest(Apply(s, st))
  {
    if st.RunHandler? {
      StartIsNewest(s, s.dispatcher.msg, st.inPlace);
    } else if OfServe(st) || OfLoop(st) || OfCancel(st) || OfSteer(st) {
      DispatcherKeepsNewest(s, st);
    } else if !st.ClearActiveTurn? {
      OpMoves(s, st, if st.EmitBegin? then s.dispatcher.op else st.op);
    }
  }

  lemma {:induction false} NewestInvariant(steerer: bool, replayer: bool, schedule: seq<Step>)
    ensures Newest(Exec(steerer, replayer, schedule))
  {
    if schedule != [] {
      var before, st := schedule[..|schedule| - 1], schedule[|schedule| - 1];
      NewestInvariant(steerer, replayer, before);
      Invariant(steerer, replayer, before);
      if Enabled(Exec(steerer, replayer, before), st) {
        NewestStep(Exec(steerer, replayer, before), st);
      }
    }
  }

  // The evicted operation is still inside its frame.
  predicate EvictedOpen(s: State) {
    s.evicted.Taken? && s.evicted.op < |s.ops| && InFrame(s.ops[s.evicted.op])
  }

  // When a TurnBegin is due, the only other operation that can be inside its frame is the evicted one.
  lemma NestsInEvicted(s: State)
    requires Inv(s) && Newest(s) && s.dispatcher.Beginning?
    ensures OtherOpen(s, s.dispatcher.op) <==> EvictedOpen(s)
  {
    var i := s.dispatcher.op;
    forall j: nat | j < |s.ops| && InFrame(s.ops[j]) ensures j != i && s.evicted == Taken(j) {
      assert OpOk(s.activeOp, s.evicted, s.dispatcher, s.owner, s.log, j, s.ops[j]);
    }
  }

  // Such a TurnBegin is written only after clearActiveTurn, while the operation it evicted is inside its
  // frame.
  lemma {:induction false} NestsOnlyInEvicted(steerer: bool, replayer: bool, schedule: seq<Step>, st: Step)
    ensures var s := Exec(steerer, replayer, schedule);
            Enabled(s, st) && st.EmitBegin? ==> (Nests(s, st) <==> EvictedOpen(s)) && (EvictedOpen(s) ==> s.cleared)
  {
    Invariant(steerer, replayer, schedule);
    NewestInvariant(steerer, replayer, schedule);
    var s := Exec(steerer, replayer, schedule);
    if s.dispatcher.Beginning? {
      NestsInEvicted(s);
    }
  }
}
