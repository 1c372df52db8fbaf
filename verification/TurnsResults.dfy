// What every run of the turn machine guarantees.
module TurnsResults {
  import opened Turns
  import opened TurnsInvariant
  import opened TurnsSteps

  // ---------------------------------------------------------------------------------------------
  // One answer per message
  // ---------------------------------------------------------------------------------------------

  // Where an accepted message is.
  datatype Place = InQueue | WithDispatcher | WithOp(op: nat) | Answered

  ghost predicate At(s: State, k: nat, p: Place) {
    match p
    case InQueue => |s.owner| <= k < |s.accepted|
    case WithDispatcher => InHand(s.dispatcher) == Taken(k)
    case WithOp(i) => i < |s.ops| && s.ops[i].msg == k && Owes(s.ops[i])
    case Answered => Replies(s.log, k) == 1
  }

  lemma {:induction false} AtMostOneReply(log: Log, k: nat)
    requires CausalLog(log)
    ensures Replies(log, k) <= 1
  {
    if log.Then? {
      AtMostOneReply(log.before, k);
    }
  }

  lemma PlaceIsUnique(s: State, k: nat) returns (p: Place)
    requires Inv(s) && k < |s.accepted|
    ensures At(s, k, p) && forall q :: At(s, k, q) ==> q == p
  {
    AtMostOneReply(s.log, k);
    if k >= |s.owner| {
      p := InQueue;
      forall i: nat | i < |s.ops| ensures s.ops[i].msg != k {
        assert OpOk(s.activeOp, s.evicted, s.dispatcher, s.owner, s.log, i, s.ops[i]);
      }
    } else {
      assert MsgOk(s.dispatcher, s.ops, s.log, k, s.owner[k]);
      forall i: nat | i < |s.ops| && s.ops[i].msg == k ensures s.owner[k] == Taken(i) {
        assert OpOk(s.activeOp, s.evicted, s.dispatcher, s.owner, s.log, i, s.ops[i]);
      }
      p := if s.owner[k].Taken? && Owes(s.ops[s.owner[k].op]) then WithOp(s.owner[k].op)
           else if InHand(s.dispatcher) == Taken(k) then WithDispatcher
           else Answered;
    }
  }

  // JSON-RPC 2.0, section 5: in every run each accepted message is in exactly one place, and it is
  // Answered exactly when one reply to it has been attempted; no message gets two replies.
  lemma {:induction false} AnswerConservation(steerer: bool, replayer: bool, schedule: seq<Step>, k: nat)
    requires k < |Exec(steerer, replayer, schedule).accepted|
    ensures var s := Exec(steerer, replayer, schedule);
            Replies(s.log, k) <= 1 && exists p :: At(s, k, p) && forall q :: At(s, k, q) ==> q == p
  {
    var s := Exec(steerer, replayer, schedule);
    Invariant(steerer, replayer, schedule);
    AtMostOneReply(s.log, k);
    var p := PlaceIsUnique(s, k);
  }

  lemma {:induction false} RepliesCarryOwnIds(log: Log, accepted: seq<Msg>, e: Entry)
    requires OwnIds(log, accepted) && In(log, e) && e.Reply?
    ensures e.msg < |accepted| && e.id == accepted[e.msg].id
  {
    if log.last != e {
      RepliesCarryOwnIds(log.before, accepted, e);
    }
  }

  // ---------------------------------------------------------------------------------------------
  // Framing
  // ---------------------------------------------------------------------------------------------

  // The TurnBegin and TurnEnd writes alone, oldest first.
  function Marks(log: Log, skip: Slot): seq<Entry> {
    if log.Empty? then []
    else if (log.last.Begin? || log.last.End?) && skip != Taken(log.last.op) then Marks(log.before, skip) + [log.last]
    else Marks(log.before, skip)
  }

  // TurnBegin and TurnEnd alternate, starting with TurnBegin, and each TurnEnd ends the turn just begun.
  ghost predicate Alternating(marks: seq<Entry>) {
    forall n: nat {:trigger marks[n]} | n < |marks| ::
      if n % 2 == 0 then marks[n].Begin? else marks[n].End? && marks[n - 1] == Begin(marks[n].op)
  }

  lemma AlternatingThen(marks: seq<Entry>, e: Entry)
    requires Alternating(marks)
    requires if |marks| % 2 == 0 then e.Begin? else e.End? && marks[|marks| - 1] == Begin(e.op)
    ensures Alternating(marks + [e])
  {
    var all := marks + [e];
    forall n: nat | n < |all|
      ensures if n % 2 == 0 then all[n].Begin? else all[n].End? && all[n - 1] == Begin(all[n].op)
    {
      if n < |marks| {
        assert all[n] == marks[n];
        assert n > 0 ==> all[n - 1] == marks[n - 1];
      } else {
        assert n == |marks| && all[n] == e;
      }
    }
    assert Alternating(all);
  }

  lemma {:induction false} FramesAlternate(log: Log, skip: Slot)
    requires !Frames(log, skip).Broken?
    ensures Alternating(Marks(log, skip))
    ensures match Frames(log, skip)
      case Closed => |Marks(log, skip)| % 2 == 0
      case Open(i) => |Marks(log, skip)| % 2 == 1 && Marks(log, skip)[|Marks(log, skip)| - 1] == Begin(i)
      case Broken => false
  {
    if log.Then? {
      FramesAlternate(log.before, skip);
      var marks := Marks(log.before, skip);
      var f := Frames(log.before, skip);
      assert Frames(log, skip) == FrameStep(f, log.last, skip);
      if (log.last.Begin? || log.last.End?) && skip != Taken(log.last.op) {
        AlternatingThen(marks, log.last);
        assert Marks(log, skip) == marks + [log.last];
      } else {
        assert Marks(log, skip) == marks;
      }
    }
  }

  // In every run the frames alternate once the writes of the operation evicted at shutdown are left
  // out; up to clearActiveTurn there is no such operation and the whole output alternates.
  lemma {:induction false} Framing(steerer: bool, replayer: bool, schedule: seq<Step>)
    ensures var s := Exec(steerer, replayer, schedule);
            Alternating(Marks(s.log, s.evicted)) && (!s.cleared ==> Alternating(Marks(s.log, Free)))
  {
    var s := Exec(steerer, replayer, schedule);
    Invariant(steerer, replayer, schedule);
    FramesAlternate(s.log, s.evicted);
  }

  // ---------------------------------------------------------------------------------------------
  // One operation at a time
  // ---------------------------------------------------------------------------------------------

  ghost predicate Exclusive(s: State) {
    forall i: nat, j: nat | i < |s.ops| && j < |s.ops| && Holds(s.ops[i]) && Holds(s.ops[j]) :: i == j
  }

  // Who can hold the slot.
  lemma Holders(s: State)
    requires Inv(s)
    ensures forall i: nat | i < |s.ops| && Holds(s.ops[i]) :: s.activeOp == Taken(i) || s.evicted == Taken(i)
  {
    forall i: nat | i < |s.ops| && Holds(s.ops[i]) ensures s.activeOp == Taken(i) || s.evicted == Taken(i) {
      assert OpOk(s.activeOp, s.evicted, s.dispatcher, s.owner, s.log, i, s.ops[i]);
    }
  }

  // Up to clearActiveTurn at most one operation holds the slot, and no agent call runs without it.
  // Afterwards the only other one is the operation that was evicted.
  lemma {:induction false} MutualExclusion(steerer: bool, replayer: bool, schedule: seq<Step>)
    ensures var s := Exec(steerer, replayer, schedule);
            && (!s.cleared ==> Exclusive(s))
            && (forall i: nat | i < |s.ops| && s.ops[i].phase.Running? ::
                  s.activeOp == Taken(i) || (s.cleared && s.evicted == Taken(i)))
            && (s.activeTurn.Taken? ==>
                  s.activeTurn == s.activeOp && s.activeOp.op < |s.ops| && s.ops[s.activeOp.op].kind.Turn?)
  {
    Invariant(steerer, replayer, schedule);
    Holders(Exec(steerer, replayer, schedule));
  }

  // What a step that neither starts an operation nor clears the slot leaves alone.
  ghost predicate Shrinks(s: State, s': State) {
    && s'.evicted == s.evicted && s'.cleared == s.cleared
    && (s'.activeOp == s.activeOp || s'.activeOp.Free?)
    && |s'.ops| == |s.ops|
    && forall i: nat | i < |s.ops| && Holds(s'.ops[i]) :: Holds(s.ops[i])
  }

  lemma MoveShrinks(s: State, st: Step, i: nat)
    requires Inv(s) && Enabled(s, st) && Mover(s, st, i)
    ensures Shrinks(s, Apply(s, st))
  {
    OpMoves(s, st, i);
    assert OpOk(s.activeOp, s.evicted, s.dispatcher, s.owner, s.log, i, s.ops[i]);
  }

  lemma DispatcherShrinks(s: State, st: Step)
    requires Enabled(s, st) && (OfServe(st) || OfLoop(st) || OfCancel(st) || OfSteer(st))
    ensures Shrinks(s, Apply(s, st))
  {
    if !Loud(st) {
      CalmStep(s, st);
    }
  }

  lemma StepShrinks(s: State, st: Step)
    requires Inv(s) && Enabled(s, st) && !st.RunHandler? && !st.ClearActiveTurn?
    ensures Shrinks(s, Apply(s, st))
  {
    if OfServe(st) || OfLoop(st) || OfCancel(st) || OfSteer(st) {
      DispatcherShrinks(s, st);
    } else {
      MoveShrinks(s, st, if st.EmitBegin? then s.dispatcher.op else st.op);
    }
  }

  // The slot changes hands in no other way.
  ghost predicate Started(s: State, s': State) {
    && s'.evicted == s.evicted && s'.cleared == s.cleared
    && if |s'.ops| == |s.ops| then s'.ops == s.ops && s'.activeOp == s.activeOp
       else |s'.ops| == |s.ops| + 1 && s'.ops[..|s.ops|] == s.ops && Holds(s'.ops[|s.ops|])
            && s.activeOp.Free? && s'.activeOp == Taken(|s.ops|)
  }

  lemma StartOutcome(s: State, k: nat, a: Answer)
    requires k < |s.accepted| && k < |s.owner|
    ensures Started(s, Handle(s, k, a))
  {
  }

  lemma SlotStays(s: State, st: Step)
    requires Enabled(s, st) && !st.RunHandler? && !st.ClearActiveTurn? && !st.TurnGivesBack? && !st.ReplayGivesBack?
    ensures Apply(s, st).activeOp == s.activeOp
  {
    if OfServe(st) || (OfLoop(st) && !Loud(st)) || OfCancel(st) || OfSteer(st) {
      CalmStep(s, st);
    } else if !OfLoop(st) {
      OpMoves(s, st, if st.EmitBegin? then s.dispatcher.op else st.op);
    }
  }

  // Only the operation in the slot gives it back: a late endTurn or replay cleanup never clears a
  // newer operation.
  lemma {:induction false} OnlyOwnerGivesBack(s: State, st: Step)
    requires Inv(s) && Enabled(s, st) && s.activeOp.Taken? && Apply(s, st).activeOp != s.activeOp
    ensures st == TurnGivesBack(s.activeOp.op) || st == ReplayGivesBack(s.activeOp.op) || st.ClearActiveTurn?
  {
    if st.RunHandler? {
      StartOutcome(s, s.dispatcher.msg, st.inPlace);
    } else if st.TurnGivesBack? || st.ReplayGivesBack? {
      assert OpOk(s.activeOp, s.evicted, s.dispatcher, s.owner, s.log, st.op, s.ops[st.op]);
    } else if !st.ClearActiveTurn? {
      SlotStays(s, st);
    }
  }

  // The evicted operation has not yet run the section that gives the slot back.
  predicate EvictedHolds(s: State) {
    s.evicted.Taken? && s.evicted.op < |s.ops| && Holds(s.ops[s.evicted.op])
  }

  // In every run exclusion is lost exactly while the evicted operation still holds and another one has
  // taken the slot.
  lemma {:induction false} ExclusionExactly(steerer: bool, replayer: bool, schedule: seq<Step>)
    ensures var s := Exec(steerer, replayer, schedule); Exclusive(s) <==> !(EvictedHolds(s) && s.activeOp.Taken?)
  {
    Invariant(steerer, replayer, schedule);
    var s := Exec(steerer, replayer, schedule);
    Holders(s);
    if EvictedHolds(s) && s.activeOp.Taken? {
      var i, j := s.activeOp.op, s.evicted.op;
      assert OpOk(s.activeOp, s.evicted, s.dispatcher, s.owner, s.log, i, s.ops[i]);
      assert OpOk(s.activeOp, s.evicted, s.dispatcher, s.owner, s.log, j, s.ops[j]);
      assert Holds(s.ops[i]) && Holds(s.ops[j]) && i != j;
    }
  }

  // The handler is about to run on a message that asks for the slot and passes the tests before it.
  predicate AsksForSlot(s: State, st: Step) {
    && st.RunHandler? && s.dispatcher.Handling? && s.dispatcher.msg < |s.accepted|
    && var m := s.accepted[s.dispatcher.msg];
       (m.verb.Prompt? && m.wellFormed) || (m.verb.Replay? && s.replayer)
  }

  lemma StartsExactly(s: State, st: Step)
    requires Inv(s) && Enabled(s, st) && s.activeOp.Free?
    ensures Apply(s, st).activeOp.Taken? <==> AsksForSlot(s, st)
  {
    if !st.RunHandler? && !st.ClearActiveTurn? {
      StepShrinks(s, st);
    }
  }

  // The steps that lose it are those that start an operation while the evicted one holds.
  lemma {:induction false} ExclusionExact(steerer: bool, replayer: bool, schedule: seq<Step>, st: Step)
    requires var s := Exec(steerer, replayer, schedule); Exclusive(s) && Enabled(s, st)
    ensures var s := Exec(steerer, replayer, schedule);
            Exclusive(Apply(s, st)) <==> !(AsksForSlot(s, st) && EvictedHolds(s))
  {
    var s := Exec(steerer, replayer, schedule);
    Invariant(steerer, replayer, schedule);
    ExclusionExactly(steerer, replayer, schedule);
    ExclusionExactly(steerer, replayer, schedule + [st]);
    ExecNext(steerer, replayer, schedule, st);
    EvictedKeepsHolding(s, st);
    if EvictedHolds(s) {
      StartsExactly(s, st);
    }
  }

  // Only the section that gives the slot back ends the holding, and only clearActiveTurn begins it.
  lemma EvictedKeepsHolding(s: State, st: Step)
    requires Inv(s) && Enabled(s, st)
    ensures EvictedHolds(Apply(s, st)) && !st.ClearActiveTurn? ==> EvictedHolds(s)
    ensures AsksForSlot(s, st) && EvictedHolds(s) ==> EvictedHolds(Apply(s, st))
    ensures st.ClearActiveTurn? ==> Apply(s, st).activeOp.Free?
  {
    if st.RunHandler? {
      StartOutcome(s, s.dispatcher.msg, st.inPlace);
      var s' := Apply(s, st);
      assert s'.ops[..|s.ops|] == s.ops;
      assert forall i: nat | i < |s.ops| :: s'.ops[i] == s'.ops[..|s.ops|][i];
    } else if !st.ClearActiveTurn? {
      StepShrinks(s, st);
    }
  }

  // ---------------------------------------------------------------------------------------------
  // What a handler does, in terms of the operations that are there
  // ---------------------------------------------------------------------------------------------

  // Operation i has been accepted, has not yet given the slot back and was not evicted.
  predicate InProgress(s: State, i: nat) {
    i < |s.ops| && Holds(s.ops[i]) && s.evicted != Taken(i)
  }

  lemma InProgressExactly(s: State, i: nat)
    requires Inv(s)
    ensures InProgress(s, i) <==> s.activeOp == Taken(i)
  {
    if i < |s.ops| {
      assert OpOk(s.activeOp, s.evicted, s.dispatcher, s.owner, s.log, i, s.ops[i]);
    }
  }

  ghost predicate Refused(s: State, s': State, k: nat, code: int) {
    s'.dispatcher == Answering(k, Error(code)) && s'.ops == s.ops
  }

  ghost predicate AcceptedAs(s: State, s': State, k: nat, kind: Kind) {
    && |s'.ops| == |s.ops| + 1 && s'.ops[..|s.ops|] == s.ops
    && s'.ops[|s.ops|].kind == kind && s'.ops[|s.ops|].msg == k && InProgress(s', |s.ops|)
  }

  // The answer or the effect of the first section of a handler.
  ghost predicate Outcomes(s: State, s': State, k: nat, m: Msg) {
    var busy := exists i: nat :: InProgress(s, i);
    match m.verb
    case Prompt =>
      if !m.wellFormed then Refused(s, s', k, -32602)
      else if busy then Refused(s, s', k, -32000)
      else AcceptedAs(s, s', k, Turn)
    case Replay =>
      if !s.replayer then Refused(s, s', k, -32601)
      else if busy then Refused(s, s', k, -32000)
      else AcceptedAs(s, s', k, Replaying)
    case Cancel =>
      if !busy then Refused(s, s', k, -32001)
      else
        && s'.ops == s.ops
        && exists i: nat ::
             InProgress(s, i) && s'.dispatcher == Flagging(k, i, if s.ops[i].kind.Turn? then Taken(i) else Free)
    case Steer =>
      if !s.steerer then Refused(s, s', k, -32601)
      else if !m.wellFormed then Refused(s, s', k, -32602)
      else if !(exists i: nat :: InProgress(s, i) && s.ops[i].kind.Turn?) then Refused(s, s', k, -32001)
      else
        && s'.ops == s.ops
        && exists i: nat :: InProgress(s, i) && s.ops[i].kind.Turn? && s'.dispatcher == SteerSending(k, i)
    case InPlace => s'.ops == s.ops
  }

  ghost predicate SlotTells(s: State) {
    SlotOk(s) && forall i: nat :: InProgress(s, i) <==> s.activeOp == Taken(i)
  }

  lemma TakersExactly(s: State, k: nat, a: Answer)
    requires SlotTells(s) && k < |s.accepted| && k < |s.owner|
    requires (s.accepted[k].verb.Prompt? || s.accepted[k].verb.Replay?)
    ensures Outcomes(s, Handle(s, k, a), k, s.accepted[k])
  {
    assert s.activeOp.Taken? ==> InProgress(s, s.activeOp.op);
  }

  lemma CancelExactly(s: State, k: nat, a: Answer)
    requires SlotTells(s) && k < |s.accepted| && k < |s.owner| && s.accepted[k].verb.Cancel?
    ensures Outcomes(s, Handle(s, k, a), k, s.accepted[k])
  {
    assert s.activeOp.Taken? ==> InProgress(s, s.activeOp.op);
  }

  lemma SteerExactly(s: State, k: nat, a: Answer)
    requires SlotTells(s) && k < |s.accepted| && k < |s.owner| && s.accepted[k].verb.Steer?
    ensures Outcomes(s, Handle(s, k, a), k, s.accepted[k])
  {
    assert s.activeOp.Taken? ==> InProgress(s, s.activeOp.op);
  }

  // A prompt or replay is refused as busy exactly while another operation is in progress, a cancel
  // captures the operation in progress and a steer the turn in progress, if there is one.
  lemma {:induction false} HandlerExactly(steerer: bool, replayer: bool, schedule: seq<Step>, inPlace: Answer)
    requires Enabled(Exec(steerer, replayer, schedule), RunHandler(inPlace))
    ensures var s := Exec(steerer, replayer, schedule);
            Outcomes(s, Apply(s, RunHandler(inPlace)), s.dispatcher.msg, s.accepted[s.dispatcher.msg])
  {
    Invariant(steerer, replayer, schedule);
    var s := Exec(steerer, replayer, schedule);
    forall i: nat ensures InProgress(s, i) <==> s.activeOp == Taken(i) {
      InProgressExactly(s, i);
    }
    var k := s.dispatcher.msg;
    if s.accepted[k].verb.Prompt? || s.accepted[k].verb.Replay? {
      TakersExactly(s, k, inPlace);
    } else if s.accepted[k].verb.Cancel? {
      CancelExactly(s, k, inPlace);
    } else if s.accepted[k].verb.Steer? {
      SteerExactly(s, k, inPlace);
    }
  }

  // ---------------------------------------------------------------------------------------------
  // Order
  // ---------------------------------------------------------------------------------------------

  // b was written, and a before it.
  predicate Precedes(log: Log, a: Entry, b: Entry) {
    log.Then? && ((log.last == b && In(log.before, a)) || Precedes(log.before, a, b))
  }

  function Count(log: Log, e: Entry): nat {
    if log.Empty? then 0 else Count(log.before, e) + if log.last == e then 1 else 0
  }

  lemma {:induction false} WrittenOnce(log: Log, e: Entry)
    requires CausalLog(log) && !e.AgentEvent? && !e.HandlerEvent?
    ensures Count(log, e) == if In(log, e) then 1 else 0
    ensures e.Reply? && In(log, e) ==> Replies(log, e.msg) == 1
  {
    if log.Then? {
      WrittenOnce(log.before, e);
      if e.Reply? {
        AtMostOneReply(log, e.msg);
      }
    }
  }

  // What the handler of a message emits comes before the answer.
  lemma {:induction false} HandlerEventsFirst(log: Log, e: Entry)
    requires CausalLog(log) && e.Reply?
    ensures !Precedes(log, e, HandlerEvent(e.msg))
  {
    if log.Then? {
      HandlerEventsFirst(log.before, e);
      if In(log.before, e) {
        WrittenOnce(log.before, e);
      }
    }
  }

  lemma {:induction false} BeginPrecedesEnd(log: Log, i: nat)
    requires CausalLog(log) && In(log, End(i))
    ensures Precedes(log, Begin(i), End(i))
  {
    if log.last != End(i) {
      BeginPrecedesEnd(log.before, i);
    }
  }

  lemma {:induction false} EndPrecedesReply(log: Log, e: Entry)
    requires CausalLog(log) && In(log, e) && e.Reply? && e.author.TurnOf?
    ensures Precedes(log, End(e.author.op), e)
  {
    if log.last != e {
      EndPrecedesReply(log.before, e);
    }
  }

  ghost predicate ReplayAnswerPrecedes(log: Log, j: nat, e: Entry) {
    exists r: Entry :: r.Reply? && r.author == ReplayOf(j) && Precedes(log, r, e)
  }

  lemma {:induction false} RepliedByEntry(log: Log, author: Author) returns (r: Entry)
    requires RepliedBy(log, author)
    ensures r.Reply? && r.author == author && In(log, r)
  {
    if log.last.Reply? && log.last.author == author {
      r := log.last;
    } else {
      r := RepliedByEntry(log.before, author);
    }
  }

  lemma {:induction false} CancelFollowsItsTarget(log: Log, e: Entry)
    requires CausalLog(log) && In(log, e) && e.Reply? && e.answer.CancelDone?
    ensures Precedes(log, End(e.answer.op), e) || ReplayAnswerPrecedes(log, e.answer.op, e)
  {
    if log.last != e {
      CancelFollowsItsTarget(log.before, e);
      if ReplayAnswerPrecedes(log.before, e.answer.op, e) {
        var r: Entry :| r.Reply? && r.author == ReplayOf(e.answer.op) && Precedes(log.before, r, e);
        assert Precedes(log, r, e);
      }
    } else if !In(log.before, End(e.answer.op)) {
      var r := RepliedByEntry(log.before, ReplayOf(e.answer.op));
      assert Precedes(log, r, e);
    }
  }

  lemma {:induction false} GaveEntry(log: Log, k: nat, answer: Answer, author: Author) returns (e: Entry)
    requires Gave(log, k, answer, author)
    ensures e.Reply? && e.msg == k && e.answer == answer && e.author == author && In(log, e)
  {
    if log.last.Reply? && log.last.msg == k && log.last.answer == answer && log.last.author == author {
      e := log.last;
    } else {
      e := GaveEntry(log.before, k, answer, author);
    }
  }

  // The reply r to the prompt that started turn i, with everything that came before it.
  ghost predicate CompletedTurn(s: State, i: nat, r: Entry)
    requires i < |s.ops|
  {
    var o := s.ops[i];
    && r.Reply? && r.msg == o.msg && r.author == TurnOf(i) && Replies(s.log, o.msg) == 1
    && o.msg < |s.accepted| && r.id == s.accepted[o.msg].id
    && Precedes(s.log, Begin(i), End(i)) && Precedes(s.log, End(i), r)
    && Count(s.log, Begin(i)) == 1 && Count(s.log, End(i)) == 1 && Count(s.log, r) == 1
    && r.answer == PromptAnswer(o.outcome, o.wasCancelled)
    && (o.flagAtEnd ==> r.answer.PromptCancelled?)
  }

  // Every turn that is over was framed and then answered, each exactly once. If a cancel had set the
  // flag by the time the agent call ended, the answer is "cancelled" whatever the agent did.
  lemma {:induction false} TurnOrder(steerer: bool, replayer: bool, schedule: seq<Step>, i: nat)
    requires var s := Exec(steerer, replayer, schedule);
             i < |s.ops| && s.ops[i].kind.Turn? && s.ops[i].phase.Finished?
    ensures exists r :: CompletedTurn(Exec(steerer, replayer, schedule), i, r)
  {
    var s := Exec(steerer, replayer, schedule);
    var o := s.ops[i];
    Invariant(steerer, replayer, schedule);
    assert OpOk(s.activeOp, s.evicted, s.dispatcher, s.owner, s.log, i, o);
    var r := GaveEntry(s.log, o.msg, o.answer, TurnOf(i));
    RepliesCarryOwnIds(s.log, s.accepted, r);
    EndPrecedesReply(s.log, r);
    BeginPrecedesEnd(s.log, i);
    WrittenOnce(s.log, Begin(i));
    WrittenOnce(s.log, End(i));
    WrittenOnce(s.log, r);
    assert CompletedTurn(s, i, r);
  }

  // The reply of a replay that has answered.
  ghost predicate CompletedReplay(s: State, i: nat, r: Entry)
    requires i < |s.ops|
  {
    && r.Reply? && r.msg == s.ops[i].msg && r.author == ReplayOf(i) && Replies(s.log, s.ops[i].msg) == 1
    && r.msg < |s.accepted| && r.id == s.accepted[r.msg].id && Count(s.log, r) == 1
    && r.answer == ReplayAnswer(s.ops[i].outcome)
  }

  // Every replay that has gone past its answer has answered once, as its agent call ended, and never
  // before it ended; no replay writes a TurnBegin or TurnEnd.
  lemma {:induction false} ReplayOrder(steerer: bool, replayer: bool, schedule: seq<Step>, i: nat)
    requires var s := Exec(steerer, replayer, schedule); i < |s.ops| && s.ops[i].kind.Replaying?
    ensures var s := Exec(steerer, replayer, schedule);
            && (s.ops[i].phase.Running? || s.ops[i].phase.Respond? ==> Replies(s.log, s.ops[i].msg) == 0)
            && (!s.ops[i].phase.Running? && !s.ops[i].phase.Respond? ==> exists r :: CompletedReplay(s, i, r))
            && !In(s.log, Begin(i)) && !In(s.log, End(i))
  {
    var s := Exec(steerer, replayer, schedule);
    var o := s.ops[i];
    Invariant(steerer, replayer, schedule);
    assert OpOk(s.activeOp, s.evicted, s.dispatcher, s.owner, s.log, i, o);
    assert MsgOk(s.dispatcher, s.ops, s.log, o.msg, s.owner[o.msg]);
    if !Owes(o) {
      var r := GaveEntry(s.log, o.msg, o.answer, ReplayOf(i));
      RepliesCarryOwnIds(s.log, s.accepted, r);
      WrittenOnce(s.log, r);
      assert CompletedReplay(s, i, r);
    }
  }

  // No done channel is closed twice: turn.close and the replay's deferred close find it open.
  lemma {:induction false} DoneClosedOnce(steerer: bool, replayer: bool, schedule: seq<Step>, st: Step)
    requires Enabled(Exec(steerer, replayer, schedule), st) && (st.TurnCloses? || st.ReplayCloses?)
    ensures !Exec(steerer, replayer, schedule).ops[st.op].done
  {
    var s := Exec(steerer, replayer, schedule);
    Invariant(steerer, replayer, schedule);
    assert OpOk(s.activeOp, s.evicted, s.dispatcher, s.owner, s.log, st.op, s.ops[st.op]);
  }

  // The state while the prompt m runs alone, with queued messages behind it.
  function OneRunning(m: Msg): State {
    Init(false, false).(accepted := [m, m], owner := [Taken(0)], ops := [NewOp(Turn, 0).(phase := Running)],
                        activeTurn := Taken(0), activeOp := Taken(0), log := Then(Empty, Begin(0)))
  }

  lemma PromptTaken(m: Msg) returns (schedule: seq<Step>)
    ensures Exec(false, false, schedule)
        == Init(false, false).(accepted := [m, m], owner := [Free], dispatcher := Handling(0))
  {
    schedule := [];
    ExecNext(false, false, schedule, Enqueue(m));
    schedule := schedule + [Enqueue(m)];
    ExecNext(false, false, schedule, Enqueue(m));
    schedule := schedule + [Enqueue(m)];
    ExecNext(false, false, schedule, Receive);
    schedule := schedule + [Receive];
  }

  lemma PromptRuns(m: Msg) returns (schedule: seq<Step>)
    requires m.verb.Prompt? && m.wellFormed
    ensures Exec(false, false, schedule) == OneRunning(m)
  {
    schedule := PromptTaken(m);
    ExecNext(false, false, schedule, RunHandler(InPlaceResult));
    schedule := schedule + [RunHandler(InPlaceResult)];
    ExecNext(false, false, schedule, EmitBegin(true, Panicked));
    schedule := schedule + [EmitBegin(true, Panicked)];
  }

  lemma Shutdown(m: Msg) returns (schedule: seq<Step>)
    requires m.verb.Prompt? && m.wellFormed
    ensures Exec(false, false, schedule) ==
            OneRunning(m).(readDone := true, ctxDone := true, cleared := true, evicted := Taken(0),
                activeTurn := Free, activeOp := Free,
                           ops := [NewOp(Turn, 0).(phase := Running, ctxDone := true)])
  {
    schedule := PromptRuns(m);
    ExecNext(false, false, schedule, ReaderExit);
    schedule := schedule + [ReaderExit];
    ExecNext(false, false, schedule, CancelServe);
    schedule := schedule + [CancelServe];
    ExecNext(false, false, schedule, ClearActiveTurn);
    schedule := schedule + [ClearActiveTurn];
  }

  lemma OverlapMarks(log: Log)
    requires log == Then(Then(Empty, Begin(0)), Begin(1))
    ensures !Alternating(Marks(log, Free))
  {
    var marks := Marks(log, Free);
    assert Marks(log.before, Free) == [Begin(0)];
    assert marks == [Begin(0), Begin(1)];
    var n: nat := 1;
    assert marks[n].Begin?;
  }

  // The slot is emptied before its operation is over, and the dispatcher's select may still take a
  // queued prompt: then two agent calls run at once and the frames of the whole output overlap.
  lemma OverlapAfterShutdown(m: Msg)
    requires m.verb.Prompt? && m.wellFormed
    ensures exists schedule: seq<Step> ::
              var s := Exec(false, false, schedule);
              && |s.ops| == 2 && s.ops[0].phase.Running? && s.ops[1].phase.Running? && !Exclusive(s)
              && Frames(s.log, Free).Broken? && !Alternating(Marks(s.log, Free))
  {
    var schedule := Shutdown(m);
    var s := Exec(false, false, schedule);
    ExecNext(false, false, schedule, Receive);
    schedule := schedule + [Receive];
    ExecNext(false, false, schedule, RunHandler(InPlaceResult));
    schedule := schedule + [RunHandler(InPlaceResult)];
    ExecNext(false, false, schedule, EmitBegin(true, Panicked));
    schedule := schedule + [EmitBegin(true, Panicked)];
    var s' := Exec(false, false, schedule);
    OverlapMarks(s'.log);
    assert Holds(s'.ops[0]) && Holds(s'.ops[1]);
  }
}
