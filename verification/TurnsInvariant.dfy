// The invariant of the turn machine: every step keeps it.
module TurnsInvariant {
  import opened Turns
  import opened TurnsSteps

  // The operation has taken the slot and has not yet run the section that gives it back.
  predicate Holds(o: Op) {
    match o.phase
    case Accepted => true
    case Running => true
    case EmitEnd => true
    case CloseDone => o.kind.Turn?
    case ClearSlot => true
    case ReadFlag => false
    case Respond => o.kind.Replaying?
    case Finished => false
  }

  // The operation still has to answer its message.
  predicate Owes(o: Op) {
    !o.phase.Finished? && (o.kind.Turn? || o.phase.Running? || o.phase.Respond?)
  }

  predicate Begun(o: Op) {
    o.kind.Turn? && !o.phase.Accepted?
  }

  predicate Ended(o: Op) {
    o.kind.Turn? && !o.phase.Accepted? && !o.phase.Running? && !o.phase.EmitEnd?
  }

  // endTurn is running.
  predicate Closing(o: Op) {
    o.kind.Turn? && !o.phase.Accepted? && !o.phase.Running? && !o.phase.Finished?
  }

  // The message in the dispatcher's hand, which it has to answer itself.
  function InHand(d: Dispatcher): Slot {
    match d
    case Handling(k) => Taken(k)
    case Flagging(k, _, _) => Taken(k)
    case Cancelling(k, _) => Taken(k)
    case AwaitingDone(k, _) => Taken(k)
    case SteerSending(k, _) => Taken(k)
    case SteerCalling(k, _) => Taken(k)
    case Answering(k, _) => Taken(k)
    case _ => Free
  }

  // The operation the dispatcher is dealing with.
  function Target(d: Dispatcher): Slot {
    match d
    case Beginning(i) => Taken(i)
    case Ending(i) => Taken(i)
    case Flagging(_, j, _) => Taken(j)
    case Cancelling(_, j) => Taken(j)
    case AwaitingDone(_, j) => Taken(j)
    case SteerSending(_, j) => Taken(j)
    case SteerCalling(_, j) => Taken(j)
    case Answering(_, a) => if a.CancelDone? then Taken(a.op) else Free
    case _ => Free
  }

  predicate TargetOk(d: Dispatcher, o: Op) {
    match d
    case Beginning(_) => o.kind.Turn? && o.phase.Accepted?
    case Ending(_) => Closing(o)
    case Flagging(_, i, turn) => turn == if o.kind.Turn? then Taken(i) else Free
    case Cancelling(_, _) => o.kind.Turn? ==> o.cancelled
    case AwaitingDone(_, _) => o.ctxDone && (o.kind.Turn? ==> o.cancelled)
    case SteerSending(_, _) => o.kind.Turn?
    case SteerCalling(_, _) => o.kind.Turn?
    case Answering(_, _) => o.done
    case _ => true
  }

  // What is always true of one operation on its own.
  predicate LocalOk(o: Op) {
    && (o.kind.Replaying? ==> !o.phase.Accepted? && !o.phase.EmitEnd? && !o.phase.ReadFlag?)
    && (o.done <==> if o.kind.Turn? then !Holds(o) || o.phase.ClearSlot? else o.phase.Finished?)
    && (o.kind.Turn? && (o.phase.Respond? || o.phase.Finished?) ==>
          o.answer == PromptAnswer(o.outcome, o.wasCancelled) && (o.flagAtEnd ==> o.wasCancelled)
              && (o.wasCancelled ==> o.cancelled))
    && (o.flagAtEnd ==> o.cancelled)
    && (o.kind.Replaying? && !o.phase.Running? ==> o.answer == ReplayAnswer(o.outcome))
  }

  function AuthorOf(i: nat, o: Op): Author {
    if o.kind.Turn? then TurnOf(i) else ReplayOf(i)
  }

  // What is always true of operation i among the others.
  predicate OpOk(active: Slot, evicted: Slot, d: Dispatcher, owner: seq<Slot>, log: Log, i: nat, o: Op) {
    && LocalOk(o)
    && (active == Taken(i) <==> Holds(o) && evicted != Taken(i))
    && (o.phase.Accepted? ==> d == Beginning(i))
    && o.msg < |owner| && owner[o.msg] == Taken(i)
    && (In(log, Begin(i)) <==> Begun(o))
    && (In(log, End(i)) <==> Ended(o))
    && (!Owes(o) ==> Gave(log, o.msg, o.answer, AuthorOf(i, o)))
  }

  // What is always true of message k, once taken out of the queue.
  predicate MsgOk(d: Dispatcher, ops: seq<Op>, log: Log, k: nat, w: Slot) {
    && (w.Free? ==> (Replies(log, k) == 0 <==> InHand(d) == Taken(k)))
    && (w.Taken? ==> w.op < |ops| && ops[w.op].msg == k && (Replies(log, k) == 0 <==> Owes(ops[w.op])))
  }

  predicate InFrame(o: Op) {
    Begun(o) && !Ended(o)
  }

  // The turn frame that is open according to the goroutines.
  function OpenFrame(active: Slot, ops: seq<Op>): Frame {
    if active.Taken? && active.op < |ops| && InFrame(ops[active.op]) then Open(active.op) else Closed
  }

  ghost predicate OpsOk(s: State) {
    forall i: nat | i < |s.ops| :: OpOk(s.activeOp, s.evicted, s.dispatcher, s.owner, s.log, i, s.ops[i])
  }

  ghost predicate MsgsOk(s: State) {
    forall k: nat | k < |s.owner| :: MsgOk(s.dispatcher, s.ops, s.log, k, s.owner[k])
  }

  ghost predicate NothingNew(s: State) {
    && (forall i: nat | In(s.log, Begin(i)) || In(s.log, End(i)) :: i < |s.ops|)
    && (forall k: nat | Replies(s.log, k) > 0 :: k < |s.owner|)
  }

  ghost predicate SlotOk(s: State) {
    && (s.activeOp.Taken? ==> s.activeOp.op < |s.ops|)
    && s.activeTurn == (if s.activeOp.Taken? && s.ops[s.activeOp.op].kind.Turn? then s.activeOp else Free)
    && (s.evicted.Taken? ==> s.cleared && s.evicted.op < |s.ops|)
  }

  ghost predicate DispatcherOk(s: State) {
    && (Target(s.dispatcher).Taken? ==>
          Target(s.dispatcher).op < |s.ops| && TargetOk(s.dispatcher, s.ops[Target(s.dispatcher).op]))
    && (InHand(s.dispatcher).Taken? ==>
          InHand(s.dispatcher).op < |s.owner| && s.owner[InHand(s.dispatcher).op].Free?)
  }

  ghost predicate Inv(s: State) {
    && |s.owner| <= |s.accepted|
    && SlotOk(s)
    && DispatcherOk(s)
    && OpsOk(s)
    && MsgsOk(s)
    && NothingNew(s)
    && CausalLog(s.log)
    && Frames(s.log, s.evicted) == OpenFrame(s.activeOp, s.ops)
  }

  lemma CausalThen(log: Log, e: Entry)
    requires CausalLog(log) && EntryOk(log, e)
    ensures CausalLog(Then(log, e))
  {
  }

  lemma GotoKeeps(s: State, d: Dispatcher)
    requires Inv(s) && InHand(d) == InHand(s.dispatcher) && !s.dispatcher.Beginning?
    requires Target(d).Taken? ==> Target(d).op < |s.ops| && TargetOk(d, s.ops[Target(d).op])
    ensures Inv(Goto(s, d))
  {
  }

  lemma TakeKeeps(s: State)
    requires Inv(s) && Enabled(s, Receive)
    ensures Inv(Take(s))
  {
  }

  lemma StartTurnKeeps(s: State, k: nat)
    requires Inv(s) && s.dispatcher == Handling(k) && !SlotBusy(s)
    ensures Inv(StartTurn(s, k))
  {
  }

  lemma StartReplayKeeps(s: State, k: nat)
    requires Inv(s) && s.dispatcher == Handling(k) && !SlotBusy(s)
    ensures Inv(StartReplay(s, k))
  {
  }

  lemma ChangeKeepsOps(s: State, i: nat, o: Op, d: Dispatcher)
    requires Inv(s) && i < |s.ops|
    requires d == s.dispatcher || (InHand(d) == InHand(s.dispatcher) && !s.dispatcher.Beginning? && !d.Beginning?
        && Target(d) == Taken(i))
    requires Target(d) == Taken(i) ==> TargetOk(d, o)
    requires o.kind == s.ops[i].kind && o.msg == s.ops[i].msg && LocalOk(o)
    requires Holds(o) == Holds(s.ops[i]) && Owes(o) == Owes(s.ops[i])
    requires o.phase.Accepted? == s.ops[i].phase.Accepted? && Ended(o) == Ended(s.ops[i])
    requires (Owes(o) || o.answer == s.ops[i].answer)
    ensures OpsOk(Change(s, i, o, d))
  {
  }

  lemma ChangeKeepsMsgs(s: State, i: nat, o: Op, d: Dispatcher)
    requires Inv(s) && i < |s.ops| && InHand(d) == InHand(s.dispatcher)
    requires o.msg == s.ops[i].msg && Owes(o) == Owes(s.ops[i])
    ensures MsgsOk(Change(s, i, o, d))
  {
  }

  // Changing one operation without writing and without touching the slot.
  lemma ChangeKeeps(s: State, i: nat, o: Op, d: Dispatcher)
    requires Inv(s) && i < |s.ops|
    requires d == s.dispatcher || (InHand(d) == InHand(s.dispatcher) && !s.dispatcher.Beginning? && !d.Beginning?
        && Target(d) == Taken(i))
    requires Target(d) == Taken(i) ==> TargetOk(d, o)
    requires o.kind == s.ops[i].kind && o.msg == s.ops[i].msg && LocalOk(o)
    requires Holds(o) == Holds(s.ops[i]) && Owes(o) == Owes(s.ops[i])
    requires o.phase.Accepted? == s.ops[i].phase.Accepted? && Ended(o) == Ended(s.ops[i])
    requires (Owes(o) || o.answer == s.ops[i].answer)
    ensures Inv(Change(s, i, o, d))
  {
    ChangeKeepsOps(s, i, o, d);
    ChangeKeepsMsgs(s, i, o, d);
  }

  lemma GiveBackTurnKeepsOps(s: State, i: nat)
    requires Inv(s) && i < |s.ops| && s.ops[i].kind.Turn? && s.ops[i].phase.ClearSlot?
    ensures OpsOk(GiveBackTurn(s, i))
  {
  }

  lemma GiveBackTurnKeepsMsgs(s: State, i: nat)
    requires Inv(s) && i < |s.ops| && s.ops[i].kind.Turn? && s.ops[i].phase.ClearSlot?
    ensures MsgsOk(GiveBackTurn(s, i))
  {
  }

  lemma GiveBackTurnKeeps(s: State, i: nat)
    requires Inv(s) && i < |s.ops| && s.ops[i].kind.Turn? && s.ops[i].phase.ClearSlot?
    ensures Inv(GiveBackTurn(s, i))
  {
    GiveBackTurnKeepsOps(s, i);
    GiveBackTurnKeepsMsgs(s, i);
  }

  lemma GiveBackReplayKeepsOps(s: State, i: nat)
    requires Inv(s) && i < |s.ops| && s.ops[i].kind.Replaying? && s.ops[i].phase.ClearSlot?
    ensures OpsOk(GiveBackReplay(s, i))
  {
  }

  lemma GiveBackReplayKeepsMsgs(s: State, i: nat)
    requires Inv(s) && i < |s.ops| && s.ops[i].kind.Replaying? && s.ops[i].phase.ClearSlot?
    ensures MsgsOk(GiveBackReplay(s, i))
  {
  }

  lemma GiveBackReplayKeeps(s: State, i: nat)
    requires Inv(s) && i < |s.ops| && s.ops[i].kind.Replaying? && s.ops[i].phase.ClearSlot?
    ensures Inv(GiveBackReplay(s, i))
  {
    GiveBackReplayKeepsOps(s, i);
    GiveBackReplayKeepsMsgs(s, i);
  }

  // The frames after operation i has written e and become o.
  lemma FramesAfter(s: State, i: nat, o: Op, e: Entry)
    requires Inv(s) && i < |s.ops|
    requires match e
      case Begin(j) => j == i && s.ops[i].phase.Accepted? && InFrame(o)
      case End(j) => j == i && InFrame(s.ops[i]) && !InFrame(o)
      case AgentEvent(_, _) => false
      case HandlerEvent(_) => false
      case Reply(_, _, _, _) => InFrame(o) == InFrame(s.ops[i])
    ensures Frames(Then(s.log, e), s.evicted) == OpenFrame(s.activeOp, s.ops[i := o])
  {
    var ops := s.ops[i := o];
    assert OpOk(s.activeOp, s.evicted, s.dispatcher, s.owner, s.log, i, s.ops[i]);
    if s.activeOp.Taken? && s.activeOp.op != i {
      assert ops[s.activeOp.op] == s.ops[s.activeOp.op];
    }
    assert s.activeOp != Taken(i) ==> OpenFrame(s.activeOp, ops) == OpenFrame(s.activeOp, s.ops);
  }

  lemma BeginKeepsOps(s: State, i: nat, o: Op, d: Dispatcher)
    requires Inv(s) && s.dispatcher == Beginning(i)
    requires o == s.ops[i].(phase := o.phase, outcome := o.outcome, flagAtEnd := o.flagAtEnd) && LocalOk(o)
    requires (o.phase.Running? && d.Idle?) || (o.phase.EmitEnd? && d == Ending(i))
    ensures OpsOk(Write(s, i, o, d, Begin(i)))
  {
  }

  lemma BeginKeeps(s: State, i: nat, o: Op, d: Dispatcher)
    requires Inv(s) && s.dispatcher == Beginning(i)
    requires o == s.ops[i].(phase := o.phase, outcome := o.outcome, flagAtEnd := o.flagAtEnd) && LocalOk(o)
    requires (o.phase.Running? && d.Idle?) || (o.phase.EmitEnd? && d == Ending(i))
    ensures Inv(Write(s, i, o, d, Begin(i)))
  {
    FramesAfter(s, i, o, Begin(i));
    CausalThen(s.log, Begin(i));
    BeginKeepsOps(s, i, o, d);
  }

  lemma EndKeepsOps(s: State, i: nat)
    requires Inv(s) && i < |s.ops| && s.ops[i].kind.Turn? && s.ops[i].phase.EmitEnd?
    ensures OpsOk(Write(s, i, s.ops[i].(phase := CloseDone), s.dispatcher, End(i)))
  {
  }

  lemma EndKeeps(s: State, i: nat)
    requires Inv(s) && i < |s.ops| && s.ops[i].kind.Turn? && s.ops[i].phase.EmitEnd?
    ensures Inv(Write(s, i, s.ops[i].(phase := CloseDone), s.dispatcher, End(i)))
  {
    EndKeepsOps(s, i);
    FramesAfter(s, i, s.ops[i].(phase := CloseDone), End(i));
    CausalThen(s.log, End(i));
  }

  lemma ReplyKeepsOps(s: State, i: nat, o: Op, d: Dispatcher, id: string, author: Author)
    requires Inv(s) && i < |s.ops| && s.ops[i].phase.Respond?
    requires o == s.ops[i].(phase := if o.kind.Turn? then Finished else ClearSlot)
    requires d == if s.dispatcher == Ending(i) then Idle else s.dispatcher
    requires author == AuthorOf(i, o)
    ensures OpsOk(Write(s, i, o, d, Reply(o.msg, id, o.answer, author)))
  {
  }

  lemma ReplyKeepsMsgs(s: State, i: nat, o: Op, d: Dispatcher, id: string, author: Author)
    requires Inv(s) && i < |s.ops| && s.ops[i].phase.Respond?
    requires o == s.ops[i].(phase := if o.kind.Turn? then Finished else ClearSlot)
    requires d == if s.dispatcher == Ending(i) then Idle else s.dispatcher
    requires author == AuthorOf(i, o)
    ensures MsgsOk(Write(s, i, o, d, Reply(o.msg, id, o.answer, author)))
  {
  }

  lemma ReplyKeepsRest(s: State, i: nat, o: Op, d: Dispatcher, id: string, author: Author)
    requires Inv(s) && i < |s.ops| && s.ops[i].phase.Respond?
    requires o == s.ops[i].(phase := if o.kind.Turn? then Finished else ClearSlot)
    requires d == if s.dispatcher == Ending(i) then Idle else s.dispatcher
    ensures var s' := Write(s, i, o, d, Reply(o.msg, id, o.answer, author));
            DispatcherOk(s') && SlotOk(s') && NothingNew(s')
  {
    assert OpOk(s.activeOp, s.evicted, s.dispatcher, s.owner, s.log, i, s.ops[i]);
  }

  lemma ReplyIsDue(s: State, i: nat, o: Op, id: string, author: Author)
    requires Inv(s) && i < |s.ops| && s.ops[i].phase.Respond?
    requires o == s.ops[i].(phase := if o.kind.Turn? then Finished else ClearSlot) && author == AuthorOf(i, o)
    ensures EntryOk(s.log, Reply(o.msg, id, o.answer, author)) && InFrame(o) == InFrame(s.ops[i])
  {
    assert OpOk(s.activeOp, s.evicted, s.dispatcher, s.owner, s.log, i, s.ops[i]);
    assert MsgOk(s.dispatcher, s.ops, s.log, o.msg, s.owner[o.msg]);
  }

  lemma ReplyKeeps(s: State, i: nat, o: Op, d: Dispatcher, id: string, author: Author)
    requires Inv(s) && i < |s.ops| && s.ops[i].phase.Respond?
    requires o == s.ops[i].(phase := if o.kind.Turn? then Finished else ClearSlot)
    requires d == if s.dispatcher == Ending(i) then Idle else s.dispatcher
    requires author == AuthorOf(i, o)
    ensures Inv(Write(s, i, o, d, Reply(o.msg, id, o.answer, author)))
  {
    var e := Reply(o.msg, id, o.answer, author);
    ReplyIsDue(s, i, o, id, author);
    FramesAfter(s, i, o, e);
    ReplyKeepsRest(s, i, o, d, id, author);
    ReplyKeepsOps(s, i, o, d, id, author);
    ReplyKeepsMsgs(s, i, o, d, id, author);
    CausalThen(s.log, e);
  }

  lemma {:induction false} GaveReplied(log: Log, k: nat, answer: Answer, author: Author)
    requires Gave(log, k, answer, author)
    ensures RepliedBy(log, author)
  {
    if !(log.last.Reply? && log.last.author == author) {
      GaveReplied(log.before, k, answer, author);
    }
  }

  lemma AnswerKeepsOps(s: State, k: nat, a: Answer)
    requires Inv(s) && s.dispatcher == Answering(k, a)
    ensures OpsOk(AnswerNow(s, k, a)) && NothingNew(AnswerNow(s, k, a))
  {
  }

  lemma AnswerKeepsMsgs(s: State, k: nat, a: Answer)
    requires Inv(s) && s.dispatcher == Answering(k, a)
    ensures MsgsOk(AnswerNow(s, k, a))
  {
  }

  lemma AnswerKeeps(s: State, k: nat, a: Answer)
    requires Inv(s) && s.dispatcher == Answering(k, a)
    ensures Inv(AnswerNow(s, k, a))
  {
    var e := Reply(k, s.accepted[k].id, a, Handler);
    assert MsgOk(s.dispatcher, s.ops, s.log, k, s.owner[k]);
    if a.CancelDone? {
      var o := s.ops[a.op];
      assert OpOk(s.activeOp, s.evicted, s.dispatcher, s.owner, s.log, a.op, o);
      if o.kind.Replaying? {
        GaveReplied(s.log, o.msg, o.answer, ReplayOf(a.op));
      }
    }
    CausalThen(s.log, e);
    AnswerKeepsOps(s, k, a);
    AnswerKeepsMsgs(s, k, a);
    assert Frames(Then(s.log, e), s.evicted) == FrameStep(Frames(s.log, s.evicted), e, s.evicted);
  }

  // Leaving out one operation's writes closes the frame it had open and changes nothing else.
  lemma {:induction false} FramesWithout(log: Log, i: nat)
    requires !Frames(log, Free).Broken?
    ensures Frames(log, Taken(i)) == if Frames(log, Free) == Open(i) then Closed else Frames(log, Free)
  {
    if log.Then? {
      FramesWithout(log.before, i);
    }
  }

  // Taking the active operation out of the slot.
  lemma EvictKeeps(s: State)
    requires Inv(s) && !s.cleared
    ensures Inv(s.(activeTurn := Free, activeOp := Free, cleared := true, evicted := s.activeOp))
  {
    if s.activeOp.Taken? {
      FramesWithout(s.log, s.activeOp.op);
    }
  }

  lemma ClearActiveKeeps(s: State)
    requires Inv(s) && !s.cleared
    ensures Inv(ClearActive(s))
  {
    if s.activeOp.Taken? {
      var i := s.activeOp.op;
      assert OpOk(s.activeOp, s.evicted, s.dispatcher, s.owner, s.log, i, s.ops[i]);
      ChangeKeeps(s, i, s.ops[i].(ctxDone := true), s.dispatcher);
      EvictKeeps(Change(s, i, s.ops[i].(ctxDone := true), s.dispatcher));
    } else {
      EvictKeeps(s);
    }
  }

  lemma EventKeepsOps(s: State, e: Entry)
    requires OpsOk(s) && (e.AgentEvent? || e.HandlerEvent?)
    ensures OpsOk(s.(log := Then(s.log, e)))
  {
  }

  lemma EventKeepsMsgs(s: State, e: Entry)
    requires MsgsOk(s) && (e.AgentEvent? || e.HandlerEvent?)
    ensures MsgsOk(s.(log := Then(s.log, e)))
  {
  }

  // An event that fits into the frames is written.
  lemma EventKeeps(s: State, e: Entry)
    requires Inv(s) && (e.AgentEvent? || e.HandlerEvent?) && EntryOk(s.log, e)
    requires FrameStep(Frames(s.log, s.evicted), e, s.evicted) == Frames(s.log, s.evicted)
    ensures Inv(s.(log := Then(s.log, e)))
  {
    EventKeepsOps(s, e);
    EventKeepsMsgs(s, e);
    CausalThen(s.log, e);
    assert Frames(Then(s.log, e), s.evicted) == FrameStep(Frames(s.log, s.evicted), e, s.evicted);
  }

  lemma AgentEmitKeeps(s: State, i: nat)
    requires Inv(s) && Enabled(s, AgentEmit(i))
    ensures Inv(Apply(s, AgentEmit(i)))
  {
    assert OpOk(s.activeOp, s.evicted, s.dispatcher, s.owner, s.log, i, s.ops[i]);
    EventKeeps(s, AgentEvent(i, s.ops[i].kind.Turn?));
  }

  lemma HandlerEmitKeeps(s: State)
    requires Inv(s) && Enabled(s, EmitFromHandler)
    ensures Inv(Apply(s, EmitFromHandler))
  {
    assert MsgOk(s.dispatcher, s.ops, s.log, s.dispatcher.msg, s.owner[s.dispatcher.msg]);
    EventKeeps(s, HandlerEvent(s.dispatcher.msg));
  }

  lemma OutsideKeeps(s: State, st: Step)
    requires Inv(s) && Enabled(s, st) && (st.Enqueue? || st.ReaderExit? || st.CancelServe?)
    ensures Inv(Apply(s, st))
  {
  }

  lemma JudgeOk(s: State, k: nat, a: Answer)
    requires Inv(s) && s.dispatcher == Handling(k) && (a.InPlaceResult? || a.Error?)
    ensures var v := Judge(s, k, a);
            if v.Start? then !SlotBusy(s) && (s.accepted[k].verb.Prompt? || s.accepted[k].verb.Replay?)
            else
              && InHand(v.d) == Taken(k)
              && (Target(v.d).Taken? ==> Target(v.d).op < |s.ops| && TargetOk(v.d, s.ops[Target(v.d).op]))
  {
  }

  lemma HandleKeeps(s: State, k: nat, a: Answer)
    requires Inv(s) && s.dispatcher == Handling(k) && (a.InPlaceResult? || a.Error?)
    ensures Inv(Handle(s, k, a))
  {
    JudgeOk(s, k, a);
    var v := Judge(s, k, a);
    if v.Go? {
      GotoKeeps(s, v.d);
    } else if s.accepted[k].verb.Prompt? {
      StartTurnKeeps(s, k);
    } else {
      StartReplayKeeps(s, k);
    }
  }

  lemma ReturnKeeps(s: State, i: nat, outcome: Outcome)
    requires Inv(s) && i < |s.ops| && s.ops[i].phase.Running?
    ensures Inv(Return(s, i, outcome))
  {
    var o := s.ops[i];
    assert OpOk(s.activeOp, s.evicted, s.dispatcher, s.owner, s.log, i, o);
    if o.kind.Turn? {
      ChangeKeeps(s, i, o.(phase := EmitEnd, outcome := outcome, flagAtEnd := o.cancelled), s.dispatcher);
    } else {
      ChangeKeeps(s, i, o.(phase := Respond, outcome := outcome, answer := ReplayAnswer(outcome)), s.dispatcher);
    }
  }

  // The sections of endTurn and of a replay's end that do not write.
  lemma CloseTurnKeeps(s: State, i: nat)
    requires Inv(s) && Enabled(s, TurnCloses(i))
    ensures Inv(CloseTurn(s, i))
  {
    var o := s.ops[i];
    assert OpOk(s.activeOp, s.evicted, s.dispatcher, s.owner, s.log, i, o);
    ChangeKeeps(s, i, o.(phase := ClearSlot, ctxDone := true, done := true), s.dispatcher);
  }

  lemma SettleTurnKeeps(s: State, i: nat)
    requires Inv(s) && Enabled(s, TurnSettles(i))
    ensures Inv(SettleTurn(s, i))
  {
    var o := s.ops[i];
    assert OpOk(s.activeOp, s.evicted, s.dispatcher, s.owner, s.log, i, o);
    ChangeKeeps(s, i, o.(phase := Respond, wasCancelled := o.cancelled, answer := PromptAnswer(o.outcome, o.cancelled)),
                s.dispatcher);
  }

  lemma CloseReplayKeeps(s: State, i: nat)
    requires Inv(s) && Enabled(s, ReplayCloses(i))
    ensures Inv(CloseReplay(s, i))
  {
    var o := s.ops[i];
    assert OpOk(s.activeOp, s.evicted, s.dispatcher, s.owner, s.log, i, o);
    ChangeKeeps(s, i, o.(phase := Finished, done := true), s.dispatcher);
  }

  lemma RespondKeeps(s: State, st: Step)
    requires Inv(s) && Enabled(s, st) && (st.TurnResponds? || st.ReplayResponds?)
    ensures Inv(Apply(s, st))
  {
    var i := st.op;
    var o := s.ops[i];
    assert OpOk(s.activeOp, s.evicted, s.dispatcher, s.owner, s.log, i, o);
    if st.TurnResponds? {
      ReplyKeeps(s, i, o.(phase := Finished), if s.dispatcher == Ending(i) then Idle else s.dispatcher,
                 s.accepted[o.msg].id, TurnOf(i));
    } else {
      ReplyKeeps(s, i, o.(phase := ClearSlot), s.dispatcher, s.accepted[o.msg].id, ReplayOf(i));
    }
  }

  lemma BeginTurnKeeps(s: State, i: nat, ok: bool, failure: Outcome)
    requires Inv(s) && s.dispatcher == Beginning(i)
    ensures Inv(BeginTurn(s, i, ok, failure))
  {
    var o := s.ops[i];
    assert OpOk(s.activeOp, s.evicted, s.dispatcher, s.owner, s.log, i, o);
    if ok {
      BeginKeeps(s, i, o.(phase := Running), Idle);
    } else {
      BeginKeeps(s, i, o.(phase := EmitEnd, outcome := failure, flagAtEnd := o.cancelled), Ending(i));
    }
  }

  // The dispatcher changes one field of the operation it is dealing with.
  lemma TouchKeeps(s: State, i: nat, o: Op, d: Dispatcher)
    requires Inv(s) && i < |s.ops| && InHand(d) == InHand(s.dispatcher) && InHand(d).Taken? && Target(d) == Taken(i)
    requires TargetOk(d, o)
    requires o == s.ops[i].(cancelled := o.cancelled, ctxDone := o.ctxDone, steerFull := o.steerFull)
    requires s.ops[i].cancelled ==> o.cancelled
    ensures Inv(Change(s, i, o, d))
  {
    assert OpOk(s.activeOp, s.evicted, s.dispatcher, s.owner, s.log, i, s.ops[i]);
    ChangeKeeps(s, i, o, d);
  }

  lemma DispatchKeeps(s: State, st: Step)
    requires Inv(s) && Enabled(s, st) && (st.SetFlag? || st.CallCancel? || st.SendSteer?)
    ensures Inv(Apply(s, st))
  {
    var d := s.dispatcher;
    var o := s.ops[d.op];
    match st
    case SetFlag =>
      if d.turn.Taken? {
        TouchKeeps(s, d.op, o.(cancelled := true), Cancelling(d.msg, d.op));
      } else {
        GotoKeeps(s, Cancelling(d.msg, d.op));
      }
    case CallCancel => TouchKeeps(s, d.op, o.(ctxDone := true), AwaitingDone(d.msg, d.op));
    case SendSteer => TouchKeeps(s, d.op, o.(steerFull := true), SteerCalling(d.msg, d.op));
  }

  lemma MoveKeeps(s: State, st: Step)
    requires Inv(s) && Enabled(s, st)
    requires st.SeeDone? || st.SeeShutdown? || st.SteerGone? || st.SteerReturn? || st.LoopExit?
    ensures Inv(Apply(s, st))
  {
    var d := s.dispatcher;
    match st
    case SeeDone => GotoKeeps(s, Answering(d.msg, CancelDone(d.op)));
    case SeeShutdown => GotoKeeps(s, Answering(d.msg, Error(INTERNAL_ERROR)));
    case SteerGone => GotoKeeps(s, Answering(d.msg, Error(NO_TURN_IN_PROGRESS)));
    case SteerReturn(a) => GotoKeeps(s, Answering(d.msg, a));
    case LoopExit => GotoKeeps(s, Exited);
  }

  lemma TakeSteerKeeps(s: State, i: nat)
    requires Inv(s) && Enabled(s, TakeSteer(i))
    ensures Inv(Apply(s, TakeSteer(i)))
  {
    assert OpOk(s.activeOp, s.evicted, s.dispatcher, s.owner, s.log, i, s.ops[i]);
    ChangeKeeps(s, i, s.ops[i].(steerFull := false), s.dispatcher);
  }

  // Every step keeps the invariant.
  lemma {:induction false} StepKeeps(s: State, st: Step)
    requires Inv(s) && Enabled(s, st)
    ensures Inv(Apply(s, st))
  {
    var d := s.dispatcher;
    match st
    case ClearActiveTurn => ClearActiveKeeps(s);
    case Receive => TakeKeeps(s);
    case RunHandler(a) => HandleKeeps(s, d.msg, a);
    case EmitBegin(ok, failure) => BeginTurnKeeps(s, d.op, ok, failure);
    case EmitFromHandler => HandlerEmitKeeps(s);
    case WriteAnswer => AnswerKeeps(s, d.msg, d.answer);
    case AgentEmit(i) => AgentEmitKeeps(s, i);
    case TakeSteer(i) => TakeSteerKeeps(s, i);
    case AgentReturn(i, outcome) => ReturnKeeps(s, i, outcome);
    case TurnEnds(i) => EndKeeps(s, i);
    case TurnCloses(i) => CloseTurnKeeps(s, i);
    case TurnGivesBack(i) => GiveBackTurnKeeps(s, i);
    case TurnSettles(i) => SettleTurnKeeps(s, i);
    case TurnResponds(_) => RespondKeeps(s, st);
    case ReplayResponds(_) => RespondKeeps(s, st);
    case ReplayGivesBack(i) => GiveBackReplayKeeps(s, i);
    case ReplayCloses(i) => CloseReplayKeeps(s, i);
    case SetFlag => DispatchKeeps(s, st);
    case CallCancel => DispatchKeeps(s, st);
    case SendSteer => DispatchKeeps(s, st);
    case SeeDone => MoveKeeps(s, st);
    case SeeShutdown => MoveKeeps(s, st);
    case SteerGone => MoveKeeps(s, st);
    case SteerReturn(_) => MoveKeeps(s, st);
    case LoopExit => MoveKeeps(s, st);
    case _ => OutsideKeeps(s, st);
  }

  lemma {:induction false} OwnIdsGrow(log: Log, accepted: seq<Msg>, m: Msg)
    requires OwnIds(log, accepted)
    ensures OwnIds(log, accepted + [m])
  {
    if log.Then? {
      OwnIdsGrow(log.before, accepted, m);
    }
  }

  lemma OwnIdsThen(s: State, log: Log, e: Entry)
    requires OwnIds(s.log, s.accepted)
    requires log == s.log || log == Then(s.log, e)
    requires e.Reply? ==> e.msg < |s.accepted| && e.id == s.accepted[e.msg].id
    ensures OwnIds(log, s.accepted)
  {
  }

  lemma LoudStep(s: State, st: Step)
    requires Enabled(s, st) && OwnIds(s.log, s.accepted)
    requires Loud(st)
    ensures OwnIds(Apply(s, st).log, Apply(s, st).accepted)
  {
    OwnIdsThen(s, Apply(s, st).log, Apply(s, st).log.last);
  }

  lemma StepKeepsIds(s: State, st: Step)
    requires Enabled(s, st) && OwnIds(s.log, s.accepted)
    ensures OwnIds(Apply(s, st).log, Apply(s, st).accepted)
  {
    if st.Enqueue? {
      OwnIdsGrow(s.log, s.accepted, st.m);
    } else if Loud(st) {
      LoudStep(s, st);
    } else {
      QuietStep(s, st);
    }
  }

  // Every schedule keeps it.
  lemma {:induction false} Invariant(steerer: bool, replayer: bool, schedule: seq<Step>)
    ensures Inv(Exec(steerer, replayer, schedule))
    ensures OwnIds(Exec(steerer, replayer, schedule).log, Exec(steerer, replayer, schedule).accepted)
  {
    if schedule != [] {
      var s := Exec(steerer, replayer, schedule[..|schedule| - 1]);
      Invariant(steerer, replayer, schedule[..|schedule| - 1]);
      if Enabled(s, schedule[|schedule| - 1]) {
        StepKeeps(s, schedule[|schedule| - 1]);
        StepKeepsIds(s, schedule[|schedule| - 1]);
      }
    }
  }
}
