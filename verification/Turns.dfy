// The server's turn machine: server/server.go and server/turn.go.
//
// One reader goroutine, one dispatch goroutine, one goroutine per accepted prompt or replay and the
// goroutine inside Serve share the turn slot and the output. Every lock-protected section, channel
// operation and write is one atomic step; a run is an arbitrary interleaving of such steps.
module Turns {
  const QUEUE_CAPACITY: nat := 1024

  const TURN_IN_PROGRESS := -32000
  const NO_TURN_IN_PROGRESS := -32001
  const METHOD_NOT_FOUND := -32601
  const INVALID_PARAMS := -32602
  const INTERNAL_ERROR := -32603

  // The handlers of initialize, set_plan_mode and unknown methods answer before they return and never
  // touch the turn slot: they are all InPlace here. That of set_plan_mode may emit events first.
  datatype Verb = Prompt | Steer | Cancel | Replay | InPlace

  datatype Msg = Msg(id: string, verb: Verb, wellFormed: bool)

  // How a call into the agent ended. Code 0 stands for an error that carries no code;
  // canceled says that the error is context.Canceled.
  datatype Outcome = Returned(result: nat) | Failed(code: int, canceled: bool) | Panicked

  datatype Answer =
    | AgentResult(result: nat)
    | PromptCancelled
    | ReplayCancelled
    | Steered
    | CancelDone(op: nat)  // success of a cancel that had captured operation op
    | InPlaceResult
    | Error(code: int)

  // ---------------------------------------------------------------------------------------------
  // The output
  // ---------------------------------------------------------------------------------------------

  // Who writes a reply: a dispatch handler, the end of a turn, or a replay goroutine.
  datatype Author = Handler | TurnOf(op: nat) | ReplayOf(op: nat)

  // One attempted write. Reply names the message instance it answers; id is the id it carries.
  datatype Entry =
    | Begin(op: nat)
    | End(op: nat)
    | AgentEvent(op: nat, turn: bool)
    | HandlerEvent(msg: nat)
    | Reply(msg: nat, id: string, answer: Answer, author: Author)

  // The attempted writes, oldest first.
  datatype Log = Empty | Then(before: Log, last: Entry)

  predicate In(log: Log, e: Entry) {
    log.Then? && (log.last == e || In(log.before, e))
  }

  // The number of replies to message instance k.
  function Replies(log: Log, k: nat): nat {
    if log.Empty? then 0
    else Replies(log.before, k) + if log.last.Reply? && log.last.msg == k then 1 else 0
  }

  predicate RepliedBy(log: Log, author: Author) {
    log.Then? && ((log.last.Reply? && log.last.author == author) || RepliedBy(log.before, author))
  }

  // The author has answered message k with answer.
  predicate Gave(log: Log, k: nat, answer: Answer, author: Author) {
    log.Then? &&
    ((log.last.Reply? && log.last.msg == k && log.last.answer == answer && log.last.author == author) ||
     Gave(log.before, k, answer, author))
  }

  // What must already have been written when e is.
  predicate EntryOk(before: Log, e: Entry) {
    match e
    case Begin(i) => !In(before, e)
    case End(i) => !In(before, e) && In(before, Begin(i))
    case AgentEvent(_, _) => true
    case HandlerEvent(k) => Replies(before, k) == 0
    case Reply(k, _, answer, author) =>
      && Replies(before, k) == 0
      && (author.TurnOf? ==> In(before, End(author.op)))
      && (answer.CancelDone? ==> In(before, End(answer.op)) || RepliedBy(before, ReplayOf(answer.op)))
  }

  predicate CausalLog(log: Log) {
    log.Then? ==> CausalLog(log.before) && EntryOk(log.before, log.last)
  }

  // Every reply carries the id of the message it answers.
  predicate OwnIds(log: Log, accepted: seq<Msg>) {
    log.Then? ==>
      && OwnIds(log.before, accepted)
      && (log.last.Reply? ==> log.last.msg < |accepted| && log.last.id == accepted[log.last.msg].id)
  }

  // The bracket structure of the writes, those of operation skip left out.
  datatype Frame = Closed | Open(op: nat) | Broken

  datatype Slot = Free | Taken(op: nat)

  function FrameStep(f: Frame, e: Entry, skip: Slot): Frame {
    match e
    case Begin(i) => if skip == Taken(i) then f else if f.Closed? then Open(i) else Broken
    case End(i) => if skip == Taken(i) then f else if f == Open(i) then Closed else Broken
    case AgentEvent(i, turn) =>
      if skip == Taken(i) || f == (if turn then Open(i) else Closed) then f else Broken
    case HandlerEvent(_) => f
    case Reply(_, _, _, _) => f
  }

  function Frames(log: Log, skip: Slot): Frame {
    if log.Empty? then Closed else FrameStep(Frames(log.before, skip), log.last, skip)
  }

  // ---------------------------------------------------------------------------------------------
  // Operations and goroutines
  // ---------------------------------------------------------------------------------------------

  datatype Kind = Turn | Replaying

  // The section an operation runs next. A turn goes through
  //   Accepted, Running, EmitEnd, CloseDone, ClearSlot, ReadFlag, Respond, Finished
  // and a replay through
  //   Running, Respond, ClearSlot, CloseDone, Finished.
  datatype Phase = Accepted | Running | EmitEnd | CloseDone | ClearSlot | ReadFlag | Respond | Finished

  datatype Op = Op(
    kind: Kind,
    msg: nat,              // the message that started it
    phase: Phase,
    cancelled: bool,       // turn.cancelled
    ctxDone: bool,         // its own context was cancelled
    done: bool,            // its done channel is closed
    steerFull: bool,       // turn.steerCh holds an input
    outcome: Outcome,      // how the agent call ended, from then on
    flagAtEnd: bool,       // history: turn.cancelled when the agent call ended
    wasCancelled: bool,    // what endTurn read from turn.cancelled
    answer: Answer)        // what it will answer, from phase Respond on

  datatype Dispatcher =
    | Idle
    | Handling(msg: nat)
    | Beginning(op: nat)                     // slot taken, TurnBegin not yet attempted
    | Ending(op: nat)                        // TurnBegin failed: the dispatcher runs endTurn itself
    | Flagging(msg: nat, op: nat, turn: Slot)  // the captured activeOp and activeTurn
    | Cancelling(msg: nat, op: nat)
    | AwaitingDone(msg: nat, op: nat)
    | SteerSending(msg: nat, op: nat)
    | SteerCalling(msg: nat, op: nat)
    | Answering(msg: nat, answer: Answer)
    | Exited

  datatype State = State(
    steerer: bool,                 // optional capabilities of the agent
    replayer: bool,
    accepted: seq<Msg>,            // every message ever put into dispatchCh
    owner: seq<Slot>,              // per message taken out of it, the operation it started;
                                   // dispatchCh holds accepted[|owner|..]
    dispatcher: Dispatcher,
    ops: seq<Op>,
    activeTurn: Slot,
    activeOp: Slot,
    log: Log,
    ctxDone: bool,                 // serveCtx is cancelled
    readDone: bool,
    cleared: bool,                 // clearActiveTurn has emptied the slot
    evicted: Slot)                 // the operation it found there

  function Init(steerer: bool, replayer: bool): State {
    State(steerer, replayer, [], [], Idle, [], Free, Free, Empty, false, false, false, Free)
  }

  function NewOp(kind: Kind, msg: nat): Op {
    Op(kind, msg, if kind.Turn? then Accepted else Running,
       false, false, false, false, Panicked, false, false, Error(0))
  }

  // ---------------------------------------------------------------------------------------------
  // The atomic sections
  // ---------------------------------------------------------------------------------------------

  // The dispatcher receives from dispatchCh.
  function Take(s: State): State {
    s.(owner := s.owner + [Free], dispatcher := Handling(|s.owner|))
  }

  function Goto(s: State, d: Dispatcher): State {
    s.(dispatcher := d)
  }

  // handlePrompt's locked section when the slot is free.
  function StartTurn(s: State, k: nat): State
    requires k < |s.owner|
  {
    s.(ops := s.ops + [NewOp(Turn, k)], owner := s.owner[k := Taken(|s.ops|)],
       activeTurn := Taken(|s.ops|), activeOp := Taken(|s.ops|), dispatcher := Beginning(|s.ops|))
  }

  // handleReplay's locked section when the slot is free, and the start of its goroutine.
  function StartReplay(s: State, k: nat): State
    requires k < |s.owner|
  {
    s.(ops := s.ops + [NewOp(Replaying, k)], owner := s.owner[k := Taken(|s.ops|)],
       activeOp := Taken(|s.ops|), dispatcher := Idle)
  }

  predicate SlotBusy(s: State) {
    s.activeTurn.Taken? || s.activeOp.Taken?
  }

  // What a handler does first: take the slot, or go on without it.
  datatype Verdict = Start | Go(d: Dispatcher)

  function HandlePrompt(s: State, k: nat, wellFormed: bool): Verdict {
    if !wellFormed then Go(Answering(k, Error(INVALID_PARAMS)))
    else if SlotBusy(s) then Go(Answering(k, Error(TURN_IN_PROGRESS)))
    else Start
  }

  function HandleReplay(s: State, k: nat): Verdict {
    if !s.replayer then Go(Answering(k, Error(METHOD_NOT_FOUND)))
    else if SlotBusy(s) then Go(Answering(k, Error(TURN_IN_PROGRESS)))
    else Start
  }

  function HandleCancel(s: State, k: nat): Verdict {
    if s.activeOp.Free? then Go(Answering(k, Error(NO_TURN_IN_PROGRESS)))
    else Go(Flagging(k, s.activeOp.op, s.activeTurn))
  }

  function HandleSteer(s: State, k: nat, wellFormed: bool): Verdict {
    if !s.steerer then Go(Answering(k, Error(METHOD_NOT_FOUND)))
    else if !wellFormed then Go(Answering(k, Error(INVALID_PARAMS)))
    else if s.activeTurn.Free? then Go(Answering(k, Error(NO_TURN_IN_PROGRESS)))
    else Go(SteerSending(k, s.activeTurn.op))
  }

  function Judge(s: State, k: nat, inPlace: Answer): Verdict
    requires k < |s.accepted|
  {
    var m := s.accepted[k];
    match m.verb
    case Prompt => HandlePrompt(s, k, m.wellFormed)
    case Replay => HandleReplay(s, k)
    case Cancel => HandleCancel(s, k)
    case Steer => HandleSteer(s, k, m.wellFormed)
    case InPlace => Go(Answering(k, inPlace))
  }

  function Handle(s: State, k: nat, inPlace: Answer): State
    requires k < |s.accepted| && k < |s.owner|
  {
    var v := Judge(s, k, inPlace);
    if v.Go? then Goto(s, v.d)
    else if s.accepted[k].verb.Prompt? then StartTurn(s, k)
    else StartReplay(s, k)
  }

  // Replaces operation i, moves the dispatcher.
  function Change(s: State, i: nat, o: Op, d: Dispatcher): State
    requires i < |s.ops|
  {
    s.(ops := s.ops[i := o], dispatcher := d)
  }

  // Likewise, together with one write.
  function Write(s: State, i: nat, o: Op, d: Dispatcher, e: Entry): State
    requires i < |s.ops|
  {
    s.(ops := s.ops[i := o], dispatcher := d, log := Then(s.log, e))
  }

  // TurnBegin is attempted; if the write fails the dispatcher goes on with endTurn.
  function BeginTurn(s: State, i: nat, ok: bool, failure: Outcome): State
    requires i < |s.ops|
  {
    var o := s.ops[i];
    if ok then Write(s, i, o.(phase := Running), Idle, Begin(i))
    else Write(s, i, o.(phase := EmitEnd, outcome := failure, flagAtEnd := o.cancelled), Ending(i), Begin(i))
  }

  function AnswerNow(s: State, k: nat, a: Answer): State
    requires k < |s.accepted|
  {
    s.(log := Then(s.log, Reply(k, s.accepted[k].id, a, Handler)), dispatcher := Idle)
  }

  // The agent call of operation i ends.
  function Return(s: State, i: nat, outcome: Outcome): State
    requires i < |s.ops|
  {
    var o := s.ops[i];
    if o.kind.Turn? then Change(s, i, o.(phase := EmitEnd, outcome := outcome, flagAtEnd := o.cancelled), s.dispatcher)
    else Change(s, i, o.(phase := Respond, outcome := outcome, answer := ReplayAnswer(outcome)), s.dispatcher)
  }

  // The answer endTurn chooses.
  function PromptAnswer(outcome: Outcome, wasCancelled: bool): Answer {
    var failed := !outcome.Returned?;
    var canceledErr := outcome.Failed? && outcome.canceled;
    if failed && !wasCancelled && !canceledErr then
      Error(if outcome.Failed? && outcome.code != 0 then outcome.code else INTERNAL_ERROR)
    else if wasCancelled || canceledErr then PromptCancelled
    else AgentResult(outcome.result)
  }

  function ReplayAnswer(outcome: Outcome): Answer {
    match outcome
    case Returned(r) => AgentResult(r)
    case Failed(_, canceled) => if canceled then ReplayCancelled else Error(INTERNAL_ERROR)
    case Panicked => Error(INTERNAL_ERROR)
  }


  // endTurn: TurnEnd is attempted ...
  function EndTurn(s: State, i: nat): State
    requires i < |s.ops|
  {
    Write(s, i, s.ops[i].(phase := CloseDone), s.dispatcher, End(i))
  }

  // ... turn.close cancels the context and closes done ...
  function CloseTurn(s: State, i: nat): State
    requires i < |s.ops|
  {
    Change(s, i, s.ops[i].(phase := ClearSlot, ctxDone := true, done := true), s.dispatcher)
  }

  // ... activeTurn and activeOp are cleared, if activeTurn is still this turn ...
  function GiveBackTurn(s: State, i: nat): State
    requires i < |s.ops|
  {
    var mine := s.activeTurn == Taken(i);
    s.(ops := s.ops[i := s.ops[i].(phase := ReadFlag)],
       activeTurn := if mine then Free else s.activeTurn,
       activeOp := if mine then Free else s.activeOp)
  }

  // ... turn.cancelled is read, which settles the answer ...
  function SettleTurn(s: State, i: nat): State
    requires i < |s.ops|
  {
    var o := s.ops[i];
    Change(s, i, o.(phase := Respond, wasCancelled := o.cancelled, answer := PromptAnswer(o.outcome, o.cancelled)),
        s.dispatcher)
  }

  // ... and the prompt is answered. If the dispatcher ran all this, it is idle again.
  function RespondTurn(s: State, i: nat): State
    requires i < |s.ops| && s.ops[i].msg < |s.accepted|
  {
    var o := s.ops[i];
    Write(s, i, o.(phase := Finished), if s.dispatcher == Ending(i) then Idle else s.dispatcher,
          Reply(o.msg, s.accepted[o.msg].id, o.answer, TurnOf(i)))
  }

  // The replay goroutine answers first ...
  function RespondReplay(s: State, i: nat): State
    requires i < |s.ops| && s.ops[i].msg < |s.accepted|
  {
    var o := s.ops[i];
    Write(s, i, o.(phase := ClearSlot), s.dispatcher, Reply(o.msg, s.accepted[o.msg].id, o.answer, ReplayOf(i)))
  }

  // ... then clears activeOp, if that still has its own done channel ...
  function GiveBackReplay(s: State, i: nat): State
    requires i < |s.ops|
  {
    s.(ops := s.ops[i := s.ops[i].(phase := CloseDone)],
       activeOp := if s.activeOp == Taken(i) then Free else s.activeOp)
  }

  // ... and closes it.
  function CloseReplay(s: State, i: nat): State
    requires i < |s.ops|
  {
    Change(s, i, s.ops[i].(phase := Finished, done := true), s.dispatcher)
  }

  // clearActiveTurn empties the slot and cancels what it found there.
  function ClearActive(s: State): State {
    s.(activeTurn := Free, activeOp := Free, cleared := true, evicted := s.activeOp,
       ops := if s.activeOp.Taken? && s.activeOp.op < |s.ops|
              then s.ops[s.activeOp.op := s.ops[s.activeOp.op].(ctxDone := true)]
              else s.ops)
  }

  // ---------------------------------------------------------------------------------------------
  // Schedules
  // ---------------------------------------------------------------------------------------------

  datatype Step =
    | Enqueue(m: Msg)                              // readLoop sends to dispatchCh
    | ReaderExit
    | CancelServe                                  // by Serve or by its caller's context
    | ClearActiveTurn
    | Receive                                      // the serveLoop select takes a message ...
    | LoopExit                                     // ... or the cancelled context
    | RunHandler(inPlace: Answer)
    | EmitBegin(ok: bool, failure: Outcome)
    | SetFlag
    | CallCancel
    | SeeDone
    | SeeShutdown
    | SendSteer
    | SteerGone
    | SteerReturn(answer: Answer)
    | EmitFromHandler                              // set_plan_mode's call into the agent
    | WriteAnswer
    | AgentEmit(op: nat)
    | TakeSteer(op: nat)
    | AgentReturn(op: nat, outcome: Outcome)
    | TurnEnds(op: nat)
    | TurnCloses(op: nat)
    | TurnGivesBack(op: nat)
    | TurnSettles(op: nat)
    | TurnResponds(op: nat)
    | ReplayResponds(op: nat)
    | ReplayGivesBack(op: nat)
    | ReplayCloses(op: nat)

  // The steps of the dispatch loop itself, of cancel and of steer after their first section ...
  predicate OfLoop(st: Step) {
    st.Receive? || st.LoopExit? || st.EmitFromHandler? || st.WriteAnswer?
  }

  predicate OfCancel(st: Step) {
    st.SetFlag? || st.CallCancel? || st.SeeDone? || st.SeeShutdown?
  }

  predicate OfSteer(st: Step) {
    st.SendSteer? || st.SteerGone? || st.SteerReturn?
  }

  // ... of the reader and Serve, of a running agent call ...
  predicate OfServe(st: Step) {
    st.Enqueue? || st.ReaderExit? || st.CancelServe?
  }

  predicate OfAgent(st: Step) {
    st.AgentEmit? || st.TakeSteer? || st.AgentReturn?
  }

  // ... and of the end of a turn or replay.
  predicate OfTurnEnd(st: Step) {
    st.TurnEnds? || st.TurnCloses? || st.TurnGivesBack? || st.TurnSettles? || st.TurnResponds?
  }

  predicate OfReplayEnd(st: Step) {
    st.ReplayResponds? || st.ReplayGivesBack? || st.ReplayCloses?
  }

  // The step attempts a write.
  predicate Loud(st: Step) {
    || st.EmitBegin? || st.TurnEnds? || st.AgentEmit? || st.EmitFromHandler? || st.WriteAnswer?
    || st.TurnResponds? || st.ReplayResponds?
  }

  // Operation i is of kind k and its next section is p.
  predicate Next(s: State, i: nat, k: Kind, p: Phase) {
    i < |s.ops| && s.ops[i].kind == k && s.ops[i].phase == p
  }

  predicate Enabled(s: State, st: Step) {
    match st
    case Enqueue(_) => !s.readDone && |s.accepted| - |s.owner| < QUEUE_CAPACITY
    case ReaderExit => !s.readDone
    case CancelServe => true
    case ClearActiveTurn => s.readDone && s.ctxDone && !s.cleared
    case Receive => s.dispatcher.Idle? && |s.owner| < |s.accepted|
    case LoopExit => s.dispatcher.Idle? && s.ctxDone
    case RunHandler(a) =>
      && s.dispatcher.Handling? && s.dispatcher.msg < |s.accepted| && s.dispatcher.msg < |s.owner|
      && (a.InPlaceResult? || a.Error?)
    case EmitBegin(ok, failure) => s.dispatcher.Beginning? && s.dispatcher.op < |s.ops| && (ok || failure.Failed?)
    case SetFlag =>
      && s.dispatcher.Flagging? && s.dispatcher.op < |s.ops|
      && (s.dispatcher.turn.Taken? ==> s.dispatcher.turn.op < |s.ops|)
    case CallCancel => s.dispatcher.Cancelling? && s.dispatcher.op < |s.ops|
    case SeeDone => s.dispatcher.AwaitingDone? && s.dispatcher.op < |s.ops| && s.ops[s.dispatcher.op].done
    case SeeShutdown => s.dispatcher.AwaitingDone? && s.ctxDone
    case SendSteer => s.dispatcher.SteerSending? && s.dispatcher.op < |s.ops| && !s.ops[s.dispatcher.op].steerFull
    case SteerGone =>
      && s.dispatcher.SteerSending? && s.dispatcher.op < |s.ops|
      && (s.ctxDone || s.ops[s.dispatcher.op].ctxDone)
    case SteerReturn(a) => s.dispatcher.SteerCalling? && (a.Steered? || a == Error(INTERNAL_ERROR))
    case EmitFromHandler =>
      && s.dispatcher.Handling? && s.dispatcher.msg < |s.accepted| && s.accepted[s.dispatcher.msg].verb.InPlace?
    case WriteAnswer => s.dispatcher.Answering? && s.dispatcher.msg < |s.accepted|
    case AgentEmit(i) => i < |s.ops| && s.ops[i].phase.Running?
    case TakeSteer(i) => i < |s.ops| && s.ops[i].phase.Running? && s.ops[i].steerFull
    case AgentReturn(i, _) => i < |s.ops| && s.ops[i].phase.Running?
    case TurnEnds(i) => Next(s, i, Turn, EmitEnd)
    case TurnCloses(i) => Next(s, i, Turn, CloseDone)
    case TurnGivesBack(i) => Next(s, i, Turn, ClearSlot)
    case TurnSettles(i) => Next(s, i, Turn, ReadFlag)
    case TurnResponds(i) => Next(s, i, Turn, Respond) && s.ops[i].msg < |s.accepted|
    case ReplayResponds(i) => Next(s, i, Replaying, Respond) && s.ops[i].msg < |s.accepted|
    case ReplayGivesBack(i) => Next(s, i, Replaying, ClearSlot)
    case ReplayCloses(i) => Next(s, i, Replaying, CloseDone)
  }

  function Apply(s: State, st: Step): State
    requires Enabled(s, st)
  {
    var d := s.dispatcher;
    match st
    case Enqueue(m) => s.(accepted := s.accepted + [m])
    case ReaderExit => s.(readDone := true)
    case CancelServe => s.(ctxDone := true)
    case ClearActiveTurn => ClearActive(s)
    case Receive => Take(s)
    case LoopExit => Goto(s, Exited)
    case RunHandler(a) => Handle(s, d.msg, a)
    case EmitBegin(ok, failure) => BeginTurn(s, d.op, ok, failure)
    case SetFlag =>
      // turn.cancelled of the captured turn, then op.cancel of the captured operation
      if d.turn.Taken? then Change(s, d.turn.op, s.ops[d.turn.op].(cancelled := true), Cancelling(d.msg, d.op))
      else Goto(s, Cancelling(d.msg, d.op))
    case CallCancel => Change(s, d.op, s.ops[d.op].(ctxDone := true), AwaitingDone(d.msg, d.op))
    case SeeDone => Goto(s, Answering(d.msg, CancelDone(d.op)))
    case SeeShutdown => Goto(s, Answering(d.msg, Error(INTERNAL_ERROR)))
    case SendSteer => Change(s, d.op, s.ops[d.op].(steerFull := true), SteerCalling(d.msg, d.op))
    case SteerGone => Goto(s, Answering(d.msg, Error(NO_TURN_IN_PROGRESS)))
    case SteerReturn(a) => Goto(s, Answering(d.msg, a))
    case EmitFromHandler => s.(log := Then(s.log, HandlerEvent(d.msg)))
    case WriteAnswer => AnswerNow(s, d.msg, d.answer)
    case AgentEmit(i) => s.(log := Then(s.log, AgentEvent(i, s.ops[i].kind.Turn?)))
    case TakeSteer(i) => Change(s, i, s.ops[i].(steerFull := false), d)
    case AgentReturn(i, outcome) => Return(s, i, outcome)
    case TurnEnds(i) => EndTurn(s, i)
    case TurnCloses(i) => CloseTurn(s, i)
    case TurnGivesBack(i) => GiveBackTurn(s, i)
    case TurnSettles(i) => SettleTurn(s, i)
    case TurnResponds(i) => RespondTurn(s, i)
    case ReplayResponds(i) => RespondReplay(s, i)
    case ReplayGivesBack(i) => GiveBackReplay(s, i)
    case ReplayCloses(i) => CloseReplay(s, i)
  }

  // A schedule is any sequence of steps; one whose guard does not hold is passed over.
  function Exec(steerer: bool, replayer: bool, schedule: seq<Step>): State {
    if schedule == [] then Init(steerer, replayer)
    else
      var s := Exec(steerer, replayer, schedule[..|schedule| - 1]);
      var st := schedule[|schedule| - 1];
      if Enabled(s, st) then Apply(s, st) else s
  }
}
