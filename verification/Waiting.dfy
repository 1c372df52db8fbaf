// Who waits for whom in the server, when that closes a cycle, and that nothing else gets stuck.
module Waiting {
  import opened Wrappers
  import opened Turns
  import opened TurnsSteps
  import opened Goroutines
  import TI = TurnsInvariant
  import R = Requests

  // ReadLoop is the read loop and, once it has ended, Serve.
  datatype Node = ReadLoop | DispatchLoop | Runner(op: nat)

  predicate QueueFull(s: State) {
    |s.accepted| - |s.owner| >= QUEUE_CAPACITY
  }

  // readLoop waits for room in dispatchCh.
  predicate ReaderStuck(y: System) {
    y.reader.Holding? && QueueFull(y.turns) && !y.turns.ctxDone
  }

  // handleCancel waits for done, handleSteer for room in steerCh.
  predicate Awaits(s: State, j: nat) {
    && j < |s.ops| && !s.ctxDone
    && ((s.dispatcher.AwaitingDone? && s.dispatcher.op == j && !s.ops[j].done) ||
        (s.dispatcher.SteerSending? && s.dispatcher.op == j && s.ops[j].steerFull && !s.ops[j].ctxDone))
  }

  // SteerInput waits for an input.
  predicate AwaitsSteer(y: System, i: nat) {
    && i < |y.turns.ops| && Agent(y, i).InSteerInput?
    && !y.turns.ops[i].steerFull && !y.turns.ops[i].ctxDone && !y.turns.ctxDone
  }

  // sendRequestAndWait waits for its response.
  predicate AwaitsResponse(y: System, i: nat) {
    && i < |y.turns.ops| && CallIn(y, i, R.Waiting) && y.requests.calls[Agent(y, i).call].ch.Empty?
    && !(Agent(y, i).bound && y.turns.ops[i].ctxDone) && !y.turns.ctxDone
  }

  // a is blocked until b does something.
  ghost predicate WaitsFor(y: System, a: Node, b: Node) {
    var s := y.turns;
    match (a, b)
    case (DispatchLoop, ReadLoop) => s.dispatcher.Idle? && |s.owner| == |s.accepted| && !s.ctxDone
    case (DispatchLoop, Runner(j)) => Awaits(s, j)
    case (Runner(i), DispatchLoop) => AwaitsSteer(y, i)
    case (Runner(i), ReadLoop) => AwaitsResponse(y, i)
    case (ReadLoop, DispatchLoop) => ReaderStuck(y)
    case (ReadLoop, Runner(i)) =>
      // routeResponse waits for room in the channel of a request
      && !s.ctxDone && y.requests.hand.Routing? && y.requests.hand.call < |y.requests.calls|
      && Agent(y, i).InRequest? && Agent(y, i).call == y.requests.hand.call
      && y.requests.calls[y.requests.hand.call].ch.Full?
    case _ => false
  }

  ghost predicate Blocked(y: System, a: Node) {
    exists b :: WaitsFor(y, a, b)
  }

  // b is where n waits after one another lead from a.
  ghost predicate Leads(y: System, a: Node, b: Node, n: nat)
    decreases n
  {
    if n == 0 then a == b else exists c :: WaitsFor(y, a, c) && Leads(y, c, b, n - 1)
  }

  // The read loop waits for the dispatch loop, that for the agent of operation j, and that for the
  // response the read loop would have to read.
  predicate Deadlock(y: System, j: nat) {
    ReaderStuck(y) && Awaits(y.turns, j) && AwaitsResponse(y, j)
  }

  ghost predicate Deadlocked(y: System) {
    exists j :: Deadlock(y, j)
  }

  // ---------------------------------------------------------------------------------------------
  // What is true late in a run
  // ---------------------------------------------------------------------------------------------

  // A turn that is done has a cancelled context.
  ghost predicate CtxAfterDone(s: State) {
    forall i: nat | i < |s.ops| && s.ops[i].kind.Turn? && s.ops[i].done :: s.ops[i].ctxDone
  }

  lemma CtxMoved(s: State, st: Step, i: nat, s': State)
    requires CtxAfterDone(s) && OneMoves(s, st, i, s') && (st.ReplayCloses? ==> s.ops[i].kind.Replaying?)
    ensures CtxAfterDone(s')
  {
  }

  lemma CtxCalm(s: State, s': State)
    requires CtxAfterDone(s) && Calm(s, s')
    ensures CtxAfterDone(s')
  {
    forall i: nat | i < |s'.ops| && s'.ops[i].kind.Turn? && s'.ops[i].done ensures s'.ops[i].ctxDone {
      assert SameButFlags(s.ops[i], s'.ops[i]);
    }
  }

  lemma CtxAside(s: State, st: Step)
    requires CtxAfterDone(s) && Enabled(s, st) && (OfLoop(st) || st.ClearActiveTurn?)
    ensures CtxAfterDone(Apply(s, st))
  {
  }

  lemma StartCtx(s: State, k: nat, a: Answer)
    requires CtxAfterDone(s) && k < |s.accepted| && k < |s.owner|
    ensures CtxAfterDone(Handle(s, k, a))
  {
  }

  lemma StepCtxAfterDone(s: State, st: Step)
    requires CtxAfterDone(s) && Enabled(s, st)
    ensures CtxAfterDone(Apply(s, st))
  {
    if st.RunHandler? {
      StartCtx(s, s.dispatcher.msg, st.inPlace);
    } else if OfServe(st) || (OfLoop(st) && !Loud(st)) || OfCancel(st) || OfSteer(st) {
      CalmStep(s, st);
      CtxCalm(s, Apply(s, st));
    } else if OfLoop(st) || st.ClearActiveTurn? {
      CtxAside(s, st);
    } else {
      var i := if st.EmitBegin? then s.dispatcher.op else st.op;
      OpMoves(s, st, i);
      CtxMoved(s, st, i, Apply(s, st));
    }
  }

  // The dispatch loop exits only at shutdown.
  lemma StartStays(s: State, k: nat, a: Answer)
    requires k < |s.accepted| && k < |s.owner|
    ensures !Handle(s, k, a).dispatcher.Exited?
  {
  }

  lemma LoopStays(s: State, st: Step)
    requires Enabled(s, st) && (OfServe(st) || OfLoop(st) || OfCancel(st) || OfSteer(st) || st.ClearActiveTurn?)
    ensures Apply(s, st).dispatcher.Exited? ==> s.dispatcher.Exited? || s.ctxDone
    ensures s.ctxDone ==> Apply(s, st).ctxDone
  {
  }

  lemma StepExits(s: State, st: Step)
    requires Enabled(s, st) && (s.dispatcher.Exited? ==> s.ctxDone)
    ensures Apply(s, st).dispatcher.Exited? ==> Apply(s, st).ctxDone
  {
    if st.RunHandler? {
      StartStays(s, s.dispatcher.msg, st.inPlace);
    } else if OfServe(st) || OfLoop(st) || OfCancel(st) || OfSteer(st) || st.ClearActiveTurn? {
      LoopStays(s, st);
    } else {
      OpMoves(s, st, if st.EmitBegin? then s.dispatcher.op else st.op);
    }
  }

  lemma {:induction false} LateFacts(steerer: bool, replayer: bool, schedule: seq<Step>)
    ensures var s := Exec(steerer, replayer, schedule);
            CtxAfterDone(s) && (s.dispatcher.Exited? ==> s.ctxDone)
  {
    if schedule != [] {
      var before, st := schedule[..|schedule| - 1], schedule[|schedule| - 1];
      LateFacts(steerer, replayer, before);
      if Enabled(Exec(steerer, replayer, before), st) {
        StepCtxAfterDone(Exec(steerer, replayer, before), st);
        StepExits(Exec(steerer, replayer, before), st);
      }
    }
  }

  ghost predicate SendsNeverWait(s: R.State) {
    s.hand.Routing? ==> s.hand.call < |s.calls| && s.calls[s.hand.call].ch.Empty?
  }

  // What holds of every run of the whole server.
  ghost predicate Sound(y: System) {
    && Goroutines.Inv(y) && CtxAfterDone(y.turns) && (y.turns.dispatcher.Exited? ==> y.turns.ctxDone)
    && SendsNeverWait(y.requests)
  }

  lemma {:induction false} RunsAreSound(steerer: bool, replayer: bool, actions: seq<Action>)
    ensures Sound(Run(steerer, replayer, actions))
  {
    Goroutines.Invariant(steerer, replayer, actions);
    var steps, requestSteps := RunsOfBoth(steerer, replayer, actions);
    LateFacts(steerer, replayer, steps);
    R.SendsNeverBlock(requestSteps);
  }

  // ---------------------------------------------------------------------------------------------
  // Cycles
  // ---------------------------------------------------------------------------------------------

  // While dispatchCh has room: an agent in SteerInput stands above the dispatch loop, any other agent
  // below it and the read loop at the bottom. A stuck read loop stands above the dispatch loop.
  ghost function Rank(y: System, n: Node): nat {
    var stuck := ReaderStuck(y) && !Deadlocked(y);
    match n
    case ReadLoop => if stuck then 3 else 0
    case DispatchLoop => 2
    case Runner(i) => if AwaitsSteer(y, i) then 3 else if stuck && AwaitsResponse(y, i) then 4 else 1
  }

  // The operation the dispatch loop waits for does not wait for a steer.
  lemma AwaitedNoSteer(y: System, j: nat)
    requires Sound(y) && Awaits(y.turns, j)
    ensures !AwaitsSteer(y, j)
  {
    assert TI.TargetOk(y.turns.dispatcher, y.turns.ops[j]);
  }

  lemma WaitsDescend(y: System, a: Node, b: Node)
    requires Sound(y) && WaitsFor(y, a, b)
    ensures Rank(y, b) < Rank(y, a) || (a == ReadLoop && b == DispatchLoop && Deadlocked(y))
  {
    if a.DispatchLoop? && b.Runner? {
      AwaitedNoSteer(y, b.op);
      assert ReaderStuck(y) && AwaitsResponse(y, b.op) ==> Deadlock(y, b.op);
    }
  }

  ghost predicate EveryWaitDescends(y: System) {
    forall a, b | WaitsFor(y, a, b) :: Rank(y, b) < Rank(y, a)
  }

  lemma {:induction false} LeadsDescend(y: System, a: Node, b: Node, n: nat)
    requires EveryWaitDescends(y) && Leads(y, a, b, n)
    ensures n == 0 || Rank(y, b) < Rank(y, a)
    decreases n
  {
    if n > 0 {
      var c :| WaitsFor(y, a, c) && Leads(y, c, b, n - 1);
      LeadsDescend(y, c, b, n - 1);
    }
  }

  lemma OneMore(y: System, a: Node, b: Node, c: Node, n: nat)
    requires WaitsFor(y, a, b) && Leads(y, b, c, n)
    ensures Leads(y, a, c, n + 1)
  {
  }

  lemma DeadlockIsCycle(y: System, j: nat)
    requires Deadlock(y, j)
    ensures Leads(y, ReadLoop, ReadLoop, 3)
  {
    assert Leads(y, ReadLoop, ReadLoop, 0);
    OneMore(y, Runner(j), ReadLoop, ReadLoop, 0);
    OneMore(y, DispatchLoop, Runner(j), ReadLoop, 1);
    OneMore(y, ReadLoop, DispatchLoop, ReadLoop, 2);
  }

  // In every run some goroutine waits for itself, over any number of others, exactly in a deadlock.
  lemma {:induction false} WaitingIsAcyclic(steerer: bool, replayer: bool, actions: seq<Action>)
    ensures var y := Run(steerer, replayer, actions);
            (exists a, n: nat :: n > 0 && Leads(y, a, a, n)) <==> Deadlocked(y)
  {
    var y := Run(steerer, replayer, actions);
    RunsAreSound(steerer, replayer, actions);
    if j :| Deadlock(y, j) {
      var n: nat := 3;
      DeadlockIsCycle(y, j);
      assert Leads(y, ReadLoop, ReadLoop, n);
    } else if a, n: nat :| n > 0 && Leads(y, a, a, n) {
      forall b, c | WaitsFor(y, b, c) ensures Rank(y, c) < Rank(y, b) {
        WaitsDescend(y, b, c);
      }
      LeadsDescend(y, a, a, n);
    }
  }

  predicate NothingToDo(s: State) {
    s.dispatcher.Idle? && |s.owner| == |s.accepted| && !s.ctxDone
  }

  predicate DispatcherWaits(s: State) {
    NothingToDo(s) || ((s.dispatcher.AwaitingDone? || s.dispatcher.SteerSending?) && Awaits(s, s.dispatcher.op))
  }

  lemma BlockedDispatcher(y: System)
    ensures Blocked(y, DispatchLoop) <==> DispatcherWaits(y.turns)
  {
    assert NothingToDo(y.turns) ==> WaitsFor(y, DispatchLoop, ReadLoop);
    if !NothingToDo(y.turns) && DispatcherWaits(y.turns) {
      assert WaitsFor(y, DispatchLoop, Runner(y.turns.dispatcher.op));
    }
  }

  lemma BlockedRunner(y: System, i: nat)
    ensures Blocked(y, Runner(i)) <==> AwaitsSteer(y, i) || AwaitsResponse(y, i)
  {
    assert AwaitsSteer(y, i) ==> WaitsFor(y, Runner(i), DispatchLoop);
    assert AwaitsResponse(y, i) ==> WaitsFor(y, Runner(i), ReadLoop);
  }

  lemma BlockedReader(y: System)
    requires SendsNeverWait(y.requests)
    ensures Blocked(y, ReadLoop) <==> ReaderStuck(y)
  {
    assert ReaderStuck(y) ==> WaitsFor(y, ReadLoop, DispatchLoop);
  }

  ghost predicate AllBlocked(y: System) {
    && Blocked(y, ReadLoop) && Blocked(y, DispatchLoop)
    && forall j: nat | WaitsFor(y, DispatchLoop, Runner(j)) :: Blocked(y, Runner(j))
  }

  lemma DeadlockBlocks(y: System, j: nat)
    requires Sound(y) && Deadlock(y, j)
    ensures AllBlocked(y)
  {
    BlockedReader(y);
    BlockedDispatcher(y);
    BlockedRunner(y, j);
  }

  lemma BlockedIsDeadlock(y: System)
    requires Sound(y) && AllBlocked(y)
    ensures Deadlocked(y)
  {
    BlockedReader(y);
    BlockedDispatcher(y);
    var j := y.turns.dispatcher.op;
    assert WaitsFor(y, DispatchLoop, Runner(j));
    BlockedRunner(y, j);
    AwaitedNoSteer(y, j);
    assert Deadlock(y, j);
  }

  // That is so exactly if the read loop and the dispatch loop are blocked and so is every operation the
  // dispatch loop waits for.
  lemma {:induction false} DeadlockExactly(steerer: bool, replayer: bool, actions: seq<Action>)
    ensures var y := Run(steerer, replayer, actions);
            Deadlocked(y) <==>
            && Blocked(y, ReadLoop) && Blocked(y, DispatchLoop)
            && forall j: nat | WaitsFor(y, DispatchLoop, Runner(j)) :: Blocked(y, Runner(j))
  {
    var y := Run(steerer, replayer, actions);
    RunsAreSound(steerer, replayer, actions);
    if j :| Deadlock(y, j) {
      DeadlockBlocks(y, j);
    } else if AllBlocked(y) {
      BlockedIsDeadlock(y);
    }
  }

  // ---------------------------------------------------------------------------------------------
  // Every goroutine goes on or waits
  // ---------------------------------------------------------------------------------------------

  // The section an operation's own goroutine runs next, unless its agent call is running.
  function OwnStep(j: nat, o: Op): Step {
    match o.phase
    case Accepted => AgentEmit(j)
    case Running => AgentReturn(j, Panicked)
    case EmitEnd => TurnEnds(j)
    case CloseDone => if o.kind.Turn? then TurnCloses(j) else ReplayCloses(j)
    case ClearSlot => if o.kind.Turn? then TurnGivesBack(j) else ReplayGivesBack(j)
    case ReadFlag => TurnSettles(j)
    case Respond => if o.kind.Turn? then TurnResponds(j) else ReplayResponds(j)
    case Finished => AgentEmit(j)
  }

  lemma OwnStepEnabled(s: State, j: nat)
    requires TI.Inv(s) && j < |s.ops| && !s.ops[j].phase.Accepted? && !s.ops[j].phase.Finished?
    ensures Enabled(s, OwnStep(j, s.ops[j]))
  {
    assert TI.OpOk(s.activeOp, s.evicted, s.dispatcher, s.owner, s.log, j, s.ops[j]);
    match s.ops[j].phase
    case Running =>
    case EmitEnd =>
    case CloseDone =>
    case ClearSlot =>
    case ReadFlag =>
    case Respond =>
  }

  // What the agent of operation i does next inside SteerInput and sendRequestAndWait, and otherwise its
  // call returns.
  function AgentStep(y: System, i: nat): Action {
    match Agent(y, i)
    case Computing => TurnStep(AgentReturn(i, Panicked))
    case InSteerInput =>
      if i < |y.turns.ops| && y.turns.ops[i].steerFull then TurnStep(TakeSteer(i)) else LeaveSteerInput(i)
    case InRequest(c, _) =>
      if CallIn(y, i, R.Returned) then LeaveRequest(i)
      else if CallIn(y, i, R.Waiting) && y.requests.calls[c].ch.Empty? then AbandonRequest(i)
      else RequestStep(i)
  }

  function DispatcherStep(s: State): Step {
    match s.dispatcher
    case Idle => if |s.owner| < |s.accepted| then Receive else LoopExit
    case Handling(_) => RunHandler(InPlaceResult)
    case Beginning(_) => EmitBegin(true, Panicked)
    case Ending(j) => if j < |s.ops| then OwnStep(j, s.ops[j]) else Receive
    case Flagging(_, _, _) => SetFlag
    case Cancelling(_, _) => CallCancel
    case AwaitingDone(_, j) => if j < |s.ops| && s.ops[j].done then SeeDone else SeeShutdown
    case SteerSending(_, j) => if j < |s.ops| && !s.ops[j].steerFull then SendSteer else SteerGone
    case SteerCalling(_, _) => SteerReturn(Steered)
    case Answering(_, _) => WriteAnswer
    case Exited => Receive
  }

  // The next step of one goroutine.
  function Go(y: System, n: Node): Action {
    match n
    case Runner(i) =>
      if i < |y.turns.ops| && !y.turns.ops[i].phase.Running? then TurnStep(OwnStep(i, y.turns.ops[i]))
      else AgentStep(y, i)
    case DispatchLoop => TurnStep(DispatcherStep(y.turns))
    case ReadLoop =>
      if y.turns.readDone then EndServing
      else if y.reader.Holding? then if QueueFull(y.turns) then DropMessage else SendMessage
      else if y.requests.hand.Routing? then EndRouting(false)
      else ReadMessage(Msg("", InPlace, true))
  }

  // The goroutine has not ended.
  predicate Live(y: System, n: Node) {
    match n
    case Runner(i) => i < |y.turns.ops| && !y.turns.ops[i].phase.Accepted? && !y.turns.ops[i].phase.Finished?
    case DispatchLoop => !y.turns.dispatcher.Exited?
    case ReadLoop => !(y.turns.readDone && y.turns.ctxDone)
  }

  lemma SteerGoesOrWaits(y: System, i: nat)
    requires i < |y.turns.ops| && y.turns.ops[i].phase.Running? && Agent(y, i).InSteerInput?
    ensures CanAct(y, AgentStep(y, i)) <==> !AwaitsSteer(y, i)
  {
  }

  lemma RequestGoesOrWaits(y: System, i: nat)
    requires i < |y.turns.ops| && Agent(y, i).InRequest? && Agent(y, i).call < |y.requests.calls|
    ensures CanAct(y, AgentStep(y, i)) <==> !AwaitsResponse(y, i)
  {
    var k := y.requests.calls[Agent(y, i).call];
    match k.phase
    case Issued =>
    case Registered =>
    case Waiting =>
    case Leaving =>
    case Draining =>
    case Returned =>
  }

  lemma AgentGoesOrWaits(y: System, i: nat)
    requires AgentsOk(y) && i < |y.turns.ops| && y.turns.ops[i].phase.Running?
    ensures CanAct(y, AgentStep(y, i)) <==> !(AwaitsSteer(y, i) || AwaitsResponse(y, i))
  {
    if Agent(y, i).InSteerInput? {
      SteerGoesOrWaits(y, i);
    } else if Agent(y, i).InRequest? {
      RequestGoesOrWaits(y, i);
    }
  }

  lemma AgentsWaitWhileRunning(y: System, i: nat)
    requires AgentsOk(y) && (AwaitsSteer(y, i) || AwaitsResponse(y, i))
    ensures y.turns.ops[i].phase.Running?
  {
  }

  lemma RunnerGoesOrWaits(y: System, i: nat)
    requires Sound(y) && Live(y, Runner(i))
    ensures CanAct(y, Go(y, Runner(i))) <==> !Blocked(y, Runner(i))
  {
    BlockedRunner(y, i);
    if AwaitsSteer(y, i) || AwaitsResponse(y, i) {
      AgentsWaitWhileRunning(y, i);
    }
    if y.turns.ops[i].phase.Running? {
      AgentGoesOrWaits(y, i);
    } else {
      OwnStepEnabled(y.turns, i);
    }
  }

  lemma DispatcherStepEnabled(s: State)
    requires TI.DispatcherOk(s) && |s.owner| <= |s.accepted| && !s.dispatcher.Exited? && !s.dispatcher.Ending?
    ensures Enabled(s, DispatcherStep(s)) <==> !DispatcherWaits(s)
    ensures AgentFreeAnyway(DispatcherStep(s))
  {
  }

  predicate AgentFreeAnyway(st: Step) {
    !OfServe(st) && !OfAgent(st)
  }

  lemma DispatcherGoesOrWaits(y: System)
    requires Sound(y) && Live(y, DispatchLoop)
    ensures CanAct(y, Go(y, DispatchLoop)) <==> !Blocked(y, DispatchLoop)
  {
    BlockedDispatcher(y);
    if y.turns.dispatcher.Ending? {
      OwnStepEnabled(y.turns, y.turns.dispatcher.op);
    } else {
      DispatcherStepEnabled(y.turns);
    }
  }

  lemma ReaderGoesOrWaits(y: System)
    requires FlagsOk(y) && SendsNeverWait(y.requests) && Live(y, ReadLoop)
    ensures CanAct(y, Go(y, ReadLoop)) <==> !Blocked(y, ReadLoop)
  {
    BlockedReader(y);
  }

  lemma GoesOrWaits(y: System, n: Node)
    requires Sound(y) && Live(y, n)
    ensures CanAct(y, Go(y, n)) <==> !Blocked(y, n)
  {
    match n
    case Runner(i) => RunnerGoesOrWaits(y, i);
    case DispatchLoop => DispatcherGoesOrWaits(y);
    case ReadLoop => ReaderGoesOrWaits(y);
  }

  // ---------------------------------------------------------------------------------------------
  // Progress
  // ---------------------------------------------------------------------------------------------

  // Only goroutines that have not ended are waited for.
  lemma WaitsForLive(y: System, a: Node, b: Node)
    requires Sound(y) && WaitsFor(y, a, b)
    ensures Live(y, b)
  {
    if a.DispatchLoop? && b.Runner? {
      var s, j := y.turns, b.op;
      assert TI.OpOk(s.activeOp, s.evicted, s.dispatcher, s.owner, s.log, j, s.ops[j]);
    }
  }

  // A goroutine in an operation the dispatch loop waits for goes on unless its agent waits for a response;
  // it never waits for the dispatch loop.
  lemma {:induction false} AwaitedOperationCanGo(steerer: bool, replayer: bool, actions: seq<Action>, j: nat)
    requires WaitsFor(Run(steerer, replayer, actions), DispatchLoop, Runner(j))
    ensures var y := Run(steerer, replayer, actions);
            && (CanAct(y, Go(y, Runner(j))) <==> !WaitsFor(y, Runner(j), ReadLoop))
            && !WaitsFor(y, Runner(j), DispatchLoop)
  {
    var y := Run(steerer, replayer, actions);
    RunsAreSound(steerer, replayer, actions);
    WaitsForLive(y, DispatchLoop, Runner(j));
    GoesOrWaits(y, Runner(j));
    BlockedRunner(y, j);
    AwaitedNoSteer(y, j);
  }

  // The waits lead from any goroutine to one that can go, unless there is a deadlock.
  lemma {:induction false} LeadsToOneThatGoes(y: System, a: Node) returns (b: Node, n: nat)
    requires Sound(y) && Live(y, a) && !Deadlocked(y)
    ensures Leads(y, a, b, n) && Live(y, b) && !Blocked(y, b)
    decreases Rank(y, a)
  {
    if c :| WaitsFor(y, a, c) {
      WaitsDescend(y, a, c);
      WaitsForLive(y, a, c);
      b, n := LeadsToOneThatGoes(y, c);
      n := n + 1;
    } else {
      b, n := a, 0;
    }
  }

  lemma WaitsForBlocked(y: System, a: Node, b: Node)
    requires Sound(y) && Deadlocked(y) && WaitsFor(y, a, b)
    ensures Live(y, b) && Blocked(y, b)
  {
    var j :| Deadlock(y, j);
    DeadlockBlocks(y, j);
    WaitsForLive(y, a, b);
    BlockedReader(y);
  }

  ghost predicate EveryAwaitedBlocked(y: System) {
    forall a, b | WaitsFor(y, a, b) :: Live(y, b) && Blocked(y, b)
  }

  // In a deadlock the waits lead from a blocked goroutine only to blocked ones.
  lemma {:induction false} LeadsToBlocked(y: System, a: Node, b: Node, n: nat)
    requires EveryAwaitedBlocked(y) && Live(y, a) && Blocked(y, a) && Leads(y, a, b, n)
    ensures Live(y, b) && Blocked(y, b)
    decreases n
  {
    if n > 0 {
      var c :| WaitsFor(y, a, c) && Leads(y, c, b, n - 1);
      LeadsToBlocked(y, c, b, n - 1);
    }
  }

  // The goroutine that has to answer message k, or to take it out of the queue.
  function Responsible(s: State, k: nat): Node {
    if k < |s.owner| && s.owner[k].Taken? && s.owner[k].op < |s.ops| && !s.ops[s.owner[k].op].phase.Accepted?
    then Runner(s.owner[k].op) else DispatchLoop
  }

  lemma ResponsibleIsLive(s: State, y: System, k: nat)
    requires TI.Inv(s) && y.turns == s && (s.dispatcher.Exited? ==> s.ctxDone)
    requires k < |s.accepted| && Replies(s.log, k) == 0
    ensures Live(y, Responsible(s, k)) <==> !(s.dispatcher.Exited? && |s.owner| <= k)
  {
    if k < |s.owner| {
      assert TI.MsgOk(s.dispatcher, s.ops, s.log, k, s.owner[k]);
      if s.owner[k].Taken? {
        var i := s.owner[k].op;
        assert TI.OpOk(s.activeOp, s.evicted, s.dispatcher, s.owner, s.log, i, s.ops[i]);
      }
    }
  }

  // As long as an accepted message is not answered, the goroutine that has to answer it, or one it waits
  // for over any number of others, can take its next step; except exactly if the message is still in
  // dispatchCh after the dispatch loop has exited, or the goroutine is blocked in a deadlock.
  lemma {:induction false} ProgressExactly(steerer: bool, replayer: bool, actions: seq<Action>, k: nat)
    requires var s := Run(steerer, replayer, actions).turns; k < |s.accepted| && Replies(s.log, k) == 0
    ensures var y := Run(steerer, replayer, actions);
            (exists n, len: nat :: Leads(y, Responsible(y.turns, k), n, len) && CanAct(y, Go(y, n))) <==>
            && !(y.turns.dispatcher.Exited? && |y.turns.owner| <= k)
            && !(Deadlocked(y) && Blocked(y, Responsible(y.turns, k)))
  {
    var y := Run(steerer, replayer, actions);
    RunsAreSound(steerer, replayer, actions);
    Progress(y, k);
  }

  lemma Progress(y: System, k: nat)
    requires Sound(y) && k < |y.turns.accepted| && Replies(y.turns.log, k) == 0
    ensures (exists n: Node, len: nat :: Leads(y, Responsible(y.turns, k), n, len) && CanAct(y, Go(y, n))) <==>
            && !(y.turns.dispatcher.Exited? && |y.turns.owner| <= k)
            && !(Deadlocked(y) && Blocked(y, Responsible(y.turns, k)))
  {
    var a := Responsible(y.turns, k);
    ResponsibleIsLive(y.turns, y, k);
    if !Live(y, a) {
      assert a.DispatchLoop?;
      BlockedDispatcher(y);
      forall n: Node, len: nat | Leads(y, a, n, len) ensures !CanAct(y, Go(y, n)) {
        assert len == 0;
      }
    } else if Deadlocked(y) && Blocked(y, a) {
      forall b, c | WaitsFor(y, b, c) ensures Live(y, c) && Blocked(y, c) {
        WaitsForBlocked(y, b, c);
      }
      forall n: Node, len: nat | Leads(y, a, n, len) ensures !CanAct(y, Go(y, n)) {
        LeadsToBlocked(y, a, n, len);
        GoesOrWaits(y, n);
      }
    } else {
      var b, len := a, 0;
      if !Deadlocked(y) {
        b, len := LeadsToOneThatGoes(y, a);
      }
      GoesOrWaits(y, b);
      assert Leads(y, a, b, len);
    }
  }
}
