// Client and server in conversation, told by the steps that were taken: each of the two does what it can do
// alone, what is written goes into the transport if there is room, and every call ends as it should.
module ConversationHistory {
  import opened Wrappers
  import opened Conversation
  import C = Correlator
  import CI = CorrelatorInvariant
  import CH = CorrelatorHistory
  import S = Turns
  import SS = TurnsSteps
  import T = Transport

  // The step of the client's correlator that is part of a step, if there is one ...
  function ClientPart(s: State, st: Step): Option<C.Step> {
    match st
    case ClientStep(c) => Some(c)
    case ClientReads =>
      if s.down.buf != [] && IsResponse(s.down.buf[0]) then Some(C.ReadLine(IdOf(s.down.buf[0]))) else None
    case _ => None
  }

  // ... and that of the server's turn machine.
  function ServerPart(s: State, st: Step): Option<S.Step> {
    match st
    case ServerEnqueues => if s.hand != [] then Some(S.Enqueue(s.hand[0])) else None
    case ServerStep(st', _, _) => Some(st')
    case _ => None
  }

  lemma PartsMove(s: State, st: Step)
    requires Enabled(s, st)
    ensures var s' := Apply(s, st);
            && (match ClientPart(s, st)
                case Some(c) => C.Enabled(s.client, c) && s'.client == C.Apply(s.client, c)
                case None => s'.client == s.client)
            && (match ServerPart(s, st)
                case Some(st') => S.Enabled(s.server, st') && s'.server == S.Apply(s.server, st')
                case None => s'.server == s.server)
  {
  }

  ghost predicate ClientTook(steerer: bool, replayer: bool, schedule: seq<Step>, c: C.Step) {
    && schedule != []
    && var before, st := schedule[..|schedule| - 1], schedule[|schedule| - 1]; var s := Exec(steerer, replayer, before);
       ClientTook(steerer, replayer, before, c) || (Enabled(s, st) && ClientPart(s, st) == Some(c))
  }

  ghost predicate ServerTook(steerer: bool, replayer: bool, schedule: seq<Step>, st': S.Step) {
    && schedule != []
    && var before, st := schedule[..|schedule| - 1], schedule[|schedule| - 1]; var s := Exec(steerer, replayer, before);
       ServerTook(steerer, replayer, before, st') || (Enabled(s, st) && ServerPart(s, st) == Some(st'))
  }

  lemma {:induction false} ClientNext(steps: seq<C.Step>, part: Option<C.Step>) returns (all: seq<C.Step>)
    requires part.Some? ==> C.Enabled(C.Exec(steps), part.value)
    ensures C.Exec(all) == if part.Some? then C.Apply(C.Exec(steps), part.value) else C.Exec(steps)
    ensures forall c :: CH.Happened(all, c) <==> CH.Happened(steps, c) || part == Some(c)
  {
    all := steps;
    if part.Some? {
      all := steps + [part.value];
      assert all[..|steps|] == steps;
    }
  }

  lemma {:induction false} ServerNext(steerer: bool, replayer: bool, steps: seq<S.Step>, part: Option<S.Step>)
    returns (all: seq<S.Step>)
    requires part.Some? ==> S.Enabled(S.Exec(steerer, replayer, steps), part.value)
    ensures var s := S.Exec(steerer, replayer, steps);
            S.Exec(steerer, replayer, all) == if part.Some? then S.Apply(s, part.value) else s
    ensures forall st :: SS.Happened(steerer, replayer, all, st) <==>
                SS.Happened(steerer, replayer, steps, st) || part == Some(st)
  {
    all := steps;
    if part.Some? {
      all := steps + [part.value];
      assert all[..|steps|] == steps;
    }
  }

  // The conversation is a run of the client and a run of the server, of the steps that are part of its own; so
  // the results about all runs of the two hold in it.
  lemma {:induction false} RunsOfBoth(steerer: bool, replayer: bool, schedule: seq<Step>)
    returns (clientSteps: seq<C.Step>, serverSteps: seq<S.Step>)
    ensures var s := Exec(steerer, replayer, schedule);
            s.client == C.Exec(clientSteps) && s.server == S.Exec(steerer, replayer, serverSteps)
    ensures forall c :: CH.Happened(clientSteps, c) <==> ClientTook(steerer, replayer, schedule, c)
    ensures forall st ::
              SS.Happened(steerer, replayer, serverSteps, st) <==> ServerTook(steerer, replayer, schedule, st)
  {
    clientSteps, serverSteps := [], [];
    if schedule != [] {
      var before, st := schedule[..|schedule| - 1], schedule[|schedule| - 1];
      clientSteps, serverSteps := RunsOfBoth(steerer, replayer, before);
      var s := Exec(steerer, replayer, before);
      if Enabled(s, st) {
        PartsMove(s, st);
        clientSteps := ClientNext(clientSteps, ClientPart(s, st));
        serverSteps := ServerNext(steerer, replayer, serverSteps, ServerPart(s, st));
      }
    }
  }

  // Every call that is over failed, exactly if its context ended or its write failed; or it returned the server's
  // one reply to the message it wrote; or it returned the closing error, and no reply to it had arrived.
  lemma {:induction false} CallEndsExactly(steerer: bool, replayer: bool, schedule: seq<Step>, c: nat)
    requires var k := Exec(steerer, replayer, schedule).client.calls;
             c < |k| && (k[c].phase.Leaving? || k[c].phase.Returned?)
    ensures var s := Exec(steerer, replayer, schedule); var r := s.client.calls[c].result;
            if ClientTook(steerer, replayer, schedule, C.GiveUp(c))
               || ClientTook(steerer, replayer, schedule, C.WriteFailed(c)) then r.Failed?
            else
              && r.Got?
              && (r.m.Line? ==> exists k: nat, e: S.Entry :: ReadAs(s, r.m.no, e) && ReplyTo(s, c, k, e))
              && (r.m.ClosedError? ==> CI.Absent(s.client.lines, C.Id(c)))
  {
    var clientSteps, _ := RunsOfBoth(steerer, replayer, schedule);
    CH.ReturnedExactly(clientSteps, c);
    var r := Exec(steerer, replayer, schedule).client.calls[c].result;
    if r.Got? && r.m.Line? {
      ReplyReachesItsCall(steerer, replayer, schedule, c);
    }
  }

  // ---------------------------------------------------------------------------------------------
  // What goes into the transport and comes out of it
  // ---------------------------------------------------------------------------------------------

  ghost predicate HasRoom<X>(d: T.Direction<X>) {
    !d.closed && |d.accepted| - |d.received| < 64
  }

  // The line goes into this direction exactly if it is open and has room.
  ghost predicate GoesIn<X>(d: T.Direction<X>, d': T.Direction<X>, line: X) {
    d'.accepted == d.accepted + if HasRoom(d) then [line] else []
  }

  lemma WriteGoesIn<X>(d: T.Direction<X>, line: X, arm: T.Arm)
    requires T.Fifo(d)
    ensures GoesIn(d, T.WriteTo(d, line, false, arm), line)
    ensures T.WriteOutcome(d, false, arm).Accepted? <==> HasRoom(d)
  {
    assert |d.accepted| == |d.received| + |d.buf|;
    assert d.accepted + [] == d.accepted;
  }

  // A call writes its message, with its own id, exactly once; with a live context the message is under way exactly
  // if there was room.
  lemma {:induction false} ClientWritesExactly(
    steerer: bool, replayer: bool, schedule: seq<Step>, c: nat, verb: S.Verb, wellFormed: bool, arm: T.Arm)
    requires Enabled(Exec(steerer, replayer, schedule), ClientWrite(c, verb, wellFormed, false, arm))
    ensures var s := Exec(steerer, replayer, schedule);
            var s' := Apply(s, ClientWrite(c, verb, wellFormed, false, arm));
            var m := S.Msg(C.Id(c), verb, wellFormed);
            && c !in s.tried && c in s'.tried && GoesIn(s.up, s'.up, Ask(m))
            && s'.sent == s.sent + if HasRoom(s.up) then [Sent(c, m)] else []
  {
    Invariant(steerer, replayer, schedule);
    var s := Exec(steerer, replayer, schedule);
    WriteGoesIn(s.up, Ask(S.Msg(C.Id(c), verb, wellFormed)), arm);
    assert s.sent + [] == s.sent;
  }

  // What a step of the server writes goes down exactly if there was room; a step that writes nothing leaves the
  // transport alone; and a TurnBegin succeeds exactly if there was room.
  lemma {:induction false} ServerWritesExactly(
    steerer: bool, replayer: bool, schedule: seq<Step>, st: S.Step, arm: T.Arm)
    requires Enabled(Exec(steerer, replayer, schedule), ServerStep(st, false, arm))
    ensures var s := Exec(steerer, replayer, schedule); var s' := Apply(s, ServerStep(st, false, arm));
            && (if S.Loud(st) then s'.server.log.Then? && GoesIn(s.down, s'.down, FromServer(s'.server.log.last))
                else s'.down == s.down)
            && (st.EmitBegin? ==> (st.ok <==> HasRoom(s.down)))
  {
    Invariant(steerer, replayer, schedule);
    var s := Exec(steerer, replayer, schedule);
    SS.LogStep(s.server, st);
    if S.Loud(st) {
      WriteGoesIn(s.down, FromServer(S.Apply(s.server, st).log.last), arm);
    }
  }

  ghost function Times(steerer: bool, replayer: bool, schedule: seq<Step>, st: Step): nat {
    if schedule == [] then 0
    else
      var before, last := schedule[..|schedule| - 1], schedule[|schedule| - 1];
      Times(steerer, replayer, before, st)
          + if last == st && Enabled(Exec(steerer, replayer, before), st) then 1 else 0
  }

  lemma ReadsNext(s: State, st: Step)
    requires Enabled(s, st)
    ensures var s' := Apply(s, st);
            && |s'.down.received| == |s.down.received| + (if st.ClientReads? then 1 else 0)
            && |s'.up.received| == |s.up.received| + (if st.ServerReads? then 1 else 0)
            && (s'.up.closed <==> s.up.closed || st.CloseUp?) && (s'.down.closed <==> s.down.closed || st.CloseDown?)
  {
  }

  // Each read takes one line out, and a direction is closed exactly if its sender closed it.
  lemma {:induction false} ReadsExactly(steerer: bool, replayer: bool, schedule: seq<Step>)
    ensures var s := Exec(steerer, replayer, schedule);
            && |s.down.received| == Times(steerer, replayer, schedule, ClientReads)
            && |s.up.received| == Times(steerer, replayer, schedule, ServerReads)
            && (s.up.closed <==> Times(steerer, replayer, schedule, CloseUp) > 0)
            && (s.down.closed <==> Times(steerer, replayer, schedule, CloseDown) > 0)
  {
    if schedule != [] {
      var before, st := schedule[..|schedule| - 1], schedule[|schedule| - 1];
      ReadsExactly(steerer, replayer, before);
      if Enabled(Exec(steerer, replayer, before), st) {
        ReadsNext(Exec(steerer, replayer, before), st);
      }
    }
  }
}
