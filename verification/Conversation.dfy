// A client and a server on the two ends of a transport pair: client.go, server/server.go and
// transport/transport_channel.go together. The client's correlator, the server's turn machine and the
// two directions move together; a call that returns a response returns the server's reply to the very
// message the call wrote.
module Conversation {
  import opened Ids
  import C = Correlator
  import CI = CorrelatorInvariant
  import S = Turns
  import SI = TurnsInvariant
  import SR = TurnsResults
  import SS = TurnsSteps
  import T = Transport

  // What the client writes: the request of a call, or an answer to a request of the server.
  datatype Up = Ask(m: S.Msg) | Answer

  // What the server writes: a line of the turn machine, another message with a method, or the error
  // without an id that answers a line it cannot parse.
  datatype Down = FromServer(entry: S.Entry) | Notice | NoId

  datatype Sent = Sent(call: nat, m: S.Msg)

  datatype State = State(
    client: C.State,
    server: S.State,
    up: T.Direction<Up>,
    down: T.Direction<Down>,
    hand: seq<S.Msg>,          // what readLoop holds while dispatchCh is full
    tried: set<nat>,           // the calls that have called writeMessage
    sent: seq<Sent>)           // those whose write succeeded, in order

  function Init(steerer: bool, replayer: bool): State {
    State(C.Init(), S.Init(steerer, replayer), T.Open(), T.Open(), [], {}, [])
  }

  datatype Step =
    | ClientWrite(call: nat, verb: S.Verb, wellFormed: bool, ctxDone: bool, arm: T.Arm)
    | ClientAnswers(ctxDone: bool, arm: T.Arm)
    | ClientStep(c: C.Step)
    | ClientReads
    | ServerReads
    | ServerEnqueues
    | ServerStep(s: S.Step, ctxDone: bool, arm: T.Arm)
    | ServerWrites(line: Down, ctxDone: bool, arm: T.Arm)
    | CloseUp
    | CloseDown

  predicate Wrote(s: State, c: nat) {
    exists i | 0 <= i < |s.sent| :: s.sent[i].call == c
  }

  predicate Enabled(s: State, st: Step) {
    match st
    case ClientWrite(c, _, _, _, _) => C.InPhase(s.client, c, C.Issued) && c !in s.tried
    case ClientAnswers(_, _) => true
    case ClientStep(c) =>
      && C.Enabled(s.client, c) && !c.ReadLine?
      && (c.WriteFailed? ==> c.call in s.tried && !Wrote(s, c.call))
      && (c.ReadResponse? ==> Wrote(s, c.call))
    case ClientReads => s.client.reader.Reading? && s.down.buf != []
    case ServerReads => s.hand == [] && s.up.buf != [] && !s.server.readDone
    case ServerEnqueues => s.hand != [] && S.Enabled(s.server, S.Enqueue(s.hand[0]))
    case ServerStep(st', ctxDone, arm) =>
      && S.Enabled(s.server, st') && !st'.Enqueue?
      && (st'.EmitBegin? ==> st'.ok == T.WriteOutcome(s.down, ctxDone, arm).Accepted?)
    case ServerWrites(line, _, _) => !line.FromServer?
    case CloseUp => true
    case CloseDown => true
  }

  // The response a line is, to the client's reader.
  function IdOf(line: Down): string {
    if line.FromServer? && line.entry.Reply? then line.entry.id else ""
  }

  predicate IsResponse(line: Down) {
    line.NoId? || (line.FromServer? && line.entry.Reply?)
  }

  function ReadStep(s: State): State
    requires s.down.buf != [] && s.client.reader.Reading?
  {
    var line := s.down.buf[0];
    s.(down := T.Take(s.down),
       client := if IsResponse(line) then C.Apply(s.client, C.ReadLine(IdOf(line))) else s.client)
  }

  function ServerStepOf(s: State, st: S.Step, ctxDone: bool, arm: T.Arm): State
    requires S.Enabled(s.server, st)
  {
    var server := S.Apply(s.server, st);
    s.(server := server,
       down := if S.Loud(st) && server.log.Then?
               then T.WriteTo(s.down, FromServer(server.log.last), ctxDone, arm)
               else s.down)
  }

  function WriteStep(s: State, c: nat, m: S.Msg, ctxDone: bool, arm: T.Arm): State {
    s.(up := T.WriteTo(s.up, Ask(m), ctxDone, arm), tried := s.tried + {c},
       sent := if T.WriteOutcome(s.up, ctxDone, arm).Accepted? then s.sent + [Sent(c, m)] else s.sent)
  }

  function Apply(s: State, st: Step): State
    requires Enabled(s, st)
  {
    match st
    case ClientWrite(c, verb, wellFormed, ctxDone, arm) =>
      WriteStep(s, c, S.Msg(C.Id(c), verb, wellFormed), ctxDone, arm)
    case ClientAnswers(ctxDone, arm) => s.(up := T.WriteTo(s.up, Answer, ctxDone, arm))
    case ClientStep(c) => s.(client := C.Apply(s.client, c))
    case ClientReads => ReadStep(s)
    case ServerReads =>
      s.(up := T.Take(s.up), hand := if s.up.buf[0].Ask? then [s.up.buf[0].m] else [])
    case ServerEnqueues => s.(server := S.Apply(s.server, S.Enqueue(s.hand[0])), hand := [])
    case ServerStep(st', ctxDone, arm) => ServerStepOf(s, st', ctxDone, arm)
    case ServerWrites(line, ctxDone, arm) => s.(down := T.WriteTo(s.down, line, ctxDone, arm))
    case CloseUp => s.(up := T.CloseOne(s.up))
    case CloseDown => s.(down := T.CloseOne(s.down))
  }

  function Exec(steerer: bool, replayer: bool, schedule: seq<Step>): State {
    if schedule == [] then Init(steerer, replayer)
    else
      var s := Exec(steerer, replayer, schedule[..|schedule| - 1]);
      var st := schedule[|schedule| - 1];
      if Enabled(s, st) then Apply(s, st) else s
  }

  // ---------------------------------------------------------------------------------------------
  // The invariant
  // ---------------------------------------------------------------------------------------------

  // The requests among the lines of one direction, and the responses among those of the other.
  function Asks(lines: seq<Up>): seq<S.Msg> {
    if lines == [] then []
    else Asks(lines[..|lines| - 1]) + if lines[|lines| - 1].Ask? then [lines[|lines| - 1].m] else []
  }

  function Responses(lines: seq<Down>): seq<Down> {
    if lines == [] then []
    else Responses(lines[..|lines| - 1]) + if IsResponse(lines[|lines| - 1]) then [lines[|lines| - 1]] else []
  }

  lemma AsksThen(lines: seq<Up>, l: Up)
    ensures Asks(lines + [l]) == Asks(lines) + if l.Ask? then [l.m] else []
  {
    assert (lines + [l])[..|lines|] == lines;
  }

  lemma {:induction false} AsksPrefix(a: seq<Up>, b: seq<Up>)
    requires a <= b
    ensures Asks(a) <= Asks(b)
  {
    if a != b {
      AsksPrefix(a, b[..|b| - 1]);
    }
  }

  lemma ResponsesThen(lines: seq<Down>, l: Down)
    ensures Responses(lines + [l]) == Responses(lines) + if IsResponse(l) then [l] else []
  {
    assert (lines + [l])[..|lines|] == lines;
  }

  lemma {:induction false} ResponsesAreLines(lines: seq<Down>, n: nat)
    requires n < |Responses(lines)|
    ensures Responses(lines)[n] in lines && IsResponse(Responses(lines)[n])
  {
    if n < |Responses(lines[..|lines| - 1])| {
      ResponsesAreLines(lines[..|lines| - 1], n);
    }
  }

  // Each call has written once at most, and what it wrote carries its id.
  ghost predicate SentOk(s: State) {
    && (forall i: nat | i < |s.sent| :: s.sent[i].call in s.tried && s.sent[i].m.id == C.Id(s.sent[i].call))
    && (forall i: nat, j: nat | i < j < |s.sent| :: s.sent[i].call != s.sent[j].call)
  }

  function Msgs(sent: seq<Sent>): (ms: seq<S.Msg>)
    ensures |ms| == |sent| && forall i | 0 <= i < |sent| :: ms[i] == sent[i].m
  {
    if sent == [] then [] else Msgs(sent[..|sent| - 1]) + [sent[|sent| - 1].m]
  }

  ghost predicate UpOk(s: State) {
    T.Fifo(s.up) && Asks(s.up.accepted) == Msgs(s.sent) && Asks(s.up.received) == s.server.accepted + s.hand
  }

  // What the client has read are the ids of responses the server wrote.
  ghost predicate LinesMatch(lines: seq<string>, rs: seq<Down>) {
    |lines| == |rs| && forall n: nat | n < |rs| :: lines[n] == IdOf(rs[n])
  }

  ghost predicate DownOk(s: State) {
    && T.Fifo(s.down)
    && (forall l | l in s.down.accepted && l.FromServer? :: S.In(s.server.log, l.entry))
    && LinesMatch(s.client.lines, Responses(s.down.received))
  }

  // The parts of the invariant that tie the four together.
  ghost predicate Tied(s: State) {
    SentOk(s) && UpOk(s) && DownOk(s)
  }

  lemma LinesStay(s: C.State, st: C.Step)
    requires C.Enabled(s, st) && !st.ReadLine?
    ensures C.Apply(s, st).lines == s.lines
  {
  }

  lemma WriteKeepsSent(s: State, c: nat, m: S.Msg)
    requires SentOk(s) && c !in s.tried && m.id == C.Id(c)
    ensures SentOk(s.(tried := s.tried + {c})) && SentOk(s.(tried := s.tried + {c}, sent := s.sent + [Sent(c, m)]))
  {
  }

  lemma WriteKeepsUp(s: State, m: S.Msg, c: nat)
    requires UpOk(s) && |s.up.buf| < T.CAPACITY
    ensures UpOk(s.(up := T.Put(s.up, Ask(m)), sent := s.sent + [Sent(c, m)]))
  {
    AsksThen(s.up.accepted, Ask(m));
    var more := s.sent + [Sent(c, m)];
    assert more[..|s.sent|] == s.sent;
    assert Msgs(more) == Msgs(s.sent) + [m];
  }

  lemma WriteTies(s: State, c: nat, m: S.Msg, ctxDone: bool, arm: T.Arm)
    requires Tied(s) && c !in s.tried && m.id == C.Id(c)
    ensures Tied(WriteStep(s, c, m, ctxDone, arm))
  {
    WriteKeepsSent(s, c, m);
    if T.WriteOutcome(s.up, ctxDone, arm).Accepted? {
      WriteKeepsUp(s, m, c);
    }
  }

  lemma AnswerTies(s: State, ctxDone: bool, arm: T.Arm)
    requires Tied(s)
    ensures Tied(s.(up := T.WriteTo(s.up, Answer, ctxDone, arm)))
  {
    AsksThen(s.up.accepted, Answer);
    assert Asks(s.up.accepted) + [] == Asks(s.up.accepted);
  }

  lemma ServerReadTies(s: State)
    requires Tied(s) && Enabled(s, ServerReads)
    ensures Tied(Apply(s, ServerReads))
  {
    var line := s.up.buf[0];
    AsksThen(s.up.received, line);
    var m := if line.Ask? then [line.m] else [];
    assert s.server.accepted + [] + m == s.server.accepted + m;
    assert s.up.received + [line] + s.up.buf[1..] == s.up.received + s.up.buf;
  }

  lemma EnqueueTies(s: State)
    requires Tied(s) && Enabled(s, ServerEnqueues) && |s.hand| <= 1
    ensures Tied(Apply(s, ServerEnqueues))
  {
    var m := s.hand[0];
    assert s.server.accepted + [m] + [] == s.server.accepted + s.hand;
  }

  lemma LineMatches(lines: seq<string>, rs: seq<Down>, line: Down)
    requires LinesMatch(lines, rs)
    ensures LinesMatch(lines + [IdOf(line)], rs + [line])
  {
  }

  lemma LineGrows(s: C.State, id: string)
    requires C.Enabled(s, C.ReadLine(id))
    ensures C.Apply(s, C.ReadLine(id)).lines == s.lines + [id]
  {
  }

  lemma TakeFifo<X>(d: T.Direction<X>)
    requires T.Fifo(d) && d.buf != []
    ensures T.Fifo(T.Take(d))
  {
    assert d.received + [d.buf[0]] + d.buf[1..] == d.received + d.buf;
  }

  lemma ClientReadTies(s: State)
    requires Tied(s) && Enabled(s, ClientReads)
    ensures Tied(ReadStep(s))
  {
    var line, rs := s.down.buf[0], Responses(s.down.received);
    var s' := ReadStep(s);
    TakeFifo(s.down);
    ResponsesThen(s.down.received, line);
    assert s'.down.received == s.down.received + [line] && s'.down.accepted == s.down.accepted && rs + [] == rs;
    if IsResponse(line) {
      LineGrows(s.client, IdOf(line));
      LineMatches(s.client.lines, rs, line);
    }
    assert DownOk(s');
  }

  lemma LogGrows(s: S.State, st: S.Step)
    requires S.Enabled(s, st)
    ensures forall e | S.In(s.log, e) :: S.In(S.Apply(s, st).log, e)
    ensures S.Loud(st) ==> S.Apply(s, st).log.Then? && S.In(S.Apply(s, st).log, S.Apply(s, st).log.last)
    ensures !st.Enqueue? ==> S.Apply(s, st).accepted == s.accepted
  {
    SS.LogStep(s, st);
    if !st.Enqueue? {
      SS.AcceptedStays(s, st);
    }
  }

  lemma DownTies(s: State, server: S.State, line: Down, ctxDone: bool, arm: T.Arm)
    requires DownOk(s) && (forall e | S.In(s.server.log, e) :: S.In(server.log, e))
    requires line.FromServer? ==> S.In(server.log, line.entry)
    ensures DownOk(s.(server := server, down := T.WriteTo(s.down, line, ctxDone, arm)))
  {
    var down := T.WriteTo(s.down, line, ctxDone, arm);
    forall l | l in down.accepted && l.FromServer? ensures S.In(server.log, l.entry) {
      assert l in s.down.accepted || l == line;
    }
  }

  lemma ServerTies(s: State, st: S.Step, ctxDone: bool, arm: T.Arm)
    requires Tied(s) && S.Enabled(s.server, st) && !st.Enqueue?
    ensures Tied(ServerStepOf(s, st, ctxDone, arm))
  {
    LogGrows(s.server, st);
    var server := S.Apply(s.server, st);
    if S.Loud(st) {
      DownTies(s, server, FromServer(server.log.last), ctxDone, arm);
    }
  }

  lemma StepTies(s: State, st: Step)
    requires Tied(s) && |s.hand| <= 1 && Enabled(s, st)
    ensures Tied(Apply(s, st)) && |Apply(s, st).hand| <= 1
  {
    match st
    case ClientWrite(c, verb, wf, ctxDone, arm) => WriteTies(s, c, S.Msg(C.Id(c), verb, wf), ctxDone, arm);
    case ClientAnswers(ctxDone, arm) => AnswerTies(s, ctxDone, arm);
    case ClientStep(c) => LinesStay(s.client, c);
    case ClientReads => ClientReadTies(s);
    case ServerReads => ServerReadTies(s);
    case ServerEnqueues => EnqueueTies(s);
    case ServerStep(st', ctxDone, arm) => ServerTies(s, st', ctxDone, arm);
    case ServerWrites(line, ctxDone, arm) => DownTies(s, s.server, line, ctxDone, arm);
    case CloseUp =>
    case CloseDown =>
  }

  // The client and the server each do what they can do alone.
  ghost predicate Alone(s: State) {
    CI.Inv(s.client) && SI.Inv(s.server) && S.OwnIds(s.server.log, s.server.accepted)
  }

  lemma StepAlone(s: State, st: Step)
    requires Alone(s) && Enabled(s, st)
    ensures Alone(Apply(s, st))
  {
    match st
    case ClientStep(c) => CI.StepKeeps(s.client, c);
    case ClientReads =>
      if IsResponse(s.down.buf[0]) {
        CI.StepKeeps(s.client, C.ReadLine(IdOf(s.down.buf[0])));
      }
    case ServerEnqueues =>
      SI.StepKeeps(s.server, S.Enqueue(s.hand[0]));
      SI.StepKeepsIds(s.server, S.Enqueue(s.hand[0]));
    case ServerStep(st', _, _) =>
      SI.StepKeeps(s.server, st');
      SI.StepKeepsIds(s.server, st');
    case _ =>
  }

  ghost predicate Inv(s: State) {
    Alone(s) && Tied(s) && |s.hand| <= 1
  }

  lemma StepKeeps(s: State, st: Step)
    requires Inv(s)
    ensures Inv(if Enabled(s, st) then Apply(s, st) else s)
  {
    if Enabled(s, st) {
      StepAlone(s, st);
      StepTies(s, st);
    }
  }

  lemma {:induction false} Invariant(steerer: bool, replayer: bool, schedule: seq<Step>)
    ensures var s := Exec(steerer, replayer, schedule); Alone(s) && Tied(s) && |s.hand| <= 1
  {
    if schedule != [] {
      var before, st := schedule[..|schedule| - 1], schedule[|schedule| - 1];
      Invariant(steerer, replayer, before);
      StepKeeps(Exec(steerer, replayer, before), st);
    }
  }

  // ---------------------------------------------------------------------------------------------
  // Results
  // ---------------------------------------------------------------------------------------------

  // Entry e of the server's log is its one reply to message k, which is what call c wrote.
  ghost predicate ReplyTo(s: State, c: nat, k: nat, e: S.Entry) {
    && k < |s.sent| && s.sent[k].call == c && k < |s.server.accepted| && s.server.accepted[k] == s.sent[k].m
    && e.Reply? && e.msg == k && e.id == C.Id(c) && S.In(s.server.log, e) && S.Replies(s.server.log, k) == 1
  }

  // The n-th response the client read is line e of the server.
  ghost predicate ReadAs(s: State, n: nat, e: S.Entry) {
    var rs := Responses(s.down.received);
    n < |rs| && rs[n] == FromServer(e)
  }

  lemma ReadIsReply(s: State, n: nat)
    requires Alone(s) && Tied(s) && n < |s.client.lines| && s.client.lines[n] != ""
    ensures exists e: S.Entry :: ReadAs(s, n, e) && e.Reply? && e.id == s.client.lines[n] && S.In(s.server.log, e)
  {
    var rs := Responses(s.down.received);
    ResponsesAreLines(s.down.received, n);
    assert rs[n] in s.down.accepted by {
      assert s.down.accepted == s.down.received + s.down.buf;
    }
    assert s.client.lines[n] == IdOf(rs[n]);
    assert ReadAs(s, n, rs[n].entry);
  }

  lemma AcceptedIsSent(s: State, k: nat)
    requires Tied(s) && k < |s.server.accepted|
    ensures k < |s.sent| && s.server.accepted[k] == s.sent[k].m
  {
    AsksPrefix(s.up.received, s.up.accepted);
    assert Asks(s.up.received)[k] == s.server.accepted[k];
    assert Asks(s.up.accepted)[k] == Asks(s.up.received)[k];
  }

  // In every run of the two together, a call that returned a response wrote exactly one message that the
  // server accepted, and what it returned is the one reply the server wrote to that message.
  lemma {:induction false} ReplyReachesItsCall(steerer: bool, replayer: bool, schedule: seq<Step>, c: nat)
    requires var s := Exec(steerer, replayer, schedule);
             c < |s.client.calls| && s.client.calls[c].result.Got? && s.client.calls[c].result.m.Line?
    ensures var s := Exec(steerer, replayer, schedule);
            exists k: nat, e: S.Entry :: ReadAs(s, s.client.calls[c].result.m.no, e) && ReplyTo(s, c, k, e)
  {
    Invariant(steerer, replayer, schedule);
    AllIdsDistinct();
    var s := Exec(steerer, replayer, schedule);
    var n := s.client.calls[c].result.m.no;
    assert CI.CallOk(s.client, c, s.client.calls[c]);
    assert s.client.lines[n] == C.Id(c) && C.Id(c) != "";
    ReadIsReply(s, n);
    var e: S.Entry :| ReadAs(s, n, e) && e.Reply? && e.id == s.client.lines[n] && S.In(s.server.log, e);
    SR.RepliesCarryOwnIds(s.server.log, s.server.accepted, e);
    SR.WrittenOnce(s.server.log, e);
    AcceptedIsSent(s, e.msg);
    assert s.sent[e.msg].call == c;
    assert ReplyTo(s, c, e.msg, e);
  }

  // A call writes one message at most, so the message is the call's own and no other call's.
  lemma {:induction false} OneMessageEach(steerer: bool, replayer: bool, schedule: seq<Step>, k: nat, l: nat)
    requires var s := Exec(steerer, replayer, schedule); k < |s.server.accepted| && l < |s.server.accepted|
    ensures var s := Exec(steerer, replayer, schedule);
            && k < |s.sent| && l < |s.sent| && s.server.accepted[k].id == C.Id(s.sent[k].call)
            && (s.server.accepted[k].id == s.server.accepted[l].id ==> k == l)
  {
    Invariant(steerer, replayer, schedule);
    AllIdsDistinct();
    var s := Exec(steerer, replayer, schedule);
    AcceptedIsSent(s, k);
    AcceptedIsSent(s, l);
  }

  // ---------------------------------------------------------------------------------------------
  // Nothing is lost on the way
  // ---------------------------------------------------------------------------------------------

  predicate Replies(l: Down, k: nat) {
    l.FromServer? && l.entry.Reply? && l.entry.msg == k
  }

  // The replies to message k among some lines.
  function RepliesIn(lines: seq<Down>, k: nat): nat {
    if lines == [] then 0
    else RepliesIn(lines[..|lines| - 1], k) + if Replies(lines[|lines| - 1], k) then 1 else 0
  }

  lemma RepliesInThen(lines: seq<Down>, l: Down, k: nat)
    ensures RepliesIn(lines + [l], k) == RepliesIn(lines, k) + if Replies(l, k) then 1 else 0
  {
    assert (lines + [l])[..|lines|] == lines;
  }

  lemma {:induction false} RepliesInBoth(a: seq<Down>, b: seq<Down>, k: nat)
    ensures RepliesIn(a + b, k) == RepliesIn(a, k) + RepliesIn(b, k)
  {
    if b == [] {
      assert a + b == a;
    } else {
      RepliesInBoth(a, b[..|b| - 1], k);
      RepliesInThen(a + b[..|b| - 1], b[|b| - 1], k);
      assert a + b == a + b[..|b| - 1] + [b[|b| - 1]];
    }
  }

  // No reply goes down the transport more often than the server has written it.
  ghost predicate WrittenReplies(s: State, k: nat) {
    RepliesIn(s.down.accepted, k) <= S.Replies(s.server.log, k)
  }

  lemma WriteKeepsReplies(d: T.Direction<Down>, line: Down, ctxDone: bool, arm: T.Arm, k: nat)
    ensures RepliesIn(T.WriteTo(d, line, ctxDone, arm).accepted, k) <=
            RepliesIn(d.accepted, k) + if Replies(line, k) then 1 else 0
  {
    RepliesInThen(d.accepted, line, k);
  }

  lemma StepKeepsReplies(s: State, st: Step, k: nat)
    requires WrittenReplies(s, k) && Enabled(s, st)
    ensures WrittenReplies(Apply(s, st), k)
  {
    match st
    case ServerStep(st', ctxDone, arm) =>
      SS.LogStep(s.server, st');
      if S.Loud(st') {
        WriteKeepsReplies(s.down, FromServer(S.Apply(s.server, st').log.last), ctxDone, arm, k);
      }
    case ServerWrites(line, ctxDone, arm) => WriteKeepsReplies(s.down, line, ctxDone, arm, k);
    case ServerEnqueues => SS.LogStep(s.server, S.Enqueue(s.hand[0]));
    case _ =>
  }

  lemma {:induction false} RepliesInvariant(steerer: bool, replayer: bool, schedule: seq<Step>, k: nat)
    ensures WrittenReplies(Exec(steerer, replayer, schedule), k)
  {
    if schedule != [] {
      var before, st := schedule[..|schedule| - 1], schedule[|schedule| - 1];
      RepliesInvariant(steerer, replayer, before, k);
      if Enabled(Exec(steerer, replayer, before), st) {
        StepKeepsReplies(Exec(steerer, replayer, before), st, k);
      }
    }
  }

  // Where the message of a call or the reply to it is; k is the message's number among those written.
  datatype Whereabouts = Upward | AtReader | AtServer | ReplyLost | Downward | Arrived

  ghost predicate At(s: State, k: nat, w: Whereabouts) {
    match w
    case Upward => |Asks(s.up.received)| <= k < |s.sent|          // in the transport
    case AtReader => |s.server.accepted| <= k < |Asks(s.up.received)|   // in readLoop's hand
    case AtServer => k < |s.server.accepted| && S.Replies(s.server.log, k) == 0
    case ReplyLost => S.Replies(s.server.log, k) == 1 && RepliesIn(s.down.accepted, k) == 0  // the write failed
    case Downward => RepliesIn(s.down.buf, k) == 1                // in the transport
    case Arrived => RepliesIn(s.down.received, k) == 1            // the client's reader has read it
  }

  lemma OneWhereabouts(s: State, k: nat) returns (w: Whereabouts)
    requires Tied(s) && SI.Inv(s.server) && WrittenReplies(s, k) && k < |s.sent|
    ensures At(s, k, w) && forall v :: At(s, k, v) ==> v == w
  {
    SR.AtMostOneReply(s.server.log, k);
    RepliesInBoth(s.down.received, s.down.buf, k);
    AsksPrefix(s.up.received, s.up.accepted);
    if k >= |Asks(s.up.received)| {
      w := Upward;
    } else if k >= |s.server.accepted| {
      w := AtReader;
    } else if S.Replies(s.server.log, k) == 0 {
      w := AtServer;
    } else if RepliesIn(s.down.accepted, k) == 0 {
      w := ReplyLost;
    } else if RepliesIn(s.down.received, k) == 0 {
      w := Downward;
    } else {
      w := Arrived;
    }
  }

  // In every run each message that a call wrote, or the reply to it, is in exactly one place on the way up
  // and down again; it is gone only if the write of the reply failed.
  lemma {:induction false} MessageConservation(steerer: bool, replayer: bool, schedule: seq<Step>, k: nat)
    requires k < |Exec(steerer, replayer, schedule).sent|
    ensures var s := Exec(steerer, replayer, schedule); exists w :: At(s, k, w) && forall v :: At(s, k, v) ==> v == w
  {
    Invariant(steerer, replayer, schedule);
    RepliesInvariant(steerer, replayer, schedule, k);
    var w := OneWhereabouts(Exec(steerer, replayer, schedule), k);
  }

  lemma {:induction false} FindReply(lines: seq<Down>, k: nat) returns (n: nat)
    requires RepliesIn(lines, k) > 0
    ensures n < |Responses(lines)| && Replies(Responses(lines)[n], k)
  {
    var before := lines[..|lines| - 1];
    if Replies(lines[|lines| - 1], k) {
      n := |Responses(before)|;
    } else {
      n := FindReply(before, k);
    }
  }

  lemma {:induction false} RepliesCounted(lines: seq<Down>, k: nat, m: nat, n: nat)
    requires m <= n < |Responses(lines)| && Replies(Responses(lines)[m], k) && Replies(Responses(lines)[n], k)
    ensures RepliesIn(lines, k) >= if m < n then 2 else 1
  {
    var before := lines[..|lines| - 1];
    if n < |Responses(before)| {
      RepliesCounted(before, k, m, n);
    } else if m < n {
      RepliesCounted(before, k, m, m);
    }
  }

  // A line with the id of call c answers the one message that call wrote.
  lemma LineAnswers(s: State, n: nat, c: nat, k: nat)
    requires Alone(s) && Tied(s) && n < |s.client.lines| && s.client.lines[n] == C.Id(c)
    requires k < |s.sent| && s.sent[k].call == c
    ensures n < |Responses(s.down.received)| && Replies(Responses(s.down.received)[n], k)
  {
    AllIdsDistinct();
    ReadIsReply(s, n);
    var e: S.Entry :| ReadAs(s, n, e) && e.Reply? && e.id == s.client.lines[n] && S.In(s.server.log, e);
    SR.RepliesCarryOwnIds(s.server.log, s.server.accepted, e);
    AcceptedIsSent(s, e.msg);
    assert s.sent[e.msg].call == c;
  }

  // The other way round, a reply to message k carries the id of the call that wrote it.
  lemma AnswerHasId(s: State, n: nat, c: nat, k: nat)
    requires Alone(s) && Tied(s) && k < |s.sent| && s.sent[k].call == c
    requires n < |Responses(s.down.received)| && Replies(Responses(s.down.received)[n], k)
    ensures n < |s.client.lines| && s.client.lines[n] == C.Id(c)
  {
    var rs := Responses(s.down.received);
    ResponsesAreLines(s.down.received, n);
    assert rs[n] in s.down.accepted by {
      assert s.down.accepted == s.down.received + s.down.buf;
    }
    SR.RepliesCarryOwnIds(s.server.log, s.server.accepted, rs[n].entry);
    AcceptedIsSent(s, k);
  }

  // Where the reply of call c is once the client's reader has read it, as response line n.
  ghost predicate HandedOn(s: State, c: nat, n: nat)
    requires c < |s.client.calls| && n < |s.client.places|
  {
    var k, p := s.client.calls[c], s.client.places[n];
    && (k.phase.Issued? ==> p.InBuffer?)
    && (k.phase.Waiting? ==>
          || (p == C.InHand(c) && s.client.reader == C.Holding(c, n))
          || (p == C.InChan(c) && k.ch == C.Full(C.Line(n)))
          || (p == C.Dropped(c) && s.client.reader.Exited?))
    && (k.result.Got? ==> k.result.m == C.Line(n))
  }

  lemma PlacedRight(s: State, c: nat, n: nat)
    requires CI.Inv(s.client) && c < |s.client.calls| && CI.First(s.client.lines, C.Id(c), n)
    ensures HandedOn(s, c, n)
  {
    AllIdsDistinct();
    assert CI.CallOk(s.client, c, s.client.calls[c]);
    assert CI.MeantOk(s.client.lines, n, s.client.places[n], c, s.client.calls[c]);
    assert CI.PlaceOk(s.client, n, s.client.places[n]);
  }

  // What has arrived is the first response with the id of its call. Before the call registers it is in the
  // buffer; while the call waits it is in the reader's hand for it, in its channel, or dropped by a reader
  // that has left; and no call returns anything else instead.
  lemma {:induction false} ArrivedIsHandedOn(steerer: bool, replayer: bool, schedule: seq<Step>, c: nat, k: nat)
    requires var s := Exec(steerer, replayer, schedule);
             c < |s.client.calls| && k < |s.sent| && s.sent[k].call == c && At(s, k, Arrived)
    ensures var s := Exec(steerer, replayer, schedule);
            exists n: nat :: CI.First(s.client.lines, C.Id(c), n) && n < |s.client.places| && HandedOn(s, c, n)
  {
    var s := Exec(steerer, replayer, schedule);
    Invariant(steerer, replayer, schedule);
    var n := FindReply(s.down.received, k);
    AnswerHasId(s, n, c, k);
    forall m: nat | m < n ensures s.client.lines[m] != C.Id(c) {
      if s.client.lines[m] == C.Id(c) {
        LineAnswers(s, m, c, k);
        RepliesCounted(s.down.received, k, m, n);
      }
    }
    PlacedRight(s, c, n);
  }
}
