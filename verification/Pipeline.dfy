// From the server's writes to the client's handler: the locked writer (server/request.go), one
// direction of the transport, the client's readerLoop as a forwarder (client.go) and one Dispatch loop
// (dispatch.go).
module Pipeline {
  import T = Transport
  import Log = Turns

  const QUEUE_CAPACITY: nat := 1024

  // A line as the client parses it. wellFormed says whether ParseWireMessage accepts it.
  datatype Wire =
    | Garbage
    | Event(entry: Log.Entry, wellFormed: bool)
    | Request(id: string, wellFormed: bool)
    | Response(id: string)
    | UnknownMethod

  datatype Attempt = Attempt(line: Wire, outcome: T.Written)

  datatype Reader = Reading | Forwarding(line: Wire) | Correlating | Leaving | Exited

  // drained: Dispatch returned because dispatchCh was closed and empty.
  datatype Dispatcher = Selecting | Handling(line: Wire) | Ended(drained: bool)

  // The answer to a request: SendResponse, or SendError with code -32603.
  datatype Reply = Reply(id: string, ok: bool)

  datatype State = State(
    pipe: T.Direction<Wire>,
    attempts: seq<Attempt>,    // history: the writes in the order of writeMu
    clientClosed: bool,        // the client has closed its own side
    stopped: bool,             // stopCh is closed
    reader: Reader,
    queue: seq<Wire>,          // dispatchCh
    queueClosed: bool,
    dispatcher: Dispatcher,
    consumed: seq<Wire>,       // history: what Dispatch took out of dispatchCh
    handled: seq<Wire>,        // history: what it gave to the handler
    replies: seq<Reply>,       // history: the answers it tried to write
    dropped: seq<Wire>,        // history: what the reader held when it left for stopCh
    atEnd: bool)               // history: the reader saw the end of the stream

  function Init(): State {
    State(T.Open(), [], false, false, Reading, [], false, Selecting, [], [], [], [], false)
  }

  datatype Step =
    | Write(line: Wire, ctxDone: bool, arm: T.Arm)
    | CloseServer
    | Stop                     // Shutdown closes stopCh
    | CloseClient              // and then its transport
    | ReadLine(arm: T.Arm)
    | Forward
    | ForwardStopped
    | Correlated               // the response in hand was buffered or sent to its call
    | CorrelateStopped
    | CloseQueue               // the deferred close of dispatchCh
    | TakeNext
    | SeeClosed
    | SeeContext
    | Handled(ok: bool, sent: bool)

  predicate Enabled(s: State, st: Step) {
    match st
    case Write(_, _, _) => true
    case CloseServer => true
    case Stop => true
    case CloseClient => true
    case ReadLine(arm) => s.reader.Reading? && T.Ready(s.pipe, s.clientClosed, false, arm)
    case Forward => s.reader.Forwarding? && |s.queue| < QUEUE_CAPACITY
    case ForwardStopped => s.reader.Forwarding? && s.stopped
    case Correlated => s.reader.Correlating?
    case CorrelateStopped => s.reader.Correlating? && s.stopped
    case CloseQueue => s.reader.Leaving?
    case TakeNext => s.dispatcher.Selecting? && s.queue != []
    case SeeClosed => s.dispatcher.Selecting? && s.queue == [] && s.queueClosed
    case SeeContext => s.dispatcher.Selecting?
    case Handled(_, _) => s.dispatcher.Handling?
  }

  // Where the reader goes with a line.
  function Sorted(line: Wire): Reader {
    match line
    case Garbage => Leaving
    case Event(_, _) => Forwarding(line)
    case Request(_, _) => Forwarding(line)
    case Response(_) => Correlating
    case UnknownMethod => Reading
  }

  function ReadStep(s: State, arm: T.Arm): State {
    match T.ReadOutcome(s.pipe, arm)
    case Line(line) => s.(pipe := T.ReadFrom(s.pipe, arm), reader := Sorted(line))
    case EndOfStream => s.(reader := Leaving, atEnd := arm.FromChannel?)
    case Interrupted => s.(reader := Leaving)
  }

  // A message that ParseWireMessage refuses is dropped; the others go to the handler.
  function TakeStep(s: State): State
    requires s.queue != []
  {
    var line := s.queue[0];
    var ok := IsNotice(line) && line.wellFormed;
    s.(queue := s.queue[1..], consumed := s.consumed + [line], handled := s.handled + if ok then [line] else [],
       dispatcher := if ok then Handling(line) else Selecting)
  }

  function HandledStep(s: State, ok: bool, sent: bool): State
    requires s.dispatcher.Handling?
  {
    match s.dispatcher.line
    case Request(id, _) =>
      s.(replies := s.replies + [Reply(id, ok)], dispatcher := if sent then Selecting else Ended(false))
    case _ => s.(dispatcher := if ok then Selecting else Ended(false))
  }

  function Apply(s: State, st: Step): State
    requires Enabled(s, st)
  {
    match st
    case Write(line, ctxDone, arm) =>
      s.(pipe := T.WriteTo(s.pipe, line, ctxDone, arm),
         attempts := s.attempts + [Attempt(line, T.WriteOutcome(s.pipe, ctxDone, arm))])
    case CloseServer => s.(pipe := T.CloseOne(s.pipe))
    case Stop => s.(stopped := true)
    case CloseClient => s.(clientClosed := true)
    case ReadLine(arm) => ReadStep(s, arm)
    case Forward => s.(queue := s.queue + [s.reader.line], reader := Reading)
    case ForwardStopped => s.(dropped := [s.reader.line], reader := Leaving)
    case Correlated => s.(reader := Reading)
    case CorrelateStopped => s.(reader := Leaving)
    case CloseQueue => s.(queueClosed := true, reader := Exited)
    case TakeNext => TakeStep(s)
    case SeeClosed => s.(dispatcher := Ended(true))
    case SeeContext => s.(dispatcher := Ended(false))
    case Handled(ok, sent) => HandledStep(s, ok, sent)
  }

  function Exec(schedule: seq<Step>): State {
    if schedule == [] then Init()
    else
      var s := Exec(schedule[..|schedule| - 1]);
      var st := schedule[|schedule| - 1];
      if Enabled(s, st) then Apply(s, st) else s
  }

  // ---------------------------------------------------------------------------------------------
  // What is read off the histories
  // ---------------------------------------------------------------------------------------------

  predicate IsNotice(line: Wire) {
    line.Event? || line.Request?
  }

  // The events and requests among some lines.
  function Notices(lines: seq<Wire>): seq<Wire> {
    if lines == [] then []
    else Notices(lines[..|lines| - 1]) + if IsNotice(lines[|lines| - 1]) then [lines[|lines| - 1]] else []
  }

  // The lines of the writes that succeeded.
  function Succeeded(attempts: seq<Attempt>): seq<Wire> {
    if attempts == [] then []
    else
      var a := attempts[|attempts| - 1];
      Succeeded(attempts[..|attempts| - 1]) + if a.outcome.Accepted? then [a.line] else []
  }

  // The ids of the requests among some lines that reach the handler.
  function Asked(lines: seq<Wire>): seq<string> {
    if lines == [] then []
    else
      var l := lines[|lines| - 1];
      Asked(lines[..|lines| - 1]) + if l.Request? && l.wellFormed then [l.id] else []
  }

  // The events and requests among some lines that ParseWireMessage accepts.
  function Parsed(lines: seq<Wire>): seq<Wire> {
    if lines == [] then []
    else
      var l := lines[|lines| - 1];
      Parsed(lines[..|lines| - 1]) + if IsNotice(l) && l.wellFormed then [l] else []
  }

  function Ids(replies: seq<Reply>): seq<string> {
    if replies == [] then [] else Ids(replies[..|replies| - 1]) + [replies[|replies| - 1].id]
  }

  lemma NoticesThen(lines: seq<Wire>, l: Wire)
    ensures Notices(lines + [l]) == Notices(lines) + if IsNotice(l) then [l] else []
  {
    assert (lines + [l])[..|lines|] == lines;
  }

  lemma {:induction false} NoticesAppend(a: seq<Wire>, b: seq<Wire>)
    ensures Notices(a + b) == Notices(a) + Notices(b)
  {
    if b == [] {
      assert a + b == a;
    } else {
      NoticesAppend(a, b[..|b| - 1]);
      NoticesThen(a + b[..|b| - 1], b[|b| - 1]);
      assert a + b == a + b[..|b| - 1] + [b[|b| - 1]];
    }
  }

  lemma SucceededThen(attempts: seq<Attempt>, a: Attempt)
    ensures Succeeded(attempts + [a]) == Succeeded(attempts) + if a.outcome.Accepted? then [a.line] else []
  {
    assert (attempts + [a])[..|attempts|] == attempts;
  }

  lemma AskedThen(lines: seq<Wire>, l: Wire)
    ensures Asked(lines + [l]) == Asked(lines) + if l.Request? && l.wellFormed then [l.id] else []
  {
    assert (lines + [l])[..|lines|] == lines;
  }

  lemma ParsedThen(lines: seq<Wire>, l: Wire)
    ensures Parsed(lines + [l]) == Parsed(lines) + if IsNotice(l) && l.wellFormed then [l] else []
  {
    assert (lines + [l])[..|lines|] == lines;
  }

  lemma IdsThen(replies: seq<Reply>, r: Reply)
    ensures Ids(replies + [r]) == Ids(replies) + [r.id]
  {
    assert (replies + [r])[..|replies|] == replies;
  }

  // ---------------------------------------------------------------------------------------------
  // The invariant
  // ---------------------------------------------------------------------------------------------

  // What the reader holds.
  function InHand(s: State): seq<Wire> {
    if s.reader.Forwarding? then [s.reader.line] else s.dropped
  }

  ghost predicate PipeOk(s: State) {
    T.Fifo(s.pipe) && s.pipe.accepted == Succeeded(s.attempts)
  }

  ghost predicate ReaderOk(s: State) {
    && Notices(s.pipe.received) == s.consumed + s.queue + InHand(s)
    && |s.queue| <= QUEUE_CAPACITY
    && (s.reader.Forwarding? ==> IsNotice(s.reader.line))
    && |s.dropped| <= 1 && (s.dropped != [] ==> s.reader.Leaving? || s.reader.Exited?)
    && (s.queueClosed <==> s.reader.Exited?)
    && (s.atEnd ==> (s.reader.Leaving? || s.reader.Exited?) && s.pipe.closed && s.pipe.buf == [] && s.dropped == [])
  }

  // The id of the request that is being handled.
  function InWork(d: Dispatcher): seq<string> {
    if d.Handling? && d.line.Request? then [d.line.id] else []
  }

  ghost predicate DispatchOk(s: State) {
    && Asked(s.consumed) == Ids(s.replies) + InWork(s.dispatcher)
    && s.handled == Parsed(s.consumed)
    && (s.dispatcher.Handling? ==> IsNotice(s.dispatcher.line) && s.dispatcher.line.wellFormed)
    && (s.dispatcher == Ended(true) ==> s.queueClosed && s.queue == [])
  }

  ghost predicate Inv(s: State) {
    PipeOk(s) && ReaderOk(s) && DispatchOk(s)
  }

  lemma WriteKeeps(s: State, st: Step)
    requires Inv(s) && st.Write?
    ensures Inv(Apply(s, st))
  {
    SucceededThen(s.attempts, Attempt(st.line, T.WriteOutcome(s.pipe, st.ctxDone, st.arm)));
  }

  // The reader takes a line.
  lemma LineTaken(s: State)
    requires PipeOk(s) && s.pipe.buf != []
    ensures var pipe := T.Take(s.pipe); var line := s.pipe.buf[0];
            && T.Fifo(pipe) && pipe.accepted == s.pipe.accepted && pipe.closed == s.pipe.closed
            && Notices(pipe.received) == Notices(s.pipe.received) + if IsNotice(line) then [line] else []
  {
    NoticesThen(s.pipe.received, s.pipe.buf[0]);
    assert s.pipe.received + [s.pipe.buf[0]] + s.pipe.buf[1..] == s.pipe.received + s.pipe.buf;
  }

  lemma LineKeeps(s: State)
    requires Inv(s) && s.reader.Reading? && s.pipe.buf != []
    ensures Inv(ReadStep(s, T.FromChannel))
  {
    LineTaken(s);
    var s' := ReadStep(s, T.FromChannel);
    assert s'.pipe == T.Take(s.pipe) && s'.reader == Sorted(s.pipe.buf[0]);
    assert s.consumed + s.queue + [] == s.consumed + s.queue;
    assert PipeOk(s') && DispatchOk(s');
  }

  lemma ReadKeeps(s: State, st: Step)
    requires Inv(s) && st.ReadLine? && Enabled(s, st)
    ensures Inv(Apply(s, st))
  {
    if st.arm.FromChannel? && s.pipe.buf != [] {
      LineKeeps(s);
    }
  }

  lemma ForwardKeeps(s: State, st: Step)
    requires Inv(s) && Enabled(s, st)
    requires st.Forward? || st.ForwardStopped? || st.Correlated? || st.CorrelateStopped? || st.CloseQueue?
    ensures Inv(Apply(s, st))
  {
  }

  // What one more consumed message adds.
  lemma ConsumedThen(s: State, line: Wire)
    requires DispatchOk(s) && s.dispatcher.Selecting?
    ensures var ok := IsNotice(line) && line.wellFormed;
            && Asked(s.consumed + [line]) == Ids(s.replies) + InWork(if ok then Handling(line) else Selecting)
            && Parsed(s.consumed + [line]) == s.handled + if ok then [line] else []
  {
    AskedThen(s.consumed, line);
    ParsedThen(s.consumed, line);
    assert Asked(s.consumed) + [] == Asked(s.consumed) && Ids(s.replies) + [] == Ids(s.replies);
  }

  lemma TakeReader(s: State)
    requires ReaderOk(s) && s.queue != []
    ensures ReaderOk(TakeStep(s))
  {
    assert s.consumed + [s.queue[0]] + s.queue[1..] == s.consumed + s.queue;
  }

  lemma TakeKeeps(s: State)
    requires Inv(s) && s.dispatcher.Selecting? && s.queue != []
    ensures Inv(TakeStep(s))
  {
    ConsumedThen(s, s.queue[0]);
    TakeReader(s);
  }

  lemma AnswerKeeps(s: State, ok: bool, d: Dispatcher)
    requires Inv(s) && s.dispatcher.Handling? && s.dispatcher.line.Request? && (d.Selecting? || d == Ended(false))
    ensures Inv(s.(replies := s.replies + [Reply(s.dispatcher.line.id, ok)], dispatcher := d))
  {
    var asked, id := Asked(s.consumed), s.dispatcher.line.id;
    assert asked == Ids(s.replies) + [id];
    IdsThen(s.replies, Reply(id, ok));
    assert asked == Ids(s.replies + [Reply(id, ok)]) + [];
  }

  lemma HandledKeeps(s: State, ok: bool, sent: bool)
    requires Inv(s) && s.dispatcher.Handling?
    ensures Inv(HandledStep(s, ok, sent))
  {
    if s.dispatcher.line.Request? {
      AnswerKeeps(s, ok, if sent then Selecting else Ended(false));
    }
  }

  lemma EndKeeps(s: State, st: Step)
    requires Inv(s) && Enabled(s, st) && (st.SeeClosed? || st.SeeContext?)
    ensures Inv(Apply(s, st))
  {
  }

  lemma StepKeeps(s: State, st: Step)
    requires Inv(s) && Enabled(s, st)
    ensures Inv(Apply(s, st))
  {
    match st
    case Write(_, _, _) => WriteKeeps(s, st);
    case ReadLine(_) => ReadKeeps(s, st);
    case Forward => ForwardKeeps(s, st);
    case ForwardStopped => ForwardKeeps(s, st);
    case Correlated => ForwardKeeps(s, st);
    case CorrelateStopped => ForwardKeeps(s, st);
    case CloseQueue => ForwardKeeps(s, st);
    case TakeNext => TakeKeeps(s);
    case SeeClosed => EndKeeps(s, st);
    case SeeContext => EndKeeps(s, st);
    case Handled(ok, sent) => HandledKeeps(s, ok, sent);
    case CloseServer =>
    case Stop =>
    case CloseClient =>
  }

  lemma {:induction false} Invariant(schedule: seq<Step>)
    ensures Inv(Exec(schedule))
  {
    if schedule != [] {
      Invariant(schedule[..|schedule| - 1]);
      var s, st := Exec(schedule[..|schedule| - 1]), schedule[|schedule| - 1];
      if Enabled(s, st) {
        StepKeeps(s, st);
      }
    }
  }

  // ---------------------------------------------------------------------------------------------
  // Results
  // ---------------------------------------------------------------------------------------------

  // Every event and request the server wrote with success is, in the order of the writes, either
  // consumed, in dispatchCh, held or dropped by the reader, or still in the transport; and the handler
  // was given those consumed that ParseWireMessage accepts.
  lemma {:induction false} EndToEnd(schedule: seq<Step>)
    ensures var s := Exec(schedule);
            && Notices(Succeeded(s.attempts)) == s.consumed + s.queue + InHand(s) + Notices(s.pipe.buf)
            && s.consumed <= Notices(Succeeded(s.attempts))
            && s.handled == Parsed(s.consumed)
            && |InHand(s)| <= 1 && |s.queue| <= QUEUE_CAPACITY && |s.pipe.buf| <= T.CAPACITY
  {
    Invariant(schedule);
    var s := Exec(schedule);
    NoticesAppend(s.pipe.received, s.pipe.buf);
  }

  // A Dispatch that returns because dispatchCh was closed has lost nothing exactly when the reader
  // dropped nothing and left no event or request behind in the transport; it has lost nothing whenever
  // the reader left because the server had closed.
  lemma {:induction false} LosslessExactly(schedule: seq<Step>)
    requires Exec(schedule).dispatcher == Ended(true)
    ensures var s := Exec(schedule);
            && (s.consumed == Notices(Succeeded(s.attempts)) <==> s.dropped == [] && Notices(s.pipe.buf) == [])
            && (s.atEnd ==> s.consumed == Notices(Succeeded(s.attempts)))
  {
    EndToEnd(schedule);
    Invariant(schedule);
    var s := Exec(schedule);
    assert |Notices(Succeeded(s.attempts))| == |s.consumed| + |InHand(s)| + |Notices(s.pipe.buf)|;
  }

  // Each request that reached the handler is answered once, with its own id and in order; only the one
  // being handled is not answered yet.
  lemma {:induction false} RequestsAnswered(schedule: seq<Step>)
    ensures var s := Exec(schedule);
            && Ids(s.replies) <= Asked(s.consumed)
            && |Asked(s.consumed)| <= |s.replies| + 1
            && (s.dispatcher.Selecting? || s.dispatcher == Ended(true) ==> Ids(s.replies) == Asked(s.consumed))
  {
    Invariant(schedule);
    IdsLength(Exec(schedule).replies);
  }

  lemma {:induction false} IdsLength(replies: seq<Reply>)
    ensures |Ids(replies)| == |replies|
  {
    if replies != [] {
      IdsLength(replies[..|replies| - 1]);
    }
  }

  // dispatchCh is closed once, and nothing is sent on it afterwards.
  lemma {:induction false} NoSendAfterClose(schedule: seq<Step>, st: Step)
    requires Enabled(Exec(schedule), st) && (st.Forward? || st.CloseQueue?)
    ensures !Exec(schedule).queueClosed
  {
    Invariant(schedule);
  }
}
