// The client's response correlator: readerLoop, closePending and readResponse of client.go.
//
// A call writes its request first and registers afterwards, so responses may come early; they wait in
// oooBuffer. The reader does not delete what it finds in pending, so it may hold a second message for
// a call whose one-slot channel is still full, and then it really blocks.
module Correlator {
  import opened Ids

  // The n-th response line the reader has read, or the error closePending sends.
  datatype Message = Line(no: nat) | ClosedError

  datatype Chan = Empty | Full(m: Message)

  datatype Phase = Issued | Waiting | Leaving | Returned

  datatype Result = Nothing | Got(m: Message) | Failed

  datatype Call = Call(phase: Phase, ch: Chan, result: Result)

  datatype Reader = Reading | Holding(call: nat, no: nat) | Closing(todo: set<nat>) | Exited

  // Where a response line is. It only records what happened; no step looks at it.
  datatype Place =
    | InBuffer | InHand(call: nat) | InChan(call: nat) | ReturnedBy(call: nat) | Drained(call: nat) | Dropped(call: nat)

  datatype State = State(
    calls: seq<Call>,             // call c was issued id ClientId(c + 1)
    pending: map<string, nat>,
    oooBuffer: seq<nat>,          // line numbers
    lines: seq<string>,           // the ids of the response lines read so far
    places: seq<Place>,           // one per line
    reader: Reader,
    stopped: bool,                // stopCh is closed
    captured: set<nat>)           // history: the calls closePending took out of pending

  function Init(): State {
    State([], map[], [], [], [], Reading, false, {})
  }

  function Id(c: nat): string {
    ClientId(c + 1)
  }

  datatype Step =
    | NextId
    | WriteFailed(call: nat)
    | ReadResponse(call: nat)     // the first locked section of readResponse
    | Receive(call: nat)
    | GiveUp(call: nat)           // the select takes the context
    | Leave(call: nat)            // the deferred section
    | ReadLine(id: string)        // the reader reads a response and looks its id up
    | Send
    | SendStopped                 // the reader's select takes stopCh
    | ReadFails                   // a read or parse error: the locked section of closePending
    | Notify(call: nat)
    | NotifiedAll
    | Stop
    | StoppedElsewhere            // the reader leaves while forwarding an event

  predicate InPhase(s: State, c: nat, p: Phase) {
    c < |s.calls| && s.calls[c].phase == p
  }

  predicate Enabled(s: State, st: Step) {
    match st
    case NextId => true
    case WriteFailed(c) => InPhase(s, c, Issued)
    case ReadResponse(c) => InPhase(s, c, Issued)
    case Receive(c) => InPhase(s, c, Waiting) && s.calls[c].ch.Full?
    case GiveUp(c) => InPhase(s, c, Waiting)
    case Leave(c) => InPhase(s, c, Leaving)
    case ReadLine(_) => s.reader.Reading?
    case Send =>
      && s.reader.Holding? && s.reader.call < |s.calls| && s.calls[s.reader.call].ch.Empty?
      && s.reader.no < |s.places|
    case SendStopped => s.reader.Holding? && s.stopped && s.reader.no < |s.places|
    case ReadFails => s.reader.Reading?
    case Notify(c) => s.reader.Closing? && c in s.reader.todo && c < |s.calls|
    case NotifiedAll => s.reader.Closing? && s.reader.todo == {}
    case Stop => true
    case StoppedElsewhere => s.reader.Reading? && s.stopped
  }

  // The first position in buffer of a line with this id, or its length.
  function Find(lines: seq<string>, buffer: seq<nat>, id: string): (i: nat)
    ensures i <= |buffer|
    ensures i < |buffer| ==> buffer[i] < |lines| && lines[buffer[i]] == id
    ensures forall j: nat | j < i && buffer[j] < |lines| :: lines[buffer[j]] != id
  {
    if buffer == [] then 0
    else if buffer[0] < |lines| && lines[buffer[0]] == id then 0
    else 1 + Find(lines, buffer[1..], id)
  }

  function Register(s: State, c: nat): State
    requires c < |s.calls|
  {
    s.(pending := s.pending[Id(c) := c], calls := s.calls[c := s.calls[c].(phase := Waiting)])
  }

  // A response that came early is taken out of the buffer and returned.
  function TakeEarly(s: State, c: nat, i: nat): State
    requires c < |s.calls| && i < |s.oooBuffer| && s.oooBuffer[i] < |s.places|
  {
    s.(oooBuffer := s.oooBuffer[..i] + s.oooBuffer[i + 1..],
       calls := s.calls[c := s.calls[c].(phase := Returned, result := Got(Line(s.oooBuffer[i])))],
       places := s.places[s.oooBuffer[i] := ReturnedBy(c)])
  }

  function ReadResponseStep(s: State, c: nat): State
    requires c < |s.calls|
  {
    var i := Find(s.lines, s.oooBuffer, Id(c));
    if i < |s.oooBuffer| && s.oooBuffer[i] < |s.places| then TakeEarly(s, c, i) else Register(s, c)
  }

  function ReceiveStep(s: State, c: nat): State
    requires c < |s.calls| && s.calls[c].ch.Full?
  {
    var m := s.calls[c].ch.m;
    s.(calls := s.calls[c := Call(Leaving, Empty, Got(m))],
       places := if m.Line? && m.no < |s.places| then s.places[m.no := ReturnedBy(c)] else s.places)
  }

  function LeaveStep(s: State, c: nat): State
    requires c < |s.calls|
  {
    var ch := s.calls[c].ch;
    s.(pending := s.pending - {Id(c)},
       calls := s.calls[c := s.calls[c].(phase := Returned, ch := Empty)],
       places := if ch.Full? && ch.m.Line? && ch.m.no < |s.places| then s.places[ch.m.no := Drained(c)] else s.places)
  }

  function ReadLineStep(s: State, id: string): State {
    var found := id in s.pending;
    s.(lines := s.lines + [id],
       places := s.places + [if found then InHand(s.pending[id]) else InBuffer],
       oooBuffer := if found then s.oooBuffer else s.oooBuffer + [|s.lines|],
       reader := if found then Holding(s.pending[id], |s.lines|) else Reading)
  }

  function SendStep(s: State): State
    requires s.reader.Holding? && s.reader.call < |s.calls| && s.reader.no < |s.places|
  {
    var c := s.reader.call;
    s.(calls := s.calls[c := s.calls[c].(ch := Full(Line(s.reader.no)))],
       places := s.places[s.reader.no := InChan(c)],
       reader := Reading)
  }

  function ReadFailsStep(s: State): State {
    var ids := set id | id in s.pending :: s.pending[id];
    s.(pending := map[], reader := Closing(ids), captured := ids)
  }

  // The non-blocking send of closePending.
  function NotifyStep(s: State, c: nat): State
    requires s.reader.Closing? && c < |s.calls|
  {
    s.(reader := Closing(s.reader.todo - {c}),
       calls := if s.calls[c].ch.Empty? then s.calls[c := s.calls[c].(ch := Full(ClosedError))] else s.calls)
  }

  function Apply(s: State, st: Step): State
    requires Enabled(s, st)
  {
    match st
    case NextId => s.(calls := s.calls + [Call(Issued, Empty, Nothing)])
    case WriteFailed(c) => s.(calls := s.calls[c := s.calls[c].(phase := Returned, result := Failed)])
    case ReadResponse(c) => ReadResponseStep(s, c)
    case Receive(c) => ReceiveStep(s, c)
    case GiveUp(c) => s.(calls := s.calls[c := s.calls[c].(phase := Leaving, result := Failed)])
    case Leave(c) => LeaveStep(s, c)
    case ReadLine(id) => ReadLineStep(s, id)
    case Send => SendStep(s)
    case SendStopped => s.(reader := Exited, places := s.places[s.reader.no := Dropped(s.reader.call)])
    case ReadFails => ReadFailsStep(s)
    case Notify(c) => NotifyStep(s, c)
    case NotifiedAll => s.(reader := Exited)
    case Stop => s.(stopped := true)
    case StoppedElsewhere => s.(reader := Exited)
  }

  function Exec(schedule: seq<Step>): State {
    if schedule == [] then Init()
    else
      var s := Exec(schedule[..|schedule| - 1]);
      var st := schedule[|schedule| - 1];
      if Enabled(s, st) then Apply(s, st) else s
  }
}
