// Server-to-client requests: sendRequestAndWait (server/request.go), routeResponse and closePending
// (server/server.go).
//
// Any number of agent goroutines wait for responses; the reader routes them. An id is registered in
// pending before its request is written, and whoever takes it out of pending owes the waiter a
// message.
module Requests {
  import opened Ids

  // The n-th response line the reader has read, or the error closePending sends.
  datatype Message = Line(no: nat) | ClosedError

  // A channel with room for one message.
  datatype Chan = Empty | Full(m: Message)

  // Where the one message of a call is. It only records what happened; no step looks at it.
  datatype Token = NotYet | Pending | InHand(no: nat) | Closing | InChan(m: Message) | Lost | Gone

  datatype Phase = Issued | Registered | Waiting | Leaving | Draining | Returned

  datatype Result = Nothing | Got(m: Message) | Failed

  datatype Call = Call(phase: Phase, ch: Chan, result: Result, since: nat, token: Token)

  datatype Hand = Free | Routing(call: nat, no: nat)

  datatype State = State(
    calls: seq<Call>,             // call c was issued id ServerId(c + 1)
    pending: map<string, nat>,
    lines: seq<string>,           // the ids of the response lines read so far
    hand: Hand,                   // the message routeResponse is about to send
    closing: set<nat>,            // the calls closePending still has to notify
    ctxDone: bool,
    readDone: bool,
    closed: bool)

  function Init(): State {
    State([], map[], [], Free, {}, false, false, false)
  }

  function Id(c: nat): string {
    ServerId(c + 1)
  }

  datatype Step =
    | Issue                       // nextRequestID
    | Register(call: nat)
    | Written(call: nat, ok: bool)
    | Receive(call: nat)
    | GiveUp(call: nat)           // the select takes one of the two contexts
    | Unregister(call: nat)
    | Drain(call: nat)
    | Route(id: string)           // the reader reads a response and looks its id up
    | Deliver
    | Drop                        // the routing select takes the cancelled context
    | ReaderExit
    | CancelServe
    | ClosePending
    | Notify(call: nat)

  function With(s: State, c: nat, call: Call): State
    requires c < |s.calls|
  {
    s.(calls := s.calls[c := call])
  }

  predicate InPhase(s: State, c: nat, p: Phase) {
    c < |s.calls| && s.calls[c].phase == p
  }

  predicate Enabled(s: State, st: Step) {
    match st
    case Issue => true
    case Register(c) => InPhase(s, c, Issued)
    case Written(c, _) => InPhase(s, c, Registered)
    case Receive(c) => InPhase(s, c, Waiting) && s.calls[c].ch.Full?
    case GiveUp(c) => InPhase(s, c, Waiting)
    case Unregister(c) => InPhase(s, c, Leaving)
    case Drain(c) => InPhase(s, c, Draining)
    case Route(_) => s.hand.Free? && !s.readDone
    case Deliver => s.hand.Routing? && s.hand.call < |s.calls| && s.calls[s.hand.call].ch.Empty?
    case Drop => s.hand.Routing? && s.hand.call < |s.calls| && s.ctxDone
    case ReaderExit => s.hand.Free? && !s.readDone
    case CancelServe => true
    case ClosePending => s.readDone && s.ctxDone && !s.closed
    case Notify(c) => c in s.closing && c < |s.calls|
  }

  function RouteTo(s: State, id: string): State {
    var found := id in s.pending && s.pending[id] < |s.calls|;
    var c := if found then s.pending[id] else 0;
    s.(lines := s.lines + [id],
       pending := s.pending - {id},
       hand := if found then Routing(c, |s.lines|) else Free,
       calls := if found then s.calls[c := s.calls[c].(token := InHand(|s.lines|))] else s.calls)
  }

  function Closed(call: Call, c: nat, pending: map<string, nat>): Call {
    if Id(c) in pending then call.(token := Closing) else call
  }

  function ClosePendingStep(s: State): State {
    s.(pending := map[], closed := true, closing := set id | id in s.pending :: s.pending[id],
       calls := seq(|s.calls|, c requires 0 <= c < |s.calls| => Closed(s.calls[c], c, s.pending)))
  }

  // The non-blocking send of closePending.
  function NotifyStep(s: State, c: nat): State
    requires c < |s.calls|
  {
    s.(closing := s.closing - {c},
       calls := if s.calls[c].ch.Empty?
           then s.calls[c := s.calls[c].(ch := Full(ClosedError), token := InChan(ClosedError))] else s.calls)
  }

  function Apply(s: State, st: Step): State
    requires Enabled(s, st)
  {
    match st
    case Issue => s.(calls := s.calls + [Call(Issued, Empty, Nothing, 0, NotYet)])
    case Register(c) =>
      s.(pending := s.pending[Id(c) := c],
         calls := s.calls[c := s.calls[c].(phase := Registered, since := |s.lines|, token := Pending)])
    case Written(c, ok) =>
      With(s, c, if ok then s.calls[c].(phase := Waiting) else s.calls[c].(phase := Leaving, result := Failed))
    case Receive(c) =>
      With(s, c, s.calls[c].(phase := Leaving, ch := Empty, result := Got(s.calls[c].ch.m), token := Gone))
    case GiveUp(c) => With(s, c, s.calls[c].(phase := Leaving, result := Failed))
    case Unregister(c) =>
      s.(pending := s.pending - {Id(c)},
         calls := s.calls[c := s.calls[c].(phase := Draining,
                                           token := if s.calls[c].token.Pending? then Gone else s.calls[c].token)])
    case Drain(c) =>
      With(s, c, s.calls[c].(phase := Returned, ch := Empty,
                             token := if s.calls[c].token.InChan? then Gone else s.calls[c].token))
    case Route(id) => RouteTo(s, id)
    case Deliver =>
      s.(hand := Free,
         calls := s.calls[s.hand.call := s.calls[s.hand.call].(ch := Full(Line(s.hand.no)),
             token := InChan(Line(s.hand.no)))])
    case Drop => s.(hand := Free, calls := s.calls[s.hand.call := s.calls[s.hand.call].(token := Lost)])
    case ReaderExit => s.(readDone := true)
    case CancelServe => s.(ctxDone := true)
    case ClosePending => ClosePendingStep(s)
    case Notify(c) => NotifyStep(s, c)
  }

  function Exec(schedule: seq<Step>): State {
    if schedule == [] then Init()
    else
      var s := Exec(schedule[..|schedule| - 1]);
      var st := schedule[|schedule| - 1];
      if Enabled(s, st) then Apply(s, st) else s
  }

  lemma {:induction false} ExecNext(before: seq<Step>, st: Step)
    ensures var s := Exec(before); Exec(before + [st]) == if Enabled(s, st) then Apply(s, st) else s
  {
    assert (before + [st])[..|before|] == before;
  }

  // ---------------------------------------------------------------------------------------------
  // The invariant
  // ---------------------------------------------------------------------------------------------

  // Line n is the first one since line number since that carries id.
  ghost predicate FirstSince(lines: seq<string>, since: nat, id: string, n: nat) {
    since <= n < |lines| && lines[n] == id && forall m: nat | since <= m < n :: lines[m] != id
  }

  ghost predicate NoneSince(lines: seq<string>, since: nat, id: string) {
    forall m: nat | since <= m < |lines| :: lines[m] != id
  }

  // The right message for call c: the first response to it read since it was registered, or the
  // closing error if there is none.
  ghost predicate MessageOk(lines: seq<string>, closed: bool, c: nat, since: nat, m: Message) {
    match m
    case Line(n) => FirstSince(lines, since, Id(c), n)
    case ClosedError => closed && NoneSince(lines, since, Id(c))
  }

  // The token says where the call's message is.
  ghost predicate CallOk(s: State, c: nat, k: Call) {
    && (Id(c) in s.pending <==> k.token.Pending?)
    && (Id(c) in s.pending ==> s.pending[Id(c)] == c)
    && (forall n: nat :: s.hand == Routing(c, n) <==> k.token == InHand(n))
    && (c in s.closing <==> k.token.Closing?)
    && (forall m: Message :: k.ch == Full(m) <==> k.token == InChan(m))
  }

  ghost predicate LocalOk(lines: seq<string>, ctxDone: bool, closed: bool, c: nat, k: Call) {
    && k.since <= |lines|
    && (k.phase.Issued? <==> k.token.NotYet?)
    && (k.token.Gone? ==> k.phase.Leaving? || k.phase.Draining? || k.phase.Returned?)
    && (k.result.Got? ==> k.token.Gone?)
    && (k.result.Nothing? <==> k.phase.Issued? || k.phase.Registered? || k.phase.Waiting?)
    && (k.token.Lost? ==> ctxDone)
    && (k.phase.Draining? || k.phase.Returned? ==> !k.token.Pending?)
    && (k.token.Pending? || (k.token.Closing?) ==> NoneSince(lines, k.since, Id(c)))
    && (k.token.InHand? ==> FirstSince(lines, k.since, Id(c), k.token.no))
    && (k.token.InChan? ==> MessageOk(lines, closed, c, k.since, k.token.m))
    && (k.result.Got? ==> MessageOk(lines, closed, c, k.since, k.result.m))
  }

  ghost predicate Inv(s: State) {
    && (forall c: nat | c < |s.calls| :: CallOk(s, c, s.calls[c]))
    && (forall c: nat | c < |s.calls| :: LocalOk(s.lines, s.ctxDone, s.closed, c, s.calls[c]))
    && (forall id | id in s.pending :: s.pending[id] < |s.calls| && id == Id(s.pending[id]))
    && (s.hand.Routing? ==> s.hand.call < |s.calls| && !s.readDone)
    && (forall c | c in s.closing :: c < |s.calls|)
    && (s.closing != {} ==> s.closed) && (s.closed ==> s.readDone && s.ctxDone)
  }

  lemma IssueKeeps(s: State, st: Step)
    requires Inv(s) && Enabled(s, st) && st.Issue?
    ensures Inv(Apply(s, st))
  {
    AllIdsDistinct();
  }

  lemma RegisterKeeps(s: State, st: Step)
    requires Inv(s) && Enabled(s, st) && st.Register?
    ensures Inv(Apply(s, st))
  {
    AllIdsDistinct();
    var c, s' := st.call, Apply(s, st);
    forall d: nat | d < |s'.calls|
      ensures CallOk(s', d, s'.calls[d]) && LocalOk(s'.lines, s'.ctxDone, s'.closed, d, s'.calls[d])
    {
      assert CallOk(s, d, s.calls[d]) && LocalOk(s.lines, s.ctxDone, s.closed, d, s.calls[d]);
      assert d != c ==> Id(d) != Id(c);
    }
  }

  // A call moves on without its message moving.
  lemma MoveKeeps(s: State, c: nat, k: Call)
    requires Inv(s) && c < |s.calls|
    requires k.token == s.calls[c].token && k.ch == s.calls[c].ch && LocalOk(s.lines, s.ctxDone, s.closed, c, k)
    ensures Inv(With(s, c, k))
  {
    var s' := With(s, c, k);
    forall d: nat | d < |s'.calls|
      ensures CallOk(s', d, s'.calls[d]) && LocalOk(s'.lines, s'.ctxDone, s'.closed, d, s'.calls[d])
    {
      assert CallOk(s, d, s.calls[d]) && LocalOk(s.lines, s.ctxDone, s.closed, d, s.calls[d]);
    }
  }

  lemma WrittenKeeps(s: State, st: Step)
    requires Inv(s) && Enabled(s, st) && st.Written?
    ensures Inv(Apply(s, st))
  {
    var c := st.call;
    assert LocalOk(s.lines, s.ctxDone, s.closed, c, s.calls[c]);
    MoveKeeps(s, c, Apply(s, st).calls[c]);
  }

  lemma ReceiveKeeps(s: State, st: Step)
    requires Inv(s) && Enabled(s, st) && st.Receive?
    ensures Inv(Apply(s, st))
  {
    AllIdsDistinct();
  }

  lemma GiveUpKeeps(s: State, st: Step)
    requires Inv(s) && Enabled(s, st) && st.GiveUp?
    ensures Inv(Apply(s, st))
  {
    var c := st.call;
    assert LocalOk(s.lines, s.ctxDone, s.closed, c, s.calls[c]);
    MoveKeeps(s, c, Apply(s, st).calls[c]);
  }

  lemma UnregisterKeeps(s: State, st: Step)
    requires Inv(s) && Enabled(s, st) && st.Unregister?
    ensures Inv(Apply(s, st))
  {
    AllIdsDistinct();
    var c, s' := st.call, Apply(s, st);
    forall d: nat | d < |s'.calls|
      ensures CallOk(s', d, s'.calls[d]) && LocalOk(s'.lines, s'.ctxDone, s'.closed, d, s'.calls[d])
    {
      assert CallOk(s, d, s.calls[d]) && LocalOk(s.lines, s.ctxDone, s.closed, d, s.calls[d]);
      assert d != c ==> Id(d) != Id(c);
    }
  }

  lemma DrainKeeps(s: State, st: Step)
    requires Inv(s) && Enabled(s, st) && st.Drain?
    ensures Inv(Apply(s, st))
  {
    AllIdsDistinct();
  }

  lemma LineAdded(lines: seq<string>, since: nat, x: string, id: string)
    requires since <= |lines|
    ensures NoneSince(lines, since, x) && id != x ==> NoneSince(lines + [id], since, x)
    ensures NoneSince(lines, since, x) && id == x ==> FirstSince(lines + [id], since, x, |lines|)
    ensures forall n: nat | FirstSince(lines, since, x, n) :: FirstSince(lines + [id], since, x, n)
  {
    var more := lines + [id];
    assert forall n: nat | n < |lines| :: more[n] == lines[n];
  }

  // A call that is not the one routed to.
  lemma RoutePast(s: State, id: string, c: nat)
    requires Inv(s) && c < |s.calls| && id != Id(c) && !s.readDone
    ensures LocalOk(s.lines + [id], s.ctxDone, s.closed, c, s.calls[c])
  {
    LineAdded(s.lines, s.calls[c].since, Id(c), id);
  }

  lemma RouteHit(s: State, c: nat)
    requires Inv(s) && c < |s.calls| && !s.readDone
    ensures LocalOk(s.lines + [Id(c)], s.ctxDone, s.closed, c,
                    if Id(c) in s.pending then s.calls[c].(token := InHand(|s.lines|)) else s.calls[c])
  {
    assert CallOk(s, c, s.calls[c]);
    LineAdded(s.lines, s.calls[c].since, Id(c), Id(c));
  }

  lemma RouteKeeps(s: State, st: Step)
    requires Inv(s) && Enabled(s, st) && st.Route?
    ensures Inv(Apply(s, st))
  {
    AllIdsDistinct();
    var id := st.id;
    var s' := RouteTo(s, id);
    forall c: nat | c < |s'.calls| ensures LocalOk(s'.lines, s'.ctxDone, s'.closed, c, s'.calls[c]) {
      if id == Id(c) { RouteHit(s, c); } else { RoutePast(s, id, c); }
    }
    forall c: nat | c < |s'.calls| ensures CallOk(s', c, s'.calls[c]) {
      assert CallOk(s, c, s.calls[c]);
    }
  }

  lemma DeliverKeeps(s: State, st: Step)
    requires Inv(s) && Enabled(s, st) && st.Deliver?
    ensures Inv(Apply(s, st))
  {
    AllIdsDistinct();
  }

  lemma DropKeeps(s: State, st: Step)
    requires Inv(s) && Enabled(s, st) && st.Drop?
    ensures Inv(Apply(s, st))
  {
    AllIdsDistinct();
  }

  lemma ReaderExitKeeps(s: State, st: Step)
    requires Inv(s) && Enabled(s, st) && st.ReaderExit?
    ensures Inv(Apply(s, st))
  {
    AllIdsDistinct();
  }

  lemma CancelServeKeeps(s: State, st: Step)
    requires Inv(s) && Enabled(s, st) && st.CancelServe?
    ensures Inv(Apply(s, st))
  {
    AllIdsDistinct();
  }

  lemma ClosePendingKeeps(s: State, st: Step)
    requires Inv(s) && Enabled(s, st) && st.ClosePending?
    ensures Inv(Apply(s, st))
  {
    AllIdsDistinct();
  }

  lemma NotifyKeeps(s: State, st: Step)
    requires Inv(s) && Enabled(s, st) && st.Notify?
    ensures Inv(Apply(s, st))
  {
    AllIdsDistinct();
  }

  lemma {:induction false} StepKeeps(s: State, st: Step)
    requires Inv(s) && Enabled(s, st)
    ensures Inv(Apply(s, st))
  {
    match st
    case Issue => IssueKeeps(s, st);
    case Register(_) => RegisterKeeps(s, st);
    case Written(_, _) => WrittenKeeps(s, st);
    case Receive(_) => ReceiveKeeps(s, st);
    case GiveUp(_) => GiveUpKeeps(s, st);
    case Unregister(_) => UnregisterKeeps(s, st);
    case Drain(_) => DrainKeeps(s, st);
    case Route(_) => RouteKeeps(s, st);
    case Deliver => DeliverKeeps(s, st);
    case Drop => DropKeeps(s, st);
    case ReaderExit => ReaderExitKeeps(s, st);
    case CancelServe => CancelServeKeeps(s, st);
    case ClosePending => ClosePendingKeeps(s, st);
    case Notify(_) => NotifyKeeps(s, st);
  }

  lemma {:induction false} Invariant(schedule: seq<Step>)
    ensures Inv(Exec(schedule))
  {
    if schedule != [] {
      Invariant(schedule[..|schedule| - 1]);
      var s := Exec(schedule[..|schedule| - 1]);
      if Enabled(s, schedule[|schedule| - 1]) {
        StepKeeps(s, schedule[|schedule| - 1]);
      }
    }
  }

  // ---------------------------------------------------------------------------------------------
  // Results
  // ---------------------------------------------------------------------------------------------

  function One(b: bool): nat {
    if b then 1 else 0
  }

  // The places from which a message can still reach call c.
  function Tokens(s: State, c: nat): nat
    requires c < |s.calls|
  {
    One(Id(c) in s.pending) + One(s.hand.Routing? && s.hand.call == c) + One(c in s.closing) + One(s.calls[c].ch.Full?)
  }

  predicate StillWaiting(k: Call) {
    k.phase.Registered? || k.phase.Waiting?
  }

  // A call never has two tokens, and until shutdown a waiting one always has one.
  lemma {:induction false} OneToken(schedule: seq<Step>, c: nat)
    requires c < |Exec(schedule).calls|
    ensures var s := Exec(schedule);
            Tokens(s, c) <= 1 && (StillWaiting(s.calls[c]) && !s.ctxDone ==> Tokens(s, c) == 1)
  {
    Invariant(schedule);
    var s := Exec(schedule);
    assert CallOk(s, c, s.calls[c]) && LocalOk(s.lines, s.ctxDone, s.closed, c, s.calls[c]);
    assert s.hand.Routing? && s.hand.call == c ==> s.calls[c].token == InHand(s.hand.no);
    assert s.calls[c].ch.Full? ==> s.calls[c].token == InChan(s.calls[c].ch.m);
    assert s.calls[c].token.InHand? ==> s.hand == Routing(c, s.calls[c].token.no);
    assert s.calls[c].token.InChan? ==> s.calls[c].ch == Full(s.calls[c].token.m);
  }

  // routeResponse never blocks on a full channel, and closePending never finds one.
  lemma {:induction false} SendsNeverBlock(schedule: seq<Step>)
    ensures var s := Exec(schedule);
            && (s.hand.Routing? ==> s.hand.call < |s.calls| && s.calls[s.hand.call].ch.Empty?)
            && (forall c | c in s.closing :: c < |s.calls| && s.calls[c].ch.Empty?)
  {
    Invariant(schedule);
    var s := Exec(schedule);
    if s.hand.Routing? {
      OneToken(schedule, s.hand.call);
    }
    forall c | c in s.closing ensures c < |s.calls| && s.calls[c].ch.Empty? {
      OneToken(schedule, c);
    }
  }

  // Before shutdown a response that was read for a waiting call is on its way to it.
  lemma {:induction false} NoAnswerLost(schedule: seq<Step>, c: nat, n: nat)
    requires var s := Exec(schedule);
             c < |s.calls| && StillWaiting(s.calls[c]) && !s.ctxDone && FirstSince(s.lines, s.calls[c].since, Id(c), n)
    ensures var s := Exec(schedule);
            s.hand == Routing(c, n) || s.calls[c].ch == Full(Line(n))
  {
    Invariant(schedule);
    var s := Exec(schedule);
    assert CallOk(s, c, s.calls[c]) && LocalOk(s.lines, s.ctxDone, s.closed, c, s.calls[c]);
    assert s.lines[n] == Id(c);
  }

  // A call returns the first response with its id that was read after it was registered, or the
  // closing error if no such response was read; and no response is returned to two calls.
  lemma {:induction false} FirstResponseWins(schedule: seq<Step>, c: nat)
    requires var s := Exec(schedule); c < |s.calls| && s.calls[c].result.Got?
    ensures var s := Exec(schedule);
            && MessageOk(s.lines, s.closed, c, s.calls[c].since, s.calls[c].result.m)
            && forall d: nat | d < |s.calls| && s.calls[d].result == s.calls[c].result
                && s.calls[c].result.m.Line? :: d == c
  {
    Invariant(schedule);
    AllIdsDistinct();
    var s := Exec(schedule);
    assert LocalOk(s.lines, s.ctxDone, s.closed, c, s.calls[c]);
    forall d: nat | d < |s.calls| && s.calls[d].result == s.calls[c].result && s.calls[c].result.m.Line?
        ensures d == c {
      assert LocalOk(s.lines, s.ctxDone, s.closed, d, s.calls[d]);
    }
  }
}
