// The in-memory transport pair: transport/transport_channel.go.
//
// Each direction is a bounded channel. A side closes only the channel it sends on, under the mutex
// that guards its sends.
module Transport {
  const CAPACITY: nat := 64

  // ---------------------------------------------------------------------------------------------
  // One direction
  // ---------------------------------------------------------------------------------------------

  // accepted and received are history: every line a send put in and every line a receive took out.
  datatype Direction<T> = Direction(buf: seq<T>, closed: bool, accepted: seq<T>, received: seq<T>)

  datatype Written = Accepted | TransportClosed | ContextDone | BufferFull

  datatype Outcome<T> = Line(line: T) | EndOfStream | Interrupted

  // The ready arm a select takes.
  datatype Arm = FromChannel | FromContext | FromClose

  function Open<T>(): Direction<T> {
    Direction([], false, [], [])
  }

  function Put<T>(d: Direction<T>, line: T): Direction<T> {
    d.(buf := d.buf + [line], accepted := d.accepted + [line])
  }

  function Take<T>(d: Direction<T>): Direction<T>
    requires d.buf != []
  {
    d.(buf := d.buf[1..], received := d.received + [d.buf[0]])
  }

  ghost predicate Fifo<T>(d: Direction<T>) {
    d.accepted == d.received + d.buf && |d.buf| <= CAPACITY
  }

  // WriteLine; if the context is done and there is room, the select may take either arm.
  function WriteOutcome<T>(d: Direction<T>, ctxDone: bool, arm: Arm): Written {
    if d.closed then TransportClosed
    else if ctxDone && (arm.FromContext? || |d.buf| >= CAPACITY) then ContextDone
    else if |d.buf| < CAPACITY then Accepted
    else BufferFull
  }

  function WriteTo<T>(d: Direction<T>, line: T, ctxDone: bool, arm: Arm): Direction<T> {
    if WriteOutcome(d, ctxDone, arm).Accepted? then Put(d, line) else d
  }

  // The arms of the select in ReadLine that are ready; closed says that the reading side was closed.
  predicate Ready<T>(d: Direction<T>, closed: bool, ctxDone: bool, arm: Arm) {
    match arm
    case FromChannel => d.buf != [] || d.closed
    case FromContext => ctxDone
    case FromClose => closed
  }

  function ReadOutcome<T>(d: Direction<T>, arm: Arm): Outcome<T> {
    match arm
    case FromChannel => if d.buf != [] then Line(d.buf[0]) else EndOfStream
    case FromContext => Interrupted
    case FromClose => EndOfStream
  }

  function ReadFrom<T>(d: Direction<T>, arm: Arm): Direction<T> {
    if arm.FromChannel? && d.buf != [] then Take(d) else d
  }

  // ---------------------------------------------------------------------------------------------
  // Runs of a pair
  // ---------------------------------------------------------------------------------------------

  // Direction d is the one side d sends on.
  datatype Pair<T> = Pair(fromA: Direction<T>, fromB: Direction<T>, closedA: bool, closedB: bool)

  datatype Side = A | B

  datatype Step<T> =
    | Write(side: Side, line: T, ctxDone: bool, arm: Arm)
    | Read(side: Side, ctxDone: bool, arm: Arm)
    | Close(side: Side)

  function Sends<T>(p: Pair<T>, side: Side): Direction<T> {
    if side.A? then p.fromA else p.fromB
  }

  function Receives<T>(p: Pair<T>, side: Side): Direction<T> {
    if side.A? then p.fromB else p.fromA
  }

  predicate IsClosed<T>(p: Pair<T>, side: Side) {
    if side.A? then p.closedA else p.closedB
  }

  predicate Enabled<T>(p: Pair<T>, st: Step<T>) {
    st.Read? ==> Ready(Receives(p, st.side), IsClosed(p, st.side), st.ctxDone, st.arm)
  }

  function CloseOne<T>(d: Direction<T>): Direction<T> {
    d.(closed := true)
  }

  function Apply<T>(p: Pair<T>, st: Step<T>): Pair<T> {
    match st
    case Write(A, line, ctxDone, arm) => p.(fromA := WriteTo(p.fromA, line, ctxDone, arm))
    case Write(B, line, ctxDone, arm) => p.(fromB := WriteTo(p.fromB, line, ctxDone, arm))
    case Read(A, _, arm) => p.(fromB := ReadFrom(p.fromB, arm))
    case Read(B, _, arm) => p.(fromA := ReadFrom(p.fromA, arm))
    case Close(A) => p.(fromA := CloseOne(p.fromA), closedA := true)
    case Close(B) => p.(fromB := CloseOne(p.fromB), closedB := true)
  }

  function Exec<T>(schedule: seq<Step<T>>): Pair<T> {
    if schedule == [] then Pair(Open(), Open(), false, false)
    else
      var p := Exec(schedule[..|schedule| - 1]);
      var st := schedule[|schedule| - 1];
      if Enabled(p, st) then Apply(p, st) else p
  }

  // Both directions are queues within their capacity, and each is closed exactly when its sender is.
  ghost predicate Sound<T>(p: Pair<T>) {
    Fifo(p.fromA) && Fifo(p.fromB) && p.fromA.closed == p.closedA && p.fromB.closed == p.closedB
  }

  lemma {:induction false} Conservation<T>(schedule: seq<Step<T>>)
    ensures Sound(Exec(schedule))
  {
    if schedule != [] {
      Conservation(schedule[..|schedule| - 1]);
    }
  }

  // With its own side open and a live context, a reader blocks exactly while nothing is there and the
  // sender is open, and it sees the end exactly when the sender has closed and everything was read.
  lemma EndExactly<T>(schedule: seq<Step<T>>, side: Side, arm: Arm)
    requires !IsClosed(Exec(schedule), side)
    ensures var p := Exec(schedule); var d := Receives(p, side);
            && (Ready(d, false, false, arm) <==>
                arm.FromChannel? && (d.accepted != d.received || IsClosed(p, if side.A? then B else A)))
            && (Ready(d, false, false, arm) && ReadOutcome(d, arm).EndOfStream? <==>
                  arm.FromChannel? && IsClosed(p, if side.A? then B else A) && d.received == d.accepted)
  {
    Conservation(schedule);
    var d := Receives(Exec(schedule), side);
    if d.buf != [] {
      assert |d.accepted| == |d.received| + |d.buf|;
    } else {
      assert d.accepted == d.received;
    }
  }

  // What a read returns and takes: the oldest unread line or, with nothing unread, the end; after a cancelled
  // context an error, and after its own side was closed the end, both without taking anything. Each of these is
  // ready exactly when its cause is there.
  lemma {:induction false} ReadExactly<T>(schedule: seq<Step<T>>, side: Side, ctxDone: bool, arm: Arm)
    ensures var p := Exec(schedule); var d := Receives(p, side); var n := |d.received|;
            var peer := if side.A? then B else A;
            && (Ready(d, IsClosed(p, side), ctxDone, arm) <==>
                  match arm
                  case FromChannel => n < |d.accepted| || IsClosed(p, peer)
                  case FromContext => ctxDone
                  case FromClose => IsClosed(p, side))
            && (arm.FromChannel? && n < |d.accepted| ==>
                  && ReadOutcome(d, arm) == Line(d.accepted[n])
                  && ReadFrom(d, arm).received == d.accepted[..n + 1])
            && (arm.FromChannel? && n == |d.accepted| ==> ReadOutcome(d, arm) == EndOfStream)
            && (arm.FromContext? ==> ReadOutcome(d, arm) == Interrupted)
            && (arm.FromClose? ==> ReadOutcome(d, arm) == EndOfStream)
            && (!arm.FromChannel? || n == |d.accepted| ==> ReadFrom(d, arm) == d)
            && n <= |d.accepted| && ReadFrom(d, arm).accepted == d.accepted && ReadFrom(d, arm).closed == d.closed
  {
    Conservation(schedule);
    var d := Receives(Exec(schedule), side);
    assert |d.accepted| == |d.received| + |d.buf|;
    if d.buf != [] {
      assert d.accepted[..|d.received| + 1] == d.received + [d.buf[0]];
    }
  }

  // A write with a live context is accepted exactly when its own side is open and fewer than 64 accepted
  // lines are unread; the error tells which of the two failed. What is not accepted leaves no trace.
  lemma {:induction false} WriteExactly<T>(schedule: seq<Step<T>>, side: Side, line: T, ctxDone: bool, arm: Arm)
    ensures var p := Exec(schedule); var d := Sends(p, side); var w := WriteOutcome(d, ctxDone, arm);
            var unread := |d.accepted| - |d.received|;
            && (w.TransportClosed? <==> IsClosed(p, side))
            && (w.BufferFull? <==> !IsClosed(p, side) && !ctxDone && unread == CAPACITY)
            && (!ctxDone ==> (w.Accepted? <==> !IsClosed(p, side) && unread < CAPACITY))
            && WriteTo(d, line, ctxDone, arm).accepted == d.accepted + (if w.Accepted? then [line] else [])
            && (!w.Accepted? ==> WriteTo(d, line, ctxDone, arm) == d)
  {
    Conservation(schedule);
    var d := Sends(Exec(schedule), side);
    assert |d.accepted| == |d.received| + |d.buf|;
  }

  function Reads<T>(side: Side, n: nat): (st: seq<Step<T>>)
    ensures |st| == n
  {
    if n == 0 then [] else Reads(side, n - 1) + [Read(side, false, FromChannel)]
  }

  lemma OneRead<T>(schedule: seq<Step<T>>, all: seq<Step<T>>, side: Side)
    requires all == schedule + [Read(side, false, FromChannel)] && Receives(Exec(schedule), side).buf != []
    ensures Receives(Exec(all), side) == Take(Receives(Exec(schedule), side))
    ensures IsClosed(Exec(all), side) == IsClosed(Exec(schedule), side)
  {
    assert all[..|all| - 1] == schedule;
  }

  // n lines were read from d.
  ghost predicate Took<T>(d: Direction<T>, n: nat, d': Direction<T>)
    requires n <= |d.buf|
  {
    && d'.received == d.received + d.buf[..n]
    && d'.buf == d.buf[n..]
    && d'.accepted == d.accepted
    && d'.closed == d.closed
  }

  lemma TookOneMore<T>(d: Direction<T>, n: nat, d': Direction<T>)
    requires n < |d.buf| && Took(d, n, d')
    ensures Took(d, n + 1, Take(d'))
  {
    assert d.buf[..n + 1] == d.buf[..n] + [d.buf[n]];
  }

  lemma {:induction false} ReadsTake<T>(schedule: seq<Step<T>>, side: Side, n: nat)
    requires n <= |Receives(Exec(schedule), side).buf|
    ensures Took(Receives(Exec(schedule), side), n, Receives(Exec(schedule + Reads(side, n)), side))
    ensures IsClosed(Exec(schedule + Reads(side, n)), side) == IsClosed(Exec(schedule), side)
  {
    if n == 0 {
      assert schedule + Reads(side, 0) == schedule;
    } else {
      ReadsTake(schedule, side, n - 1);
      assert schedule + Reads(side, n) == schedule + Reads(side, n - 1) + [Read(side, false, FromChannel)];
      TookOneMore(Receives(Exec(schedule), side), n - 1, Receives(Exec(schedule + Reads(side, n - 1)), side));
      OneRead(schedule + Reads(side, n - 1), schedule + Reads(side, n), side);
    }
  }

  // After its peer closed, a side can still read every accepted line in order; only then comes the end.
  lemma DrainBeforeEnd<T>(schedule: seq<Step<T>>, side: Side)
    requires IsClosed(Exec(schedule), if side.A? then B else A) && !IsClosed(Exec(schedule), side)
    ensures var d := Receives(Exec(schedule), side);
            var d' := Receives(Exec(schedule + Reads(side, |d.buf|)), side);
            && d'.received == d.accepted && ReadOutcome(d', FromChannel).EndOfStream?
            && forall n: nat | n < |d.buf| ::
                 ReadOutcome(Receives(Exec(schedule + Reads(side, n)), side), FromChannel) == Line(d.buf[n])
  {
    Conservation(schedule);
    var d := Receives(Exec(schedule), side);
    ReadsTake(schedule, side, |d.buf|);
    assert d.buf[..|d.buf|] == d.buf;
    forall n: nat | n < |d.buf|
      ensures ReadOutcome(Receives(Exec(schedule + Reads(side, n)), side), FromChannel) == Line(d.buf[n])
    {
      ReadsTake(schedule, side, n);
    }
  }

  // d' is d some steps later: what was accepted or received stays, and nothing is accepted once closed.
  ghost predicate Later<T>(d: Direction<T>, d': Direction<T>) {
    && d.accepted <= d'.accepted && d.received <= d'.received
    && (d.closed ==> d'.closed && d'.accepted == d.accepted)
  }

  lemma {:induction false} ClosedForGood<T>(schedule: seq<Step<T>>, more: seq<Step<T>>, side: Side)
    ensures Later(Sends(Exec(schedule), side), Sends(Exec(schedule + more), side))
  {
    if more == [] {
      assert schedule + more == schedule;
    } else {
      ClosedForGood(schedule, more[..|more| - 1], side);
      var all := schedule + more;
      assert all[..|all| - 1] == schedule + more[..|more| - 1];
    }
  }

  // ---------------------------------------------------------------------------------------------
  // The objects
  // ---------------------------------------------------------------------------------------------

  // A Go channel. Sending on or closing a closed channel panics, so Send and Close exclude it.
  class Channel<T> {
    var buf: seq<T>
    var closed: bool
    ghost var accepted: seq<T>
    ghost var received: seq<T>

    ghost function View(): Direction<T>
      reads this
    {
      Direction(buf, closed, accepted, received)
    }

    constructor ()
      ensures View() == Open()
    {
      buf, closed, accepted, received := [], false, [], [];
    }

    method Send(line: T)
      requires !closed && |buf| < CAPACITY
      modifies this
      ensures View() == Put(old(View()), line)
    {
      buf, accepted := buf + [line], accepted + [line];
    }

    method Receive() returns (line: T)
      requires buf != []
      modifies this
      ensures line == old(buf)[0] && View() == Take(old(View()))
    {
      line := buf[0];
      received := received + [line];
      buf := buf[1..];
    }

    method Close()
      requires !closed
      modifies this
      ensures View() == CloseOne(old(View()))
    {
      closed := true;
    }
  }

  class ChannelTransport<T> {
    const rx: Channel<T>
    const tx: Channel<T>
    var closeCh: bool          // closeCh is closed

    ghost predicate Valid()
      reads this, tx
    {
      rx != tx && tx.closed == closeCh
    }

    constructor (rx: Channel<T>, tx: Channel<T>)
      requires rx != tx && !tx.closed
      ensures Valid() && this.rx == rx && this.tx == tx && !closeCh
    {
      this.rx, this.tx, closeCh := rx, tx, false;
    }

    // ctxDone: the context is done; arm: the choice of the select if it has one.
    method WriteLine(line: T, ctxDone: bool, arm: Arm) returns (w: Written)
      requires Valid()
      modifies tx
      ensures Valid() && w == WriteOutcome(old(tx.View()), ctxDone, arm)
      ensures tx.View() == WriteTo(old(tx.View()), line, ctxDone, arm)
    {
      if closeCh {
        return TransportClosed;
      }
      if ctxDone && (arm.FromContext? || |tx.buf| >= CAPACITY) {
        return ContextDone;
      }
      if |tx.buf| < CAPACITY {
        tx.Send(line);
        return Accepted;
      }
      return BufferFull;
    }

    method ReadLine(ctxDone: bool, arm: Arm) returns (r: Outcome<T>)
      requires Valid() && Ready(rx.View(), closeCh, ctxDone, arm)
      modifies rx
      ensures Valid() && r == ReadOutcome(old(rx.View()), arm) && rx.View() == ReadFrom(old(rx.View()), arm)
    {
      match arm
      case FromChannel =>
        if rx.buf != [] {
          var line := rx.Receive();
          return Line(line);
        }
        return EndOfStream;
      case FromContext => return Interrupted;
      case FromClose => return EndOfStream;
    }

    // closeOnce lets only the first call through.
    method Close()
      requires Valid()
      modifies this, tx
      ensures Valid() && closeCh && tx.View() == CloseOne(old(tx.View()))
    {
      if !closeCh {
        closeCh := true;
        tx.Close();
      }
    }
  }

  method NewChannelTransportPair<T>() returns (a: ChannelTransport<T>, b: ChannelTransport<T>)
    ensures fresh(a) && fresh(b) && fresh(a.tx) && fresh(b.tx) && Linked(a, b)
    ensures PairView(a, b) == Exec([])
  {
    var ch1 := new Channel<T>();
    var ch2 := new Channel<T>();
    a := new ChannelTransport(ch1, ch2);
    b := new ChannelTransport(ch2, ch1);
  }

  ghost predicate Linked<T>(a: ChannelTransport<T>, b: ChannelTransport<T>)
    reads a, b, a.tx, b.tx
  {
    a != b && a.rx == b.tx && b.rx == a.tx && a.Valid() && b.Valid()
  }

  ghost function PairView<T>(a: ChannelTransport<T>, b: ChannelTransport<T>): Pair<T>
    reads a, b, a.tx, b.tx
  {
    Pair(a.tx.View(), b.tx.View(), a.closeCh, b.closeCh)
  }

  // One call on one side; a read with no arm ready would block.
  method Perform<T>(t: ChannelTransport<T>, peer: ChannelTransport<T>, st: Step<T>)
    requires Linked(t, peer)
    requires st.Read? ==> Ready(t.rx.View(), t.closeCh, st.ctxDone, st.arm)
    modifies t, t.tx, t.rx
    ensures Linked(t, peer)
    ensures t.closeCh == (st.Close? || old(t.closeCh))
    ensures t.tx.View() == match st
                           case Write(_, line, ctxDone, arm) => WriteTo(old(t.tx.View()), line, ctxDone, arm)
                           case Read(_, _, _) => old(t.tx.View())
                           case Close(_) => CloseOne(old(t.tx.View()))
    ensures t.rx.View() == if st.Read? then ReadFrom(old(t.rx.View()), st.arm) else old(t.rx.View())
  {
    match st
    case Write(_, line, ctxDone, arm) => var _ := t.WriteLine(line, ctxDone, arm);
    case Read(_, ctxDone, arm) => var _ := t.ReadLine(ctxDone, arm);
    case Close(_) => t.Close();
  }

  // Any schedule of calls on the two sides.
  method Run<T>(schedule: seq<Step<T>>) returns (a: ChannelTransport<T>, b: ChannelTransport<T>)
    ensures Linked(a, b) && PairView(a, b) == Exec(schedule)
  {
    a, b := NewChannelTransportPair();
    var i := 0;
    while i < |schedule|
      invariant i <= |schedule| && Linked(a, b) && PairView(a, b) == Exec(schedule[..i])
      invariant fresh(a) && fresh(b) && fresh(a.tx) && fresh(b.tx)
    {
      assert schedule[..i + 1][..i] == schedule[..i];
      var st := schedule[i];
      var t, peer := if st.side.A? then a else b, if st.side.A? then b else a;
      var ready := true;
      if st.Read? {
        ready := match st.arm
                 case FromChannel => t.rx.buf != [] || t.rx.closed
                 case FromContext => st.ctxDone
                 case FromClose => t.closeCh;
      }
      if ready {
        Perform(t, peer, st);
      }
      i := i + 1;
    }
    assert schedule[..i] == schedule;
  }
}
