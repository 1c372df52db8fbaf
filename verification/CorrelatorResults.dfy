// What every run of the client's correlator guarantees.
module CorrelatorResults {
  import opened Ids
  import opened Correlator
  import opened CorrelatorInvariant

  // Where the n-th response line is, read off the state.
  datatype Spot = Held | Buffered | InChannel(call: nat) | ReturnedTo(call: nat) | Discarded

  ghost predicate At(s: State, n: nat, p: Spot) {
    match p
    case Held => s.reader.Holding? && s.reader.no == n
    case Buffered => n in s.oooBuffer
    case InChannel(c) => c < |s.calls| && s.calls[c].ch == Full(Line(n))
    case ReturnedTo(c) => c < |s.calls| && s.calls[c].result == Got(Line(n))
    case Discarded => n < |s.places| && (s.places[n].Drained? || s.places[n].Dropped?)
  }

  lemma SpotOf(s: State, n: nat) returns (p: Spot)
    requires Inv(s) && n < |s.lines|
    ensures At(s, n, p) && forall q :: At(s, n, q) ==> q == p
  {
    var place := s.places[n];
    assert PlaceOk(s, n, place);
    forall c: nat | c < |s.calls| ensures CallOk(s, c, s.calls[c]) {}
    p := match place
      case InBuffer => Buffered
      case InHand(_) => Held
      case InChan(c) => InChannel(c)
      case ReturnedBy(c) => ReturnedTo(c)
      case Drained(_) => Discarded
      case Dropped(_) => Discarded;
    forall q | At(s, n, q) ensures q == p {
      if q.InChannel? || q.ReturnedTo? {
        assert CallOk(s, q.call, s.calls[q.call]);
      }
    }
  }

  // Every response line read is in exactly one place, and it stands in the buffer at most once.
  lemma {:induction false} LineConservation(schedule: seq<Step>, n: nat)
    requires n < |Exec(schedule).lines|
    ensures var s := Exec(schedule);
            && (exists p :: At(s, n, p) && forall q :: At(s, n, q) ==> q == p)
            && (forall i: nat, j: nat | i < |s.oooBuffer| && j < |s.oooBuffer|
                && s.oooBuffer[i] == s.oooBuffer[j] :: i == j)
  {
    Invariant(schedule);
    var p := SpotOf(Exec(schedule), n);
  }

  // A call that got a response got the first line ever read with its id, whether it came before or
  // after the call registered and whatever duplicates there were. A call that got the closing error
  // had no response. No line is returned to two calls, so a response to a call that timed out is
  // never returned by another one.
  lemma {:induction false} FirstMatch(schedule: seq<Step>, c: nat)
    requires var s := Exec(schedule); c < |s.calls| && s.calls[c].result.Got?
    ensures var s := Exec(schedule);
            var m := s.calls[c].result.m;
            && (m.Line? ==> First(s.lines, Id(c), m.no))
            && (m.ClosedError? ==> Absent(s.lines, Id(c)))
            && (forall d: nat | d < |s.calls| && m.Line? && s.calls[d].result == Got(m) :: d == c)
  {
    Invariant(schedule);
    AllIdsDistinct();
    var s := Exec(schedule);
    assert CallOk(s, c, s.calls[c]);
    forall d: nat | d < |s.calls| && s.calls[c].result.m.Line? && s.calls[d].result == s.calls[c].result
        ensures d == c {
      assert CallOk(s, d, s.calls[d]);
    }
  }

  // The buffer never holds a response to a call that is registered.
  lemma {:induction false} BufferedNeverPending(schedule: seq<Step>, n: nat)
    requires n in Exec(schedule).oooBuffer
    ensures var s := Exec(schedule); n < |s.lines| && s.lines[n] !in s.pending
  {
    Invariant(schedule);
    var s := Exec(schedule);
    assert PlaceOk(s, n, s.places[n]);
    forall c: nat | c < |s.calls| && s.lines[n] == Id(c) ensures Id(c) !in s.pending {
      assert CallOk(s, c, s.calls[c]) && MeantOk(s.lines, n, s.places[n], c, s.calls[c]);
    }
  }

  // The step with which the waiter of a blocked send goes on.
  function WaiterStep(s: State, c: nat): Step
    requires c < |s.calls|
  {
    if s.calls[c].phase.Waiting? then Receive(c) else Leave(c)
  }

  // When the reader finds the channel full, its waiter is still there, can go on without the reader,
  // and frees the slot by its next step: the reader never blocks on a call that is over.
  lemma {:induction false} ReaderNeverWedges(schedule: seq<Step>)
    requires var s := Exec(schedule); s.reader.Holding? && !Enabled(s, Send)
    ensures var s := Exec(schedule);
            var c := s.reader.call;
            && c < |s.calls| && Open(s.calls[c])
            && Enabled(s, WaiterStep(s, c)) && Enabled(Apply(s, WaiterStep(s, c)), Send)
  {
    Invariant(schedule);
    var s := Exec(schedule);
    assert CallOk(s, s.reader.call, s.calls[s.reader.call]);
  }

  // A genuine response that was read for a waiting call is what its channel holds, also after
  // closePending: the synthetic error never takes its place.
  lemma {:induction false} GenuineNeverDisplaced(schedule: seq<Step>, c: nat, n: nat)
    requires var s := Exec(schedule);
             c < |s.calls| && s.calls[c].phase.Waiting? && First(s.lines, Id(c), n)
                 && (s.reader.Closing? || (s.reader.Exited? && c in s.captured))
    ensures Exec(schedule).calls[c].ch == Full(Line(n))
  {
    Invariant(schedule);
    var s := Exec(schedule);
    FirstPlace(s, c, n);
    assert CallOk(s, c, s.calls[c]) && PlaceOk(s, n, s.places[n]);
  }

  // Once the reader has exited, a waiting call has a message exactly when closePending captured it or
  // its response was read and not dropped.
  lemma {:induction false} WakeUp(schedule: seq<Step>, c: nat)
    requires var s := Exec(schedule); c < |s.calls| && s.calls[c].phase.Waiting? && s.reader.Exited?
    ensures var s := Exec(schedule);
            s.calls[c].ch.Full? <==>
            || c in s.captured
            || exists n: nat :: First(s.lines, Id(c), n) && n < |s.places| && !s.places[n].Dropped?
  {
    Invariant(schedule);
    var s := Exec(schedule);
    assert CallOk(s, c, s.calls[c]);
    if n: nat :| First(s.lines, Id(c), n) && !s.places[n].Dropped? {
      FirstPlace(s, c, n);
    }
    if s.calls[c].ch.Full? && s.calls[c].ch.m.Line? {
      assert First(s.lines, Id(c), s.calls[c].ch.m.no) && !s.places[s.calls[c].ch.m.no].Dropped?;
    }
  }
}
