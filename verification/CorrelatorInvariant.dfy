// The invariant of the client's correlator.
module CorrelatorInvariant {
  import opened Ids
  import opened Correlator

  // The specification: a call is answered by the first line that carries its id.
  ghost predicate First(lines: seq<string>, id: string, n: nat) {
    n < |lines| && lines[n] == id && forall m: nat | m < n :: lines[m] != id
  }

  ghost predicate Absent(lines: seq<string>, id: string) {
    forall m: nat | m < |lines| :: lines[m] != id
  }

  predicate Open(k: Call) {
    k.phase.Waiting? || k.phase.Leaving?
  }

  // The message is the right one for call c.
  ghost predicate Right(lines: seq<string>, captured: set<nat>, c: nat, m: Message) {
    match m
    case Line(n) => First(lines, Id(c), n)
    case ClosedError => c in captured && Absent(lines, Id(c))
  }

  predicate Todo(r: Reader, c: nat) {
    r.Closing? && c in r.todo
  }

  predicate Finished(r: Reader) {
    r.Closing? || r.Exited?
  }

  // A line with this id may be in the buffer only before the call registers or after it left.
  ghost predicate LinePlace(p: Place, c: nat, k: Call) {
    && (k.phase.Issued? ==> p.InBuffer?)
    && (Open(k) ==> !p.InBuffer?)
  }

  ghost predicate CallOk(s: State, c: nat, k: Call)
    requires |s.places| == |s.lines|
  {
    && (Id(c) in s.pending <==> Open(k) && c !in s.captured)
    && (Id(c) in s.pending ==> s.pending[Id(c)] == c)
    && (k.phase.Issued? ==> k.ch.Empty? && k.result.Nothing? && c !in s.captured)
    && (k.phase.Waiting? <==> k.result.Nothing? && !k.phase.Issued?)
    && (k.ch.Full? && k.ch.m.Line? ==>
          k.ch.m.no < |s.lines| && s.lines[k.ch.m.no] == Id(c) && s.places[k.ch.m.no] == InChan(c))
    && (k.ch.Full? && k.phase.Waiting? ==> Right(s.lines, s.captured, c, k.ch.m))
    && (k.result.Got? ==> Right(s.lines, s.captured, c, k.result.m))
    && (k.result.Got? && k.result.m.Line? ==> k.result.m.no < |s.places| && s.places[k.result.m.no] == ReturnedBy(c))
    && (c in s.captured ==> Finished(s.reader))
    && (c in s.captured && k.phase.Waiting? && !Todo(s.reader, c) ==> k.ch.Full?)
    && (s.reader.Holding? && s.reader.call == c ==> !k.phase.Issued? && (k.phase.Returned? ==> k.ch.Empty?))
    && (k.ch == Full(ClosedError) ==> c in s.captured && !Todo(s.reader, c))
  }

  // What every line says about the call it is meant for.
  ghost predicate MeantOk(lines: seq<string>, n: nat, p: Place, c: nat, k: Call)
    requires n < |lines|
  {
    && (lines[n] == Id(c) ==> LinePlace(p, c, k))
    && (k.phase.Waiting? && First(lines, Id(c), n) ==> p.InHand? || p == InChan(c) || p.Dropped?)
  }

  ghost predicate PlaceOk(s: State, n: nat, p: Place)
    requires n < |s.lines|
  {
    && (p.InBuffer? <==> n in s.oooBuffer)
    && (!p.InBuffer? ==> p.call < |s.calls| && s.lines[n] == Id(p.call))
    && (p.InHand? ==> s.reader == Holding(p.call, n))
    && (s.reader.Holding? && s.reader.no == n ==> p.InHand?)
    && (p.InChan? ==> s.calls[p.call].ch == Full(Line(n)))
    && (p.ReturnedBy? ==> s.calls[p.call].result == Got(Line(n)))
    && (p.Dropped? ==> s.reader.Exited?)
  }

  ghost predicate Rising(b: seq<nat>, bound: nat) {
    && (forall i: nat, j: nat | i < j < |b| :: b[i] < b[j])
    && (forall i: nat | i < |b| :: b[i] < bound)
  }

  ghost predicate CallsOk(s: State)
    requires |s.places| == |s.lines|
  {
    forall c: nat | c < |s.calls| :: CallOk(s, c, s.calls[c])
  }

  ghost predicate LinesOk(s: State)
    requires |s.places| == |s.lines|
  {
    && (forall n: nat | n < |s.lines| :: PlaceOk(s, n, s.places[n]))
    && (forall n: nat, c: nat | n < |s.lines| && c < |s.calls| :: MeantOk(s.lines, n, s.places[n], c, s.calls[c]))
  }

  ghost predicate Inv(s: State) {
    && |s.places| == |s.lines|
    && CallsOk(s)
    && LinesOk(s)
    && Rising(s.oooBuffer, |s.lines|)
    && (forall id | id in s.pending :: s.pending[id] < |s.calls| && id == Id(s.pending[id]))
    && (s.reader.Holding? ==>
          && s.reader.call < |s.calls| && s.reader.no == |s.lines| - 1
          && s.lines[s.reader.no] == Id(s.reader.call))
    && (forall c | c in s.captured :: c < |s.calls|)
    && (s.reader.Closing? ==> s.reader.todo <= s.captured)
  }

  lemma NextIdKeeps(s: State, st: Step)
    requires Inv(s) && Enabled(s, st) && st.NextId?
    ensures Inv(Apply(s, st))
  {
    AllIdsDistinct();
  }

  lemma WriteFailedKeeps(s: State, st: Step)
    requires Inv(s) && Enabled(s, st) && st.WriteFailed?
    ensures Inv(Apply(s, st))
  {
    AllIdsDistinct();
  }

  lemma RegisterKeeps(s: State, c: nat)
    requires Inv(s) && InPhase(s, c, Issued) && Find(s.lines, s.oooBuffer, Id(c)) == |s.oooBuffer|
    ensures Inv(Register(s, c))
  {
    AllIdsDistinct();
    forall n: nat | n < |s.lines| ensures s.lines[n] != Id(c) {
      assert MeantOk(s.lines, n, s.places[n], c, s.calls[c]);
      assert PlaceOk(s, n, s.places[n]);
    }
  }

  // The first match in the buffer is the first line of all with that id.
  lemma EarliestInBuffer(s: State, c: nat, i: nat)
    requires Inv(s) && InPhase(s, c, Issued) && i == Find(s.lines, s.oooBuffer, Id(c)) < |s.oooBuffer|
    ensures First(s.lines, Id(c), s.oooBuffer[i])
  {
    forall m: nat | m < s.oooBuffer[i] ensures s.lines[m] != Id(c) {
      assert MeantOk(s.lines, m, s.places[m], c, s.calls[c]);
      assert PlaceOk(s, m, s.places[m]);
      if m in s.oooBuffer {
        var j: nat :| j < |s.oooBuffer| && s.oooBuffer[j] == m;
        assert j < i;
      }
    }
  }

  lemma TakeEarlyCalls(s: State, c: nat, i: nat)
    requires Inv(s) && InPhase(s, c, Issued) && i == Find(s.lines, s.oooBuffer, Id(c)) < |s.oooBuffer|
    ensures |TakeEarly(s, c, i).places| == |TakeEarly(s, c, i).lines| && CallsOk(TakeEarly(s, c, i))
  {
    AllIdsDistinct();
    EarliestInBuffer(s, c, i);
  }

  lemma Removed(b: seq<nat>, bound: nat, i: nat)
    requires Rising(b, bound) && i < |b|
    ensures Rising(b[..i] + b[i + 1..], bound)
    ensures forall n: nat :: n in b[..i] + b[i + 1..] <==> n in b && n != b[i]
  {
    forall n: nat | n in b && n != b[i] ensures n in b[..i] + b[i + 1..] {
      var j: nat :| j < |b| && b[j] == n;
      if j < i { assert n in b[..i]; } else { assert b[i + 1..][j - i - 1] == n; }
    }
  }

  lemma TakeEarlyPlaces(s: State, c: nat, i: nat)
    requires Inv(s) && InPhase(s, c, Issued) && i == Find(s.lines, s.oooBuffer, Id(c)) < |s.oooBuffer|
    ensures var s' := TakeEarly(s, c, i);
            |s'.places| == |s'.lines| && forall n: nat | n < |s'.lines| :: PlaceOk(s', n, s'.places[n])
  {
    AllIdsDistinct();
    Removed(s.oooBuffer, |s.lines|, i);
  }

  lemma TakeEarlyLines(s: State, c: nat, i: nat)
    requires Inv(s) && InPhase(s, c, Issued) && i == Find(s.lines, s.oooBuffer, Id(c)) < |s.oooBuffer|
    ensures |TakeEarly(s, c, i).places| == |TakeEarly(s, c, i).lines| && LinesOk(TakeEarly(s, c, i))
  {
    AllIdsDistinct();
    TakeEarlyPlaces(s, c, i);
  }

  lemma TakeEarlyKeeps(s: State, c: nat, i: nat)
    requires Inv(s) && InPhase(s, c, Issued) && i == Find(s.lines, s.oooBuffer, Id(c)) < |s.oooBuffer|
    ensures Inv(TakeEarly(s, c, i))
  {
    AllIdsDistinct();
    TakeEarlyCalls(s, c, i);
    TakeEarlyLines(s, c, i);
    Removed(s.oooBuffer, |s.lines|, i);
  }

  lemma ReadResponseKeeps(s: State, st: Step)
    requires Inv(s) && Enabled(s, st) && st.ReadResponse?
    ensures Inv(Apply(s, st))
  {
    AllIdsDistinct();
    var c := st.call;
    var i := Find(s.lines, s.oooBuffer, Id(c));
    if i < |s.oooBuffer| && s.oooBuffer[i] < |s.places| {
      TakeEarlyKeeps(s, c, i);
    } else {
      RegisterKeeps(s, c);
    }
  }

  lemma ReceiveKeepsCalls(s: State, st: Step)
    requires Inv(s) && Enabled(s, st) && st.Receive?
    ensures |Apply(s, st).places| == |Apply(s, st).lines| && CallsOk(Apply(s, st))
  {
    AllIdsDistinct();
  }

  lemma ReceiveKeepsLines(s: State, st: Step)
    requires Inv(s) && Enabled(s, st) && st.Receive?
    ensures |Apply(s, st).places| == |Apply(s, st).lines| && LinesOk(Apply(s, st))
  {
    AllIdsDistinct();
  }

  lemma ReceiveKeeps(s: State, st: Step)
    requires Inv(s) && Enabled(s, st) && st.Receive?
    ensures Inv(Apply(s, st))
  {
    AllIdsDistinct();
    ReceiveKeepsCalls(s, st);
    ReceiveKeepsLines(s, st);
  }

  lemma GiveUpKeepsLines(s: State, st: Step)
    requires Inv(s) && Enabled(s, st) && st.GiveUp?
    ensures LinesOk(Apply(s, st))
  {
    AllIdsDistinct();
  }

  lemma GiveUpKeeps(s: State, st: Step)
    requires Inv(s) && Enabled(s, st) && st.GiveUp?
    ensures Inv(Apply(s, st))
  {
    AllIdsDistinct();
    GiveUpKeepsLines(s, st);
  }

  lemma LeaveKeepsCalls(s: State, st: Step)
    requires Inv(s) && Enabled(s, st) && st.Leave?
    ensures |Apply(s, st).places| == |Apply(s, st).lines| && CallsOk(Apply(s, st))
  {
    AllIdsDistinct();
  }

  lemma LeaveKeepsLines(s: State, st: Step)
    requires Inv(s) && Enabled(s, st) && st.Leave?
    ensures |Apply(s, st).places| == |Apply(s, st).lines| && LinesOk(Apply(s, st))
  {
    AllIdsDistinct();
  }

  lemma LeaveKeeps(s: State, st: Step)
    requires Inv(s) && Enabled(s, st) && st.Leave?
    ensures Inv(Apply(s, st))
  {
    AllIdsDistinct();
    LeaveKeepsCalls(s, st);
    LeaveKeepsLines(s, st);
  }

  lemma LinesAppended(lines: seq<string>, id: string)
    ensures forall x, n: nat :: First(lines, x, n) ==> First(lines + [id], x, n)
    ensures forall x, n: nat | n < |lines| :: First(lines + [id], x, n) ==> First(lines, x, n)
    ensures forall n: nat | n < |lines| :: (lines + [id])[n] == lines[n]
  {
    var more := lines + [id];
    forall x, n: nat | n < |lines| && First(more, x, n) ensures First(lines, x, n) {
      assert more[n] == lines[n];
      assert forall m: nat | m < n :: more[m] == lines[m];
    }
  }

  lemma ReadLineKeepsCalls(s: State, st: Step)
    requires Inv(s) && Enabled(s, st) && st.ReadLine?
    ensures |Apply(s, st).places| == |Apply(s, st).lines| && CallsOk(Apply(s, st))
  {
    AllIdsDistinct();
    LinesAppended(s.lines, st.id);
  }

  lemma ReadLineKeepsLines(s: State, st: Step)
    requires Inv(s) && Enabled(s, st) && st.ReadLine?
    ensures |Apply(s, st).places| == |Apply(s, st).lines| && LinesOk(Apply(s, st))
  {
    AllIdsDistinct();
    LinesAppended(s.lines, st.id);
  }

  lemma ReadLineKeeps(s: State, st: Step)
    requires Inv(s) && Enabled(s, st) && st.ReadLine?
    ensures Inv(Apply(s, st))
  {
    AllIdsDistinct();
    ReadLineKeepsCalls(s, st);
    ReadLineKeepsLines(s, st);
  }

  lemma {:induction false} FirstExists(lines: seq<string>, id: string, n: nat) returns (f: nat)
    requires n < |lines| && lines[n] == id
    ensures f <= n && First(lines, id, f)
  {
    f := n;
    if m: nat :| m < n && lines[m] == id {
      f := FirstExists(lines, id, m);
    }
  }

  // The first line for a waiting call is in the reader's hand or in the call's channel, unless the
  // reader dropped it on its way out.
  lemma FirstPlace(s: State, c: nat, f: nat)
    requires Inv(s) && c < |s.calls| && s.calls[c].phase.Waiting? && First(s.lines, Id(c), f)
    ensures (s.reader.Holding? && s.reader.no == f) || s.calls[c].ch == Full(Line(f))
        || (s.reader.Exited? && s.places[f].Dropped?)
  {
    assert MeantOk(s.lines, f, s.places[f], c, s.calls[c]);
    assert PlaceOk(s, f, s.places[f]);
  }

  // While the channel of a waiting call is empty, the line in the reader's hand is the first for it.
  lemma HeldIsFirst(s: State)
    requires Inv(s) && s.reader.Holding? && s.calls[s.reader.call].phase.Waiting? && s.calls[s.reader.call].ch.Empty?
    ensures First(s.lines, Id(s.reader.call), s.reader.no)
  {
    var f := FirstExists(s.lines, Id(s.reader.call), s.reader.no);
    FirstPlace(s, s.reader.call, f);
  }

  lemma SendKeepsCalls(s: State, st: Step)
    requires Inv(s) && Enabled(s, st) && st.Send?
    ensures |Apply(s, st).places| == |Apply(s, st).lines| && CallsOk(Apply(s, st))
  {
    AllIdsDistinct();
    if s.calls[s.reader.call].phase.Waiting? {
      HeldIsFirst(s);
    }
  }

  lemma SendKeepsLines(s: State, st: Step)
    requires Inv(s) && Enabled(s, st) && st.Send?
    ensures |Apply(s, st).places| == |Apply(s, st).lines| && LinesOk(Apply(s, st))
  {
    AllIdsDistinct();
    var s' := Apply(s, st);
    forall n: nat | n < |s'.lines| ensures PlaceOk(s', n, s'.places[n]) {
      assert PlaceOk(s, n, s.places[n]) && PlaceOk(s, s.reader.no, s.places[s.reader.no]);
    }
  }

  lemma SendKeeps(s: State, st: Step)
    requires Inv(s) && Enabled(s, st) && st.Send?
    ensures Inv(Apply(s, st))
  {
    AllIdsDistinct();
    SendKeepsCalls(s, st);
    SendKeepsLines(s, st);
  }

  lemma SendStoppedKeeps(s: State, st: Step)
    requires Inv(s) && Enabled(s, st) && st.SendStopped?
    ensures Inv(Apply(s, st))
  {
    AllIdsDistinct();
    var s' := Apply(s, st);
    forall n: nat | n < |s'.lines| ensures PlaceOk(s', n, s'.places[n]) {
      assert PlaceOk(s, n, s.places[n]) && PlaceOk(s, s.reader.no, s.places[s.reader.no]);
    }
  }

  lemma ReadFailsKeeps(s: State, st: Step)
    requires Inv(s) && Enabled(s, st) && st.ReadFails?
    ensures Inv(Apply(s, st))
  {
    AllIdsDistinct();
  }

  // A waiting call whose channel closePending finds empty has had no response.
  lemma NothingReadYet(s: State, c: nat)
    requires Inv(s) && s.reader.Closing? && c < |s.calls| && s.calls[c].phase.Waiting? && s.calls[c].ch.Empty?
    ensures Absent(s.lines, Id(c))
  {
    forall n: nat | n < |s.lines| ensures s.lines[n] != Id(c) {
      if s.lines[n] == Id(c) {
        var f := FirstExists(s.lines, Id(c), n);
        FirstPlace(s, c, f);
      }
    }
  }

  lemma NotifyKeepsCalls(s: State, st: Step)
    requires Inv(s) && Enabled(s, st) && st.Notify?
    ensures |Apply(s, st).places| == |Apply(s, st).lines| && CallsOk(Apply(s, st))
  {
    AllIdsDistinct();
    if s.calls[st.call].phase.Waiting? && s.calls[st.call].ch.Empty? {
      NothingReadYet(s, st.call);
    }
    var s' := Apply(s, st);
    forall c: nat | c < |s'.calls| ensures CallOk(s', c, s'.calls[c]) {
      assert CallOk(s, c, s.calls[c]);
    }
  }

  lemma NotifyKeepsLines(s: State, st: Step)
    requires Inv(s) && Enabled(s, st) && st.Notify?
    ensures |Apply(s, st).places| == |Apply(s, st).lines| && LinesOk(Apply(s, st))
  {
    AllIdsDistinct();
  }

  lemma NotifyKeeps(s: State, st: Step)
    requires Inv(s) && Enabled(s, st) && st.Notify?
    ensures Inv(Apply(s, st))
  {
    AllIdsDistinct();
    NotifyKeepsCalls(s, st);
    NotifyKeepsLines(s, st);
  }

  lemma NotifiedAllKeeps(s: State, st: Step)
    requires Inv(s) && Enabled(s, st) && st.NotifiedAll?
    ensures Inv(Apply(s, st))
  {
    AllIdsDistinct();
  }

  lemma StopKeeps(s: State, st: Step)
    requires Inv(s) && Enabled(s, st) && st.Stop?
    ensures Inv(Apply(s, st))
  {
    AllIdsDistinct();
  }

  lemma StoppedElsewhereKeeps(s: State, st: Step)
    requires Inv(s) && Enabled(s, st) && st.StoppedElsewhere?
    ensures Inv(Apply(s, st))
  {
    AllIdsDistinct();
  }

  lemma {:induction false} StepKeeps(s: State, st: Step)
    requires Inv(s) && Enabled(s, st)
    ensures Inv(Apply(s, st))
  {
    match st
    case NextId => NextIdKeeps(s, st);
    case WriteFailed(_) => WriteFailedKeeps(s, st);
    case ReadResponse(_) => ReadResponseKeeps(s, st);
    case Receive(_) => ReceiveKeeps(s, st);
    case GiveUp(_) => GiveUpKeeps(s, st);
    case Leave(_) => LeaveKeeps(s, st);
    case ReadLine(_) => ReadLineKeeps(s, st);
    case Send => SendKeeps(s, st);
    case SendStopped => SendStoppedKeeps(s, st);
    case ReadFails => ReadFailsKeeps(s, st);
    case Notify(_) => NotifyKeeps(s, st);
    case NotifiedAll => NotifiedAllKeeps(s, st);
    case Stop => StopKeeps(s, st);
    case StoppedElsewhere => StoppedElsewhereKeeps(s, st);
  }

  lemma {:induction false} Invariant(schedule: seq<Step>)
    ensures Inv(Exec(schedule))
  {
    if schedule != [] {
      Invariant(schedule[..|schedule| - 1]);
      var s := Exec(schedule[..|schedule| - 1]);
      if Enabled(s, schedule[|schedule| - 1]) {
        StepKeeps(s, schedule[|schedule| - 1]);
      }
    }
  }
}
