// The client as client.go has it: an object whose fields are changed in place, one atomic section at a
// time. Every method does to the fields what the step of the same name says, and keeps the invariant.
module Client {
  import opened Ids
  import opened Correlator
  import opened CorrelatorInvariant
  import CR = CorrelatorResults
  import CH = CorrelatorHistory

  class Client {
    var requestCounter: nat
    var calls: seq<Call>             // one per issued id: its channel and the position of its goroutine
    var pending: map<string, nat>
    var oooBuffer: seq<nat>
    var lines: seq<string>
    var reader: Reader
    var stopped: bool
    ghost var places: seq<Place>
    ghost var captured: set<nat>

    ghost function View(): State
      reads this
    {
      State(calls, pending, oooBuffer, lines, places, reader, stopped, captured)
    }

    ghost predicate Valid()
      reads this
    {
      requestCounter == |calls| && Inv(View())
    }

    constructor ()
      ensures Valid() && View() == Init()
    {
      requestCounter, calls, pending, oooBuffer, lines := 0, [], map[], [], [];
      reader, stopped := Reading, false;
      places, captured := [], {};
    }

    method NextID() returns (id: string)
      requires Valid()
      modifies this
      ensures Valid() && View() == Apply(old(View()), NextId) && id == ClientId(requestCounter) == Id(|calls| - 1)
    {
      StepKeeps(View(), NextId);
      requestCounter := requestCounter + 1;
      calls := calls + [Call(Issued, Empty, Nothing)];
      id := ClientId(requestCounter);
    }

    method FailWrite(c: nat)
      requires Valid() && Enabled(View(), WriteFailed(c))
      modifies this
      ensures Valid() && View() == Apply(old(View()), WriteFailed(c))
    {
      StepKeeps(View(), WriteFailed(c));
      calls := calls[c := calls[c].(phase := Returned, result := Failed)];
    }

    // The scan of oooBuffer: the first position that holds a response with this id.
    method SearchBuffer(expected: string) returns (i: nat)
      requires forall j: nat | j < |oooBuffer| :: oooBuffer[j] < |lines|
      ensures i == Find(lines, oooBuffer, expected)
      ensures i <= |oooBuffer| && forall j: nat | j < i :: lines[oooBuffer[j]] != expected
      ensures i < |oooBuffer| ==> lines[oooBuffer[i]] == expected
    {
      i := 0;
      while i < |oooBuffer| && lines[oooBuffer[i]] != expected
        invariant i <= |oooBuffer|
        invariant Find(lines, oooBuffer, expected) == i + Find(lines, oooBuffer[i..], expected)
      {
        assert oooBuffer[i..][1..] == oooBuffer[i + 1..];
        i := i + 1;
      }
    }

    // The first locked section of readResponse: the buffer is searched, then the call registers.
    method BeginReadResponse(c: nat)
      requires Valid() && Enabled(View(), ReadResponse(c))
      modifies this
      ensures Valid() && View() == Apply(old(View()), ReadResponse(c))
    {
      StepKeeps(View(), ReadResponse(c));
      var i := SearchBuffer(Id(c));
      if i < |oooBuffer| {
        var no := oooBuffer[i];
        oooBuffer := oooBuffer[..i] + oooBuffer[i + 1..];
        calls := calls[c := calls[c].(phase := Returned, result := Got(Line(no)))];
        places := places[no := ReturnedBy(c)];
      } else {
        pending := pending[Id(c) := c];
        calls := calls[c := calls[c].(phase := Waiting)];
      }
    }

    method ReceiveMessage(c: nat)
      requires Valid() && Enabled(View(), Receive(c))
      modifies this
      ensures Valid() && View() == Apply(old(View()), Receive(c))
    {
      StepKeeps(View(), Receive(c));
      var m := calls[c].ch.m;
      calls := calls[c := Call(Leaving, Empty, Got(m))];
      if m.Line? {
        places := places[m.no := ReturnedBy(c)];
      }
    }

    method TimeOut(c: nat)
      requires Valid() && Enabled(View(), GiveUp(c))
      modifies this
      ensures Valid() && View() == Apply(old(View()), GiveUp(c))
    {
      StepKeeps(View(), GiveUp(c));
      calls := calls[c := calls[c].(phase := Leaving, result := Failed)];
    }

    // The deferred section of readResponse: the entry goes, and whatever is in the channel.
    method LeaveReadResponse(c: nat)
      requires Valid() && Enabled(View(), Leave(c))
      modifies this
      ensures Valid() && View() == Apply(old(View()), Leave(c))
    {
      StepKeeps(View(), Leave(c));
      pending := pending - {Id(c)};
      if calls[c].ch.Full? && calls[c].ch.m.Line? {
        places := places[calls[c].ch.m.no := Drained(c)];
      }
      calls := calls[c := calls[c].(phase := Returned, ch := Empty)];
    }

    // readerLoop with a response in hand, up to the unlock.
    method LookUp(id: string)
      requires Valid() && Enabled(View(), ReadLine(id))
      modifies this
      ensures Valid() && View() == Apply(old(View()), ReadLine(id))
    {
      StepKeeps(View(), ReadLine(id));
      var no := |lines|;
      lines := lines + [id];
      if id in pending {
        reader := Holding(pending[id], no);
        places := places + [InHand(pending[id])];
      } else {
        oooBuffer := oooBuffer + [no];
        places := places + [InBuffer];
      }
    }

    method SendToWaiter()
      requires Valid() && Enabled(View(), Send)
      modifies this
      ensures Valid() && View() == Apply(old(View()), Send)
    {
      StepKeeps(View(), Send);
      var c := reader.call;
      calls := calls[c := calls[c].(ch := Full(Line(reader.no)))];
      places := places[reader.no := InChan(c)];
      reader := Reading;
    }

    method AbandonSend()
      requires Valid() && Enabled(View(), SendStopped)
      modifies this
      ensures Valid() && View() == Apply(old(View()), SendStopped)
    {
      StepKeeps(View(), SendStopped);
      places := places[reader.no := Dropped(reader.call)];
      reader := Exited;
    }

    // closePending: the locked section, then one non-blocking send per captured call.
    method ClosePending()
      requires Valid() && Enabled(View(), ReadFails)
      modifies this
      ensures Valid() && View() == Apply(old(View()), ReadFails)
    {
      StepKeeps(View(), ReadFails);
      var pendingCopy := set id | id in pending :: pending[id];
      pending := map[];
      reader := Closing(pendingCopy);
      captured := pendingCopy;
    }

    method NotifyClosed(c: nat)
      requires Valid() && Enabled(View(), Notify(c))
      modifies this
      ensures Valid() && View() == Apply(old(View()), Notify(c))
    {
      StepKeeps(View(), Notify(c));
      reader := Closing(reader.todo - {c});
      if calls[c].ch.Empty? {
        calls := calls[c := calls[c].(ch := Full(ClosedError))];
      }
    }

    method ExitReader(st: Step)
      requires Valid() && Enabled(View(), st) && (st.NotifiedAll? || st.StoppedElsewhere?)
      modifies this
      ensures Valid() && View() == Apply(old(View()), st)
    {
      StepKeeps(View(), st);
      reader := Exited;
    }

    method CloseStopCh()
      requires Valid()
      modifies this
      ensures Valid() && View() == Apply(old(View()), Stop)
    {
      StepKeeps(View(), Stop);
      stopped := true;
    }

    // The guards, from what the object holds.
    predicate Ready(st: Step)
      reads this
    {
      match st
      case NextId => true
      case WriteFailed(c) => InPhase(c, Issued)
      case ReadResponse(c) => InPhase(c, Issued)
      case Receive(c) => InPhase(c, Waiting) && calls[c].ch.Full?
      case GiveUp(c) => InPhase(c, Waiting)
      case Leave(c) => InPhase(c, Leaving)
      case ReadLine(_) => reader.Reading?
      case Send => reader.Holding? && reader.call < |calls| && calls[reader.call].ch.Empty?
      case SendStopped => reader.Holding? && stopped
      case ReadFails => reader.Reading?
      case Notify(c) => reader.Closing? && c in reader.todo && c < |calls|
      case NotifiedAll => reader.Closing? && reader.todo == {}
      case Stop => true
      case StoppedElsewhere => reader.Reading? && stopped
    }

    predicate InPhase(c: nat, p: Phase)
      reads this
    {
      c < |calls| && calls[c].phase == p
    }

    lemma ReadyExactly(st: Step)
      requires Valid()
      ensures Ready(st) <==> Enabled(View(), st)
    {
    }

    method Do(st: Step)
      requires Valid() && Enabled(View(), st)
      modifies this
      ensures Valid() && View() == Apply(old(View()), st)
    {
      match st
      case NextId => var _ := NextID();
      case WriteFailed(c) => FailWrite(c);
      case ReadResponse(c) => BeginReadResponse(c);
      case Receive(c) => ReceiveMessage(c);
      case GiveUp(c) => TimeOut(c);
      case Leave(c) => LeaveReadResponse(c);
      case ReadLine(id) => LookUp(id);
      case Send => SendToWaiter();
      case SendStopped => AbandonSend();
      case ReadFails => ClosePending();
      case Notify(c) => NotifyClosed(c);
      case NotifiedAll => ExitReader(st);
      case Stop => CloseStopCh();
      case StoppedElsewhere => ExitReader(st);
    }

    // Any schedule, from the start. A call fails exactly if its context ended or its write failed; any other
    // that is over returned the first line read with its id, or the closing error if there was none, and no
    // line went to two calls. Nothing in the buffer is meant for a registered call.
    method Run(schedule: seq<Step>)
      requires Valid() && View() == Init()
      modifies this
      ensures Valid() && View() == Exec(schedule)
      ensures forall c: nat | c < |calls| ::
                calls[c].result.Failed? <==> CH.Happened(schedule, GiveUp(c)) || CH.Happened(schedule, WriteFailed(c))
      ensures forall c: nat | c < |calls| && (calls[c].phase.Leaving? || calls[c].phase.Returned?) ::
                calls[c].result.Failed? || calls[c].result.Got?
      ensures forall c: nat | c < |calls| && calls[c].result.Got? :: Answered(c)
      ensures forall n | n in oooBuffer :: n < |lines| && lines[n] !in pending
    {
      var i := 0;
      while i < |schedule|
        invariant i <= |schedule| && Valid() && View() == Exec(schedule[..i])
      {
        ExecStep(schedule, i);
        ReadyExactly(schedule[i]);
        if Ready(schedule[i]) {
          Do(schedule[i]);
        }
        i := i + 1;
      }
      assert schedule[..i] == schedule;
      forall c: nat | c < |calls|
        ensures calls[c].result.Failed? <==> CH.Happened(schedule, GiveUp(c)) || CH.Happened(schedule, WriteFailed(c))
        ensures calls[c].phase.Leaving? || calls[c].phase.Returned? ==> calls[c].result.Failed? || calls[c].result.Got?
      {
        CH.FailedExactly(schedule, c);
        if calls[c].phase.Leaving? || calls[c].phase.Returned? {
          CH.ReturnedExactly(schedule, c);
        }
      }
      forall c: nat | c < |calls| && calls[c].result.Got? ensures Answered(c) {
        CR.FirstMatch(schedule, c);
      }
      forall n | n in oooBuffer ensures n < |lines| && lines[n] !in pending {
        CR.BufferedNeverPending(schedule, n);
      }
    }

    // The message call c returned is the right one, and no other call returned it.
    ghost predicate Answered(c: nat)
      requires c < |calls| && calls[c].result.Got?
      reads this
    {
      match calls[c].result.m
      case Line(n) => First(lines, Id(c), n) && forall d: nat | d < |calls| && calls[d].result == Got(Line(n)) :: d == c
      case ClosedError => Absent(lines, Id(c))
    }
  }

  lemma ExecStep(schedule: seq<Step>, i: nat)
    requires i < |schedule|
    ensures var s := Exec(schedule[..i]);
            Exec(schedule[..i + 1]) == if Enabled(s, schedule[i]) then Apply(s, schedule[i]) else s
  {
    assert schedule[..i + 1][..i] == schedule[..i];
  }
}
