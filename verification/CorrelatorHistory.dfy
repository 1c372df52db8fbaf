// What the calls of the client's correlator end with, told by the steps that were taken.
module CorrelatorHistory {
  import opened Ids
  import opened Correlator
  import opened CorrelatorInvariant
  import CR = CorrelatorResults

  // The step was taken at some point of the schedule.
  ghost predicate Happened(schedule: seq<Step>, st: Step) {
    && schedule != []
    && var before, last := schedule[..|schedule| - 1], schedule[|schedule| - 1];
       Happened(before, st) || (last == st && Enabled(Exec(before), st))
  }

  ghost predicate HasFailed(s: State, c: nat) {
    c < |s.calls| && s.calls[c].result.Failed?
  }

  lemma FailsExactly(s: State, st: Step, c: nat)
    requires Inv(s) && Enabled(s, st)
    ensures HasFailed(Apply(s, st), c) <==> HasFailed(s, c) || st == GiveUp(c) || st == WriteFailed(c)
  {
    if c < |s.calls| {
      assert CallOk(s, c, s.calls[c]);
    }
  }

  // A call fails exactly if its context ended while it waited, or its write failed.
  lemma {:induction false} FailedExactly(schedule: seq<Step>, c: nat)
    ensures HasFailed(Exec(schedule), c) <==> Happened(schedule, GiveUp(c)) || Happened(schedule, WriteFailed(c))
  {
    if schedule != [] {
      var before, st := schedule[..|schedule| - 1], schedule[|schedule| - 1];
      FailedExactly(before, c);
      Invariant(before);
      if Enabled(Exec(before), st) {
        FailsExactly(Exec(before), st, c);
      }
    }
  }

  // The message is the first line with the id of the call or, if there is none, the closing error.
  ghost predicate RightMessage(s: State, c: nat, m: Message) {
    match m
    case Line(n) => First(s.lines, Id(c), n)
    case ClosedError => Absent(s.lines, Id(c))
  }

  // Every other call that is over has returned its message: a response that came is never thrown away.
  lemma {:induction false} ReturnedExactly(schedule: seq<Step>, c: nat)
    requires var s := Exec(schedule); c < |s.calls| && (s.calls[c].phase.Leaving? || s.calls[c].phase.Returned?)
    ensures var s := Exec(schedule); var r := s.calls[c].result;
            if Happened(schedule, GiveUp(c)) || Happened(schedule, WriteFailed(c)) then r.Failed?
            else r.Got? && RightMessage(s, c, r.m)
  {
    Invariant(schedule);
    FailedExactly(schedule, c);
    var s := Exec(schedule);
    assert CallOk(s, c, s.calls[c]);
    if s.calls[c].result.Got? {
      CR.FirstMatch(schedule, c);
    }
  }

  // ---------------------------------------------------------------------------------------------
  // How far a call is
  // ---------------------------------------------------------------------------------------------

  function Stage(s: State, c: nat): nat {
    if c >= |s.calls| then 0
    else
      match s.calls[c].phase
      case Issued => 1
      case Waiting => 2
      case Leaving => 3
      case Returned => 4
  }

  // A response to call c is in the buffer.
  predicate IsEarly(s: State, c: nat) {
    exists i | 0 <= i < |s.oooBuffer| :: s.oooBuffer[i] < |s.lines| && s.lines[s.oooBuffer[i]] == Id(c)
  }

  // The step takes call c to this stage, or past it: a call whose response is early returns at once.
  predicate Reaches(s: State, st: Step, c: nat, stage: nat) {
    match stage
    case 1 => st.NextId? && c == |s.calls|
    case 2 => st == WriteFailed(c) || st == ReadResponse(c)
    case 3 => st == WriteFailed(c) || (st == ReadResponse(c) && IsEarly(s, c)) || st == Receive(c) || st == GiveUp(c)
    case 4 => st == WriteFailed(c) || (st == ReadResponse(c) && IsEarly(s, c)) || st == Leave(c)
    case _ => false
  }

  ghost predicate Reached(schedule: seq<Step>, c: nat, stage: nat) {
    && schedule != []
    && var before, st := schedule[..|schedule| - 1], schedule[|schedule| - 1];
       Reached(before, c, stage) || (Enabled(Exec(before), st) && Reaches(Exec(before), st, c, stage))
  }

  lemma EarlyExactly(s: State, c: nat)
    requires Inv(s)
    ensures IsEarly(s, c) <==> Find(s.lines, s.oooBuffer, Id(c)) < |s.oooBuffer|
  {
    var i := Find(s.lines, s.oooBuffer, Id(c));
    assert i < |s.oooBuffer| ==> s.oooBuffer[i] < |s.lines|;
  }

  lemma ReadResponseStage(s: State, d: nat, c: nat, stage: nat)
    requires Inv(s) && InPhase(s, d, Issued) && 1 <= stage <= 4
    ensures stage <= Stage(ReadResponseStep(s, d), c) <==>
        stage <= Stage(s, c) || Reaches(s, ReadResponse(d), c, stage)
  {
    EarlyExactly(s, d);
    var i := Find(s.lines, s.oooBuffer, Id(d));
    assert i < |s.oooBuffer| ==> s.oooBuffer[i] < |s.places|;
  }

  lemma OtherStage(s: State, st: Step, c: nat, stage: nat)
    requires Enabled(s, st) && !st.ReadResponse? && 1 <= stage <= 4
    ensures stage <= Stage(Apply(s, st), c) <==> stage <= Stage(s, c) || Reaches(s, st, c, stage)
  {
  }

  lemma StageNext(s: State, st: Step, c: nat, stage: nat)
    requires Inv(s) && Enabled(s, st) && 1 <= stage <= 4
    ensures stage <= Stage(Apply(s, st), c) <==> stage <= Stage(s, c) || Reaches(s, st, c, stage)
  {
    if st.ReadResponse? {
      ReadResponseStage(s, st.call, c, stage);
    } else {
      OtherStage(s, st, c, stage);
    }
  }

  // A call goes through its sections in order, and is past each of them exactly if it has run it.
  lemma {:induction false} StageExactly(schedule: seq<Step>, c: nat, stage: nat)
    requires 1 <= stage <= 4
    ensures stage <= Stage(Exec(schedule), c) <==> Reached(schedule, c, stage)
  {
    if schedule != [] {
      var before, st := schedule[..|schedule| - 1], schedule[|schedule| - 1];
      StageExactly(before, c, stage);
      Invariant(before);
      if Enabled(Exec(before), st) {
        StageNext(Exec(before), st, c, stage);
      }
    }
  }

  // ---------------------------------------------------------------------------------------------
  // What is drained
  // ---------------------------------------------------------------------------------------------

  // The call has left without ever registering: its responses stay in the buffer.
  ghost predicate NeverRegistered(s: State, c: nat) {
    && c < |s.calls| && s.calls[c].phase.Returned? && |s.places| == |s.lines|
    && forall n: nat | n < |s.lines| && s.lines[n] == Id(c) :: s.places[n].InBuffer?
  }

  lemma WriteFailedIsOver(s: State, c: nat)
    requires Inv(s) && Enabled(s, WriteFailed(c))
    ensures NeverRegistered(Apply(s, WriteFailed(c)), c)
  {
    forall n: nat | n < |s.lines| && s.lines[n] == Id(c) ensures s.places[n].InBuffer? {
      assert MeantOk(s.lines, n, s.places[n], c, s.calls[c]);
    }
  }

  // A line leaves the buffer only for the call with its id.
  lemma BufferedStays(s: State, st: Step, n: nat)
    requires Inv(s) && Enabled(s, st) && n < |s.lines| && s.places[n].InBuffer?
    ensures var s' := Apply(s, st);
            n < |s'.places| && (s'.places[n].InBuffer? || (st.ReadResponse? && s.lines[n] == Id(st.call)))
  {
    assert PlaceOk(s, n, s.places[n]);
  }

  lemma OverStays(s: State, st: Step, c: nat)
    requires Inv(s) && Enabled(s, st) && InPhase(s, c, Returned)
    ensures InPhase(Apply(s, st), c, Returned) && |Apply(s, st).places| == |Apply(s, st).lines|
    ensures st.ReadLine? && st.id == Id(c) ==> Apply(s, st).places[|s.lines|].InBuffer?
    ensures Apply(s, st).lines == if st.ReadLine? then s.lines + [st.id] else s.lines
  {
    assert CallOk(s, c, s.calls[c]);
  }

  lemma StaysUnregistered(s: State, st: Step, c: nat)
    requires Inv(s) && Enabled(s, st) && NeverRegistered(s, c)
    ensures NeverRegistered(Apply(s, st), c)
  {
    AllIdsDistinct();
    OverStays(s, st, c);
    var s' := Apply(s, st);
    forall n: nat | n < |s'.lines| && s'.lines[n] == Id(c) ensures s'.places[n].InBuffer? {
      if n < |s.lines| {
        BufferedStays(s, st, n);
      }
    }
  }

  lemma {:induction false} WriteFailedForGood(schedule: seq<Step>, c: nat)
    requires Happened(schedule, WriteFailed(c))
    ensures NeverRegistered(Exec(schedule), c)
  {
    var before, st := schedule[..|schedule| - 1], schedule[|schedule| - 1];
    var s := Exec(before);
    Invariant(before);
    if Happened(before, WriteFailed(c)) {
      WriteFailedForGood(before, c);
      if Enabled(s, st) {
        StaysUnregistered(s, st, c);
      }
    } else {
      WriteFailedIsOver(s, c);
    }
  }

  lemma DrainedHasFailed(s: State, n: nat, c: nat)
    requires Inv(s) && n < |s.places| && s.places[n] == Drained(c) && First(s.lines, Id(c), n)
    ensures HasFailed(s, c)
  {
    assert PlaceOk(s, n, s.places[n]);
    assert CallOk(s, c, s.calls[c]) && MeantOk(s.lines, n, s.places[n], c, s.calls[c]);
  }

  // A line drained from the channel of a call was for a call that had given up, or was not the first for it.
  lemma {:induction false} DrainedExactly(schedule: seq<Step>, n: nat, c: nat)
    requires var s := Exec(schedule); n < |s.places| && s.places[n] == Drained(c)
    ensures Happened(schedule, GiveUp(c)) || !First(Exec(schedule).lines, Id(c), n)
  {
    Invariant(schedule);
    if First(Exec(schedule).lines, Id(c), n) {
      DrainedHasFailed(Exec(schedule), n, c);
      FailedExactly(schedule, c);
      if Happened(schedule, WriteFailed(c)) {
        WriteFailedForGood(schedule, c);
      }
    }
  }

  // ---------------------------------------------------------------------------------------------
  // What the reader does
  // ---------------------------------------------------------------------------------------------

  // The ids of the lines that were read.
  ghost function Read(schedule: seq<Step>): seq<string> {
    if schedule == [] then []
    else
      var before, st := schedule[..|schedule| - 1], schedule[|schedule| - 1];
      Read(before) + if st.ReadLine? && Enabled(Exec(before), st) then [st.id] else []
  }

  lemma LeavesExactly(s: State, st: Step)
    requires Enabled(s, st)
    ensures Finished(Apply(s, st).reader) <==>
        Finished(s.reader) || st.ReadFails? || st.SendStopped? || st.StoppedElsewhere?
    ensures Apply(s, st).stopped <==> s.stopped || st.Stop?
    ensures Apply(s, st).lines == s.lines + if st.ReadLine? then [st.id] else []
  {
  }

  // The reader has left exactly if a read failed or it saw stopCh.
  lemma {:induction false} LeftExactly(schedule: seq<Step>)
    ensures Finished(Exec(schedule).reader) <==>
        Happened(schedule, ReadFails) || Happened(schedule, SendStopped) || Happened(schedule, StoppedElsewhere)
  {
    if schedule != [] {
      LeftExactly(schedule[..|schedule| - 1]);
      var s, st := Exec(schedule[..|schedule| - 1]), schedule[|schedule| - 1];
      if Enabled(s, st) {
        LeavesExactly(s, st);
      }
    }
  }

  // Up to then it has kept every line, in order.
  lemma {:induction false} LinesExactly(schedule: seq<Step>)
    ensures Exec(schedule).lines == Read(schedule) && (Exec(schedule).stopped <==> Happened(schedule, Stop))
  {
    if schedule != [] {
      LinesExactly(schedule[..|schedule| - 1]);
      var s, st := Exec(schedule[..|schedule| - 1]), schedule[|schedule| - 1];
      if Enabled(s, st) {
        LeavesExactly(s, st);
      }
    }
  }

  // The last step of the reader with a response in hand.
  ghost function LastSending(schedule: seq<Step>): Step {
    if schedule == [] then Stop
    else
      var before, st := schedule[..|schedule| - 1], schedule[|schedule| - 1];
      if (st.ReadLine? || st.Send? || st.SendStopped?) && Enabled(Exec(before), st) then st else LastSending(before)
  }

  // The reader holds a response only from when it read it until it sent or dropped it; and it has exited exactly
  // if it saw stopCh or was done with closePending.
  lemma {:induction false} HoldsExactly(schedule: seq<Step>)
    ensures var r, last := Exec(schedule).reader, LastSending(schedule);
            && (r.Holding? ==> last.ReadLine? && r.no + 1 == |Exec(schedule).lines|)
            && (last.Send? || last.SendStopped? ==> !r.Holding?)
  {
    if schedule != [] {
      HoldsExactly(schedule[..|schedule| - 1]);
    }
  }

  lemma ExitsExactly(s: State, st: Step)
    requires Enabled(s, st)
    ensures Apply(s, st).reader.Exited? <==>
        s.reader.Exited? || st.NotifiedAll? || st.SendStopped? || st.StoppedElsewhere?
  {
  }

  lemma {:induction false} ExitedExactly(schedule: seq<Step>)
    ensures Exec(schedule).reader.Exited? <==>
        Happened(schedule, NotifiedAll) || Happened(schedule, SendStopped) || Happened(schedule, StoppedElsewhere)
  {
    if schedule != [] {
      ExitedExactly(schedule[..|schedule| - 1]);
      var s, st := Exec(schedule[..|schedule| - 1]), schedule[|schedule| - 1];
      if Enabled(s, st) {
        ExitsExactly(s, st);
      }
    }
  }

  // Line n was in the reader's hand when it left for stopCh.
  ghost predicate StoppedWith(schedule: seq<Step>, n: nat) {
    && schedule != []
    && var before, st := schedule[..|schedule| - 1], schedule[|schedule| - 1];
       StoppedWith(before, n) || (st.SendStopped? && Enabled(Exec(before), st) && Exec(before).reader.no == n)
  }

  ghost predicate IsDropped(s: State, n: nat) {
    n < |s.places| && s.places[n].Dropped?
  }

  lemma DropsExactly(s: State, st: Step, n: nat)
    requires Inv(s) && Enabled(s, st)
    ensures IsDropped(Apply(s, st), n) <==> IsDropped(s, n) || (st.SendStopped? && s.reader.no == n)
  {
    if n < |s.places| {
      assert PlaceOk(s, n, s.places[n]);
    }
    if st.Receive? || st.Leave? {
      assert CallOk(s, st.call, s.calls[st.call]);
    }
  }

  // A response is dropped exactly then.
  lemma {:induction false} DroppedExactly(schedule: seq<Step>, n: nat)
    ensures IsDropped(Exec(schedule), n) <==> StoppedWith(schedule, n)
  {
    if schedule != [] {
      var before, st := schedule[..|schedule| - 1], schedule[|schedule| - 1];
      DroppedExactly(before, n);
      Invariant(before);
      if Enabled(Exec(before), st) {
        DropsExactly(Exec(before), st, n);
      }
    }
  }

  // Call c was registered when a read failed.
  ghost predicate OpenAtFailure(schedule: seq<Step>, c: nat) {
    && schedule != []
    && var before, st := schedule[..|schedule| - 1], schedule[|schedule| - 1]; var s := Exec(before);
       OpenAtFailure(before, c) || (st.ReadFails? && Enabled(s, st) && c < |s.calls| && Open(s.calls[c]))
  }

  lemma CapturesExactly(s: State, st: Step, c: nat)
    requires Inv(s) && Enabled(s, st)
    ensures c in Apply(s, st).captured <==>
        c in s.captured || (st.ReadFails? && c < |s.calls| && Open(s.calls[c]))
  {
    if st.ReadFails? && c < |s.calls| {
      assert CallOk(s, c, s.calls[c]);
    }
  }

  lemma {:induction false} CapturedExactly(schedule: seq<Step>, c: nat)
    ensures c in Exec(schedule).captured <==> OpenAtFailure(schedule, c)
  {
    if schedule != [] {
      var before, st := schedule[..|schedule| - 1], schedule[|schedule| - 1];
      CapturedExactly(before, c);
      Invariant(before);
      if Enabled(Exec(before), st) {
        CapturesExactly(Exec(before), st, c);
      }
    }
  }

  // Once the reader has left for good, a waiting call has a message exactly if it was registered when a read
  // failed, or its response was read and was not the one the reader dropped for stopCh.
  lemma {:induction false} WokenExactly(schedule: seq<Step>, c: nat)
    requires var s := Exec(schedule); c < |s.calls| && s.calls[c].phase.Waiting? && s.reader.Exited?
    ensures Exec(schedule).calls[c].ch.Full? <==>
            || OpenAtFailure(schedule, c)
            || exists n: nat :: First(Exec(schedule).lines, Id(c), n) && !StoppedWith(schedule, n)
  {
    CR.WakeUp(schedule, c);
    CapturedExactly(schedule, c);
    Invariant(schedule);
    forall n: nat ensures IsDropped(Exec(schedule), n) <==> StoppedWith(schedule, n) {
      DroppedExactly(schedule, n);
    }
  }
}
