// What the server's requests end with, told by the steps that were taken.
module RequestHistory {
  import opened Ids
  import opened Requests

  // The step was taken at some point of the schedule.
  ghost predicate Happened(schedule: seq<Step>, st: Step) {
    && schedule != []
    && var before, last := schedule[..|schedule| - 1], schedule[|schedule| - 1];
       Happened(before, st) || (last == st && Enabled(Exec(before), st))
  }

  lemma {:induction false} HappenedNext(before: seq<Step>, last: Step, st: Step)
    ensures Happened(before + [last], st) <==> Happened(before, st) || (last == st && Enabled(Exec(before), st))
  {
    assert (before + [last])[..|before|] == before;
  }

  // ---------------------------------------------------------------------------------------------
  // How a call ends
  // ---------------------------------------------------------------------------------------------

  ghost predicate HasFailed(s: State, c: nat) {
    c < |s.calls| && s.calls[c].result.Failed?
  }

  lemma FailsExactly(s: State, st: Step, c: nat)
    requires Inv(s) && Enabled(s, st)
    ensures HasFailed(Apply(s, st), c) <==> HasFailed(s, c) || st == GiveUp(c) || st == Written(c, false)
  {
    if c < |s.calls| {
      assert LocalOk(s.lines, s.ctxDone, s.closed, c, s.calls[c]);
    }
  }

  // A request fails exactly if its write failed, or a context ended while it waited.
  lemma {:induction false} FailedExactly(schedule: seq<Step>, c: nat)
    ensures HasFailed(Exec(schedule), c) <==> Happened(schedule, GiveUp(c)) || Happened(schedule, Written(c, false))
  {
    if schedule != [] {
      var before, st := schedule[..|schedule| - 1], schedule[|schedule| - 1];
      FailedExactly(before, c);
      Invariant(before);
      if Enabled(Exec(before), st) {
        FailsExactly(Exec(before), st, c);
      }
    }
  }

  // The call is past its select.
  predicate IsOver(k: Call) {
    k.phase.Leaving? || k.phase.Draining? || k.phase.Returned?
  }

  // Every other request that is over has returned the first response with its id that was read since it
  // registered, or the closing error if there was none.
  lemma {:induction false} ReturnedExactly(schedule: seq<Step>, c: nat)
    requires var s := Exec(schedule); c < |s.calls| && IsOver(s.calls[c])
    ensures var s := Exec(schedule); var r := s.calls[c].result;
            if Happened(schedule, GiveUp(c)) || Happened(schedule, Written(c, false)) then r.Failed?
            else r.Got? && MessageOk(s.lines, s.closed, c, s.calls[c].since, r.m)
  {
    Invariant(schedule);
    FailedExactly(schedule, c);
    var s := Exec(schedule);
    assert LocalOk(s.lines, s.ctxDone, s.closed, c, s.calls[c]);
  }

  // ---------------------------------------------------------------------------------------------
  // How far a call is
  // ---------------------------------------------------------------------------------------------

  function Stage(s: State, c: nat): nat {
    if c >= |s.calls| then 0
    else
      match s.calls[c].phase
      case Issued => 1
      case Registered => 2
      case Waiting => 3
      case Leaving => 4
      case Draining => 5
      case Returned => 6
  }

  // The step takes call c to this stage, or past it.
  predicate Reaches(s: State, st: Step, c: nat, stage: nat) {
    match stage
    case 1 => st.Issue? && c == |s.calls|
    case 2 => st == Register(c)
    case 3 => st.Written? && st.call == c
    case 4 => st == Written(c, false) || st == Receive(c) || st == GiveUp(c)
    case 5 => st == Unregister(c)
    case 6 => st == Drain(c)
    case _ => false
  }

  ghost predicate Reached(schedule: seq<Step>, c: nat, stage: nat) {
    && schedule != []
    && var before, st := schedule[..|schedule| - 1], schedule[|schedule| - 1];
       Reached(before, c, stage) || (Enabled(Exec(before), st) && Reaches(Exec(before), st, c, stage))
  }

  lemma StageNext(s: State, st: Step, c: nat, stage: nat)
    requires Enabled(s, st) && 1 <= stage <= 6
    ensures stage <= Stage(Apply(s, st), c) <==> stage <= Stage(s, c) || Reaches(s, st, c, stage)
  {
  }

  // A call goes through its sections in order, and is past each of them exactly if it has run it.
  lemma {:induction false} StageExactly(schedule: seq<Step>, c: nat, stage: nat)
    requires 1 <= stage <= 6
    ensures stage <= Stage(Exec(schedule), c) <==> Reached(schedule, c, stage)
  {
    if schedule != [] {
      var before, st := schedule[..|schedule| - 1], schedule[|schedule| - 1];
      StageExactly(before, c, stage);
      if Enabled(Exec(before), st) {
        StageNext(Exec(before), st, c, stage);
      }
    }
  }

  // ---------------------------------------------------------------------------------------------
  // What the reader does
  // ---------------------------------------------------------------------------------------------

  // The ids of the responses that were read.
  ghost function Read(schedule: seq<Step>): seq<string> {
    if schedule == [] then []
    else
      var before, st := schedule[..|schedule| - 1], schedule[|schedule| - 1];
      Read(before) + if st.Route? && Enabled(Exec(before), st) then [st.id] else []
  }

  lemma ReadsExactly(s: State, st: Step)
    requires Enabled(s, st)
    ensures var s' := Apply(s, st);
            && s'.lines == s.lines + (if st.Route? then [st.id] else [])
            && (s'.readDone <==> s.readDone || st.ReaderExit?) && (s'.ctxDone <==> s.ctxDone || st.CancelServe?)
            && (s'.closed <==> s.closed || st.ClosePending?)
  {
  }

  // The reader keeps every response, in order.
  lemma {:induction false} LinesExactly(schedule: seq<Step>)
    ensures Exec(schedule).lines == Read(schedule)
  {
    if schedule != [] {
      LinesExactly(schedule[..|schedule| - 1]);
      var s, st := Exec(schedule[..|schedule| - 1]), schedule[|schedule| - 1];
      if Enabled(s, st) {
        ReadsExactly(s, st);
      }
    }
  }

  lemma {:induction false} FlagsExactly(schedule: seq<Step>)
    ensures Exec(schedule).readDone <==> Happened(schedule, ReaderExit)
    ensures Exec(schedule).ctxDone <==> Happened(schedule, CancelServe)
    ensures Exec(schedule).closed <==> Happened(schedule, ClosePending)
  {
    if schedule != [] {
      FlagsExactly(schedule[..|schedule| - 1]);
      var s, st := Exec(schedule[..|schedule| - 1]), schedule[|schedule| - 1];
      if Enabled(s, st) {
        ReadsExactly(s, st);
      }
    }
  }

  // The last step of the reader with a response in hand.
  ghost function LastRouting(schedule: seq<Step>): Step {
    if schedule == [] then ReaderExit
    else
      var before, st := schedule[..|schedule| - 1], schedule[|schedule| - 1];
      if (st.Route? || st.Deliver? || st.Drop?) && Enabled(Exec(before), st) then st else LastRouting(before)
  }

  // The reader has a response in hand only from when it read it until it delivered or dropped it, and that is
  // the last one it read.
  lemma {:induction false} HandExactly(schedule: seq<Step>)
    ensures var s := Exec(schedule);
            s.hand.Routing? ==>
              && LastRouting(schedule).Route? && s.hand.no + 1 == |s.lines|
              && s.lines[s.hand.no] == LastRouting(schedule).id
  {
    if schedule != [] {
      HandExactly(schedule[..|schedule| - 1]);
      var s, st := Exec(schedule[..|schedule| - 1]), schedule[|schedule| - 1];
      if Enabled(s, st) {
        HandNext(s, st);
      }
    }
  }

  lemma HandNext(s: State, st: Step)
    requires Enabled(s, st)
    ensures var s' := Apply(s, st);
            if st.Route? then
              s'.hand.Routing? ==> s'.hand.no == |s.lines| && s'.lines == s.lines + [st.id]
            else s'.lines == s.lines && s'.hand == if st.Deliver? || st.Drop? then Free else s.hand
  {
  }

  // Call c registered when n responses had been read.
  ghost predicate RegisteredAt(schedule: seq<Step>, c: nat, n: nat) {
    && schedule != []
    && var before, st := schedule[..|schedule| - 1], schedule[|schedule| - 1];
       RegisteredAt(before, c, n) || (st == Register(c) && Enabled(Exec(before), st) && |Exec(before).lines| == n)
  }

  lemma RegistersExactly(s: State, st: Step, c: nat)
    requires Enabled(s, st)
    ensures var s' := Apply(s, st);
            c < |s'.calls| && !s'.calls[c].phase.Issued? ==>
              if st == Register(c) then s'.calls[c].since == |s.lines|
              else c < |s.calls| && !s.calls[c].phase.Issued? && s'.calls[c].since == s.calls[c].since
  {
  }

  lemma {:induction false} SinceExactly(schedule: seq<Step>, c: nat)
    requires var s := Exec(schedule); c < |s.calls| && !s.calls[c].phase.Issued?
    ensures RegisteredAt(schedule, c, Exec(schedule).calls[c].since)
  {
    var before, st := schedule[..|schedule| - 1], schedule[|schedule| - 1];
    var s := Exec(before);
    if Enabled(s, st) {
      RegistersExactly(s, st, c);
    }
    if !(Enabled(s, st) && st == Register(c)) {
      SinceExactly(before, c);
    }
  }

  // The reader dropped a response for call c for the cancelled context.
  ghost predicate DroppedFor(schedule: seq<Step>, c: nat) {
    && schedule != []
    && var before, st := schedule[..|schedule| - 1], schedule[|schedule| - 1];
       DroppedFor(before, c) || (st.Drop? && Enabled(Exec(before), st) && Exec(before).hand.call == c)
  }

  ghost predicate IsLost(s: State, c: nat) {
    c < |s.calls| && s.calls[c].token.Lost?
  }

  lemma LosesExactly(s: State, st: Step, c: nat)
    requires Inv(s) && Enabled(s, st)
    ensures IsLost(Apply(s, st), c) <==> IsLost(s, c) || (st.Drop? && s.hand.call == c)
  {
    if c < |s.calls| {
      assert CallOk(s, c, s.calls[c]) && LocalOk(s.lines, s.ctxDone, s.closed, c, s.calls[c]);
    }
  }

  lemma {:induction false} LostExactly(schedule: seq<Step>, c: nat)
    ensures IsLost(Exec(schedule), c) <==> DroppedFor(schedule, c)
  {
    if schedule != [] {
      var before, st := schedule[..|schedule| - 1], schedule[|schedule| - 1];
      LostExactly(before, c);
      Invariant(before);
      if Enabled(Exec(before), st) {
        LosesExactly(Exec(before), st, c);
      }
    }
  }

  // ---------------------------------------------------------------------------------------------
  // Closing
  // ---------------------------------------------------------------------------------------------

  // Call c had registered when closePending took its copy.
  ghost predicate OpenAtClosing(schedule: seq<Step>, c: nat) {
    && schedule != []
    && var before, st := schedule[..|schedule| - 1], schedule[|schedule| - 1]; var s := Exec(before);
       || OpenAtClosing(before, c)
       || (st.ClosePending? && Enabled(s, st) && c < |s.calls| && !s.calls[c].phase.Issued?)
  }

  // early says that call c registered before closePending.
  ghost predicate ClosingOk(s: State, c: nat, early: bool) {
    && (early ==> s.closed && c < |s.calls|)
    && (s.closed && c < |s.calls| ==>
          var t := s.calls[c].token;
          if early then !t.NotYet? && !t.Pending? else t.NotYet? || t.Pending? || t.Gone?)
  }

  lemma ClosesExactly(s: State, st: Step, c: nat, early: bool)
    requires Inv(s) && Enabled(s, st) && ClosingOk(s, c, early)
    ensures ClosingOk(Apply(s, st), c,
                      early || (st.ClosePending? && c < |s.calls| && !s.calls[c].phase.Issued?))
  {
    if c < |s.calls| {
      assert CallOk(s, c, s.calls[c]) && LocalOk(s.lines, s.ctxDone, s.closed, c, s.calls[c]);
    }
  }

  lemma {:induction false} ClosingHistory(schedule: seq<Step>, c: nat)
    ensures ClosingOk(Exec(schedule), c, OpenAtClosing(schedule, c))
  {
    if schedule != [] {
      var before, st := schedule[..|schedule| - 1], schedule[|schedule| - 1];
      ClosingHistory(before, c);
      Invariant(before);
      if Enabled(Exec(before), st) {
        ClosesExactly(Exec(before), st, c, OpenAtClosing(before, c));
      }
    }
  }

  lemma NotifiesExactly(s: State, st: Step, c: nat)
    requires Enabled(s, st) && c in Apply(s, st).closing
    ensures st != Notify(c) && (c in s.closing || st.ClosePending?)
  {
  }

  // closePending is done with each call that it has notified.
  lemma {:induction false} NotifiedIsDone(schedule: seq<Step>, c: nat)
    ensures Happened(schedule, Notify(c)) ==> c !in Exec(schedule).closing && Exec(schedule).closed
  {
    if schedule != [] {
      var before, st := schedule[..|schedule| - 1], schedule[|schedule| - 1];
      NotifiedIsDone(before, c);
      Invariant(before);
      if Enabled(Exec(before), st) {
        ReadsExactly(Exec(before), st);
        if c in Apply(Exec(before), st).closing {
          NotifiesExactly(Exec(before), st, c);
        }
      }
    }
  }

  // Once closePending is done with it, a waiting request has a message exactly if it registered before and
  // its response was not dropped: everyone who can be woken is woken.
  lemma {:induction false} WokenExactly(schedule: seq<Step>, c: nat)
    requires var s := Exec(schedule);
             s.closed && c < |s.calls| && StillWaiting(s.calls[c]) && c !in s.closing
    ensures Exec(schedule).calls[c].ch.Full? <==> OpenAtClosing(schedule, c) && !DroppedFor(schedule, c)
  {
    Invariant(schedule);
    ClosingHistory(schedule, c);
    LostExactly(schedule, c);
    var s := Exec(schedule);
    assert CallOk(s, c, s.calls[c]) && LocalOk(s.lines, s.ctxDone, s.closed, c, s.calls[c]);
    assert forall n: nat :: s.calls[c].token == InHand(n) ==> s.hand == Routing(c, n);
    assert forall m: Message :: s.calls[c].ch == Full(m) <==> s.calls[c].token == InChan(m);
  }
}
