// What the reader and the Dispatch loop of the client do, told by the steps that were taken.
module PipelineHistory {
  import opened Pipeline
  import T = Transport

  // The step was taken at some point of the schedule.
  ghost predicate Happened(schedule: seq<Step>, st: Step) {
    && schedule != []
    && var before, last := schedule[..|schedule| - 1], schedule[|schedule| - 1];
       Happened(before, st) || (last == st && Enabled(Exec(before), st))
  }

  // ---------------------------------------------------------------------------------------------
  // The Dispatch loop
  // ---------------------------------------------------------------------------------------------

  // The handler returned while a request was in hand.
  predicate AnswersRequest(s: State, st: Step) {
    Enabled(s, st) && st.Handled? && s.dispatcher.line.Request?
  }

  // Whether it returned without error, for each request in turn.
  ghost function Verdicts(schedule: seq<Step>): seq<bool> {
    if schedule == [] then []
    else
      var before, st := schedule[..|schedule| - 1], schedule[|schedule| - 1];
      Verdicts(before) + if AnswersRequest(Exec(before), st) then [st.ok] else []
  }

  ghost predicate SameVerdicts(replies: seq<Reply>, verdicts: seq<bool>) {
    |replies| == |verdicts| && forall n | 0 <= n < |replies| :: replies[n].ok == verdicts[n]
  }

  lemma RepliesNext(s: State, st: Step)
    requires Enabled(s, st)
    ensures Apply(s, st).replies ==
        s.replies + if AnswersRequest(s, st) then [Reply(s.dispatcher.line.id, st.ok)] else []
  {
  }

  // The n-th reply is a result exactly if the handler returned without error for the n-th request it was
  // given, and an error exactly if not.
  lemma {:induction false} VerdictsExactly(schedule: seq<Step>)
    ensures SameVerdicts(Exec(schedule).replies, Verdicts(schedule))
  {
    if schedule != [] {
      VerdictsExactly(schedule[..|schedule| - 1]);
      var s, st := Exec(schedule[..|schedule| - 1]), schedule[|schedule| - 1];
      if Enabled(s, st) {
        RepliesNext(s, st);
      }
    }
  }

  // The handler failed on an event, or the reply to a request could not be sent.
  predicate Fails(s: State, st: Step) {
    Enabled(s, st) && st.Handled? && if s.dispatcher.line.Request? then !st.sent else !st.ok
  }

  ghost predicate Failed(schedule: seq<Step>) {
    && schedule != []
    && var before, st := schedule[..|schedule| - 1], schedule[|schedule| - 1];
       Failed(before) || Fails(Exec(before), st)
  }

  lemma HandledNext(s: State, st: Step)
    requires Enabled(s, st) && st.Handled?
    ensures Apply(s, st).dispatcher == if Fails(s, st) then Ended(false) else Selecting
  {
  }

  lemma DispatchNext(s: State, st: Step)
    requires Enabled(s, st)
    ensures Apply(s, st).dispatcher.Ended? <==> s.dispatcher.Ended? || st.SeeClosed? || st.SeeContext? || Fails(s, st)
    ensures Apply(s, st).dispatcher == Ended(true) <==> s.dispatcher == Ended(true) || st.SeeClosed?
  {
    if st.Handled? {
      HandledNext(s, st);
    }
  }

  // Dispatch has returned exactly if it saw the closed channel or its context, the handler failed on an event
  // or a reply could not be sent: an error of the handler on a request does not end it.
  lemma {:induction false} EndedExactly(schedule: seq<Step>)
    ensures Exec(schedule).dispatcher.Ended? <==>
        Happened(schedule, SeeClosed) || Happened(schedule, SeeContext) || Failed(schedule)
    ensures Exec(schedule).dispatcher == Ended(true) <==> Happened(schedule, SeeClosed)
  {
    if schedule != [] {
      EndedExactly(schedule[..|schedule| - 1]);
      var s, st := Exec(schedule[..|schedule| - 1]), schedule[|schedule| - 1];
      if Enabled(s, st) {
        DispatchNext(s, st);
      }
    }
  }

  // ---------------------------------------------------------------------------------------------
  // The reader
  // ---------------------------------------------------------------------------------------------

  // The read saw the end of the stream.
  predicate SeesEnd(s: State, st: Step) {
    Enabled(s, st) && st == ReadLine(T.FromChannel) && s.pipe.buf == []
  }

  // The reader leaves: a failed read, a line that is not JSON, or stopCh while it holds a message.
  predicate Leaves(s: State, st: Step) {
    && Enabled(s, st)
    && (|| (st.ReadLine? && (st.arm.FromChannel? && s.pipe.buf != [] ==> s.pipe.buf[0].Garbage?))
        || st.ForwardStopped? || st.CorrelateStopped?)
  }

  ghost predicate HasLeft(schedule: seq<Step>) {
    && schedule != []
    && var before, st := schedule[..|schedule| - 1], schedule[|schedule| - 1];
       HasLeft(before) || Leaves(Exec(before), st)
  }

  ghost predicate SawEnd(schedule: seq<Step>) {
    && schedule != []
    && var before, st := schedule[..|schedule| - 1], schedule[|schedule| - 1];
       SawEnd(before) || SeesEnd(Exec(before), st)
  }

  predicate IsGone(r: Reader) {
    r.Leaving? || r.Exited?
  }

  lemma ReadNext(s: State, st: Step)
    requires Enabled(s, st) && st.ReadLine? && !s.atEnd
    ensures IsGone(Apply(s, st).reader) <==> Leaves(s, st)
    ensures Apply(s, st).atEnd <==> SeesEnd(s, st)
  {
  }

  lemma ReaderNext(s: State, st: Step)
    requires Enabled(s, st) && (s.atEnd ==> IsGone(s.reader))
    ensures IsGone(Apply(s, st).reader) <==> IsGone(s.reader) || Leaves(s, st)
    ensures Apply(s, st).atEnd <==> s.atEnd || SeesEnd(s, st)
    ensures Apply(s, st).queueClosed <==> s.queueClosed || st.CloseQueue?
  {
    if st.ReadLine? {
      ReadNext(s, st);
    }
  }

  // The reader has left exactly if one of these happened; an unknown method, a response or a message that the
  // handler cannot parse do not make it leave.
  lemma {:induction false} LeftExactly(schedule: seq<Step>)
    ensures IsGone(Exec(schedule).reader) <==> HasLeft(schedule)
    ensures Exec(schedule).atEnd <==> SawEnd(schedule)
    ensures Exec(schedule).atEnd ==> IsGone(Exec(schedule).reader)
    ensures Exec(schedule).queueClosed <==> Happened(schedule, CloseQueue)
  {
    if schedule != [] {
      LeftExactly(schedule[..|schedule| - 1]);
      var s, st := Exec(schedule[..|schedule| - 1]), schedule[|schedule| - 1];
      if Enabled(s, st) {
        ReaderNext(s, st);
      }
    }
  }

  // The last step of the reader, which says what it is doing ...
  predicate OfReader(st: Step) {
    || st.ReadLine? || st.Forward? || st.ForwardStopped? || st.Correlated? || st.CorrelateStopped? || st.CloseQueue?
  }

  ghost function LastOfReader(schedule: seq<Step>): Step {
    if schedule == [] then Forward
    else
      var before, st := schedule[..|schedule| - 1], schedule[|schedule| - 1];
      if OfReader(st) && Enabled(Exec(before), st) then st else LastOfReader(before)
  }

  // ... and how often each step was taken.
  ghost function Times(schedule: seq<Step>, forward: bool): nat {
    if schedule == [] then 0
    else
      var before, st := schedule[..|schedule| - 1], schedule[|schedule| - 1];
      Times(before, forward)
          + if (if forward then st.Forward? else st.TakeNext?) && Enabled(Exec(before), st) then 1 else 0
  }

  lemma HoldsNext(s: State, st: Step)
    requires Enabled(s, st)
    ensures var r := Apply(s, st).reader;
            if !OfReader(st) then r == s.reader
            else
              && (r.Exited? <==> st.CloseQueue?) && (r.Forwarding? || r.Correlating? ==> st.ReadLine?)
              && (st.Forward? || st.Correlated? ==> r.Reading?)
              && (st.ReadLine? && r.Forwarding? ==> s.pipe.buf != [] && r.line == s.pipe.buf[0])
  {
  }

  // The reader holds a message or a response only from when it read it until it passed it on or left.
  lemma {:induction false} ReaderExactly(schedule: seq<Step>)
    ensures var r, last := Exec(schedule).reader, LastOfReader(schedule);
            && (r.Forwarding? || r.Correlating? ==> last.ReadLine?)
            && (last.Forward? || last.Correlated? ==> r.Reading?)
            && (last.CloseQueue? <==> r.Exited?)
  {
    if schedule != [] {
      ReaderExactly(schedule[..|schedule| - 1]);
      var s, st := Exec(schedule[..|schedule| - 1]), schedule[|schedule| - 1];
      if Enabled(s, st) {
        HoldsNext(s, st);
      }
    }
  }

  lemma CountsNext(s: State, st: Step)
    requires Enabled(s, st)
    ensures var s' := Apply(s, st);
            && |s'.consumed| == |s.consumed| + (if st.TakeNext? then 1 else 0)
            && |s'.consumed| + |s'.queue| == |s.consumed| + |s.queue| + (if st.Forward? then 1 else 0)
  {
  }

  // One message goes into dispatchCh with each Forward, and comes out with each TakeNext.
  lemma {:induction false} CountsExactly(schedule: seq<Step>)
    ensures var s := Exec(schedule);
            |s.consumed| == Times(schedule, false) && |s.consumed| + |s.queue| == Times(schedule, true)
  {
    if schedule != [] {
      CountsExactly(schedule[..|schedule| - 1]);
      var s, st := Exec(schedule[..|schedule| - 1]), schedule[|schedule| - 1];
      if Enabled(s, st) {
        CountsNext(s, st);
      }
    }
  }

  // The lines that were to be written, in the order of writeMu.
  ghost function Lines(schedule: seq<Step>): seq<Wire> {
    if schedule == [] then []
    else
      var before, st := schedule[..|schedule| - 1], schedule[|schedule| - 1];
      Lines(before) + if st.Write? then [st.line] else []
  }

  function LinesOf(attempts: seq<Attempt>): seq<Wire> {
    if attempts == [] then [] else LinesOf(attempts[..|attempts| - 1]) + [attempts[|attempts| - 1].line]
  }

  lemma WritesNext(s: State, st: Step)
    requires Enabled(s, st)
    ensures var s' := Apply(s, st);
            if st.Write? then |s'.attempts| == |s.attempts| + 1 && s'.attempts[..|s.attempts|] == s.attempts
                && s'.attempts[|s.attempts|].line == st.line
            else s'.attempts == s.attempts
    ensures Apply(s, st).pipe.closed <==> s.pipe.closed || st.CloseServer?
    ensures Apply(s, st).stopped <==> s.stopped || st.Stop?
    ensures Apply(s, st).clientClosed <==> s.clientClosed || st.CloseClient?
  {
  }

  // Every write is attempted, once and in order.
  lemma {:induction false} AttemptsExactly(schedule: seq<Step>)
    ensures LinesOf(Exec(schedule).attempts) == Lines(schedule)
  {
    if schedule != [] {
      AttemptsExactly(schedule[..|schedule| - 1]);
      var s, st := Exec(schedule[..|schedule| - 1]), schedule[|schedule| - 1];
      if Enabled(s, st) {
        WritesNext(s, st);
      }
    }
  }

  lemma {:induction false} ClosedExactly(schedule: seq<Step>)
    ensures Exec(schedule).pipe.closed <==> Happened(schedule, CloseServer)
    ensures Exec(schedule).stopped <==> Happened(schedule, Stop)
    ensures Exec(schedule).clientClosed <==> Happened(schedule, CloseClient)
  {
    if schedule != [] {
      ClosedExactly(schedule[..|schedule| - 1]);
      var s, st := Exec(schedule[..|schedule| - 1]), schedule[|schedule| - 1];
      if Enabled(s, st) {
        WritesNext(s, st);
      }
    }
  }
}
