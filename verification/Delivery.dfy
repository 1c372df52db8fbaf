// The turn machine's output as the client's handler sees it.
module Delivery {
  import opened Pipeline
  import Turns
  import TR = TurnsResults
  import TF = TurnsFrames
  import TI = TurnsInvariant
  import TS = TurnsSteps
  import T = Transport

  // The TurnBegin and TurnEnd events among some lines that parse.
  function Marked(lines: seq<Wire>): seq<Turns.Entry> {
    if lines == [] then [] else Marked(lines[..|lines| - 1]) + MarkOf(lines[|lines| - 1])
  }

  function MarkOf(l: Wire): seq<Turns.Entry> {
    if l.Event? && l.wellFormed && (l.entry.Begin? || l.entry.End?) then [l.entry] else []
  }

  function Attempted(attempts: seq<Attempt>): seq<Wire> {
    if attempts == [] then [] else Attempted(attempts[..|attempts| - 1]) + [attempts[|attempts| - 1].line]
  }

  lemma MarkedThen(lines: seq<Wire>, l: Wire)
    ensures Marked(lines + [l]) == Marked(lines) + MarkOf(l)
  {
    assert (lines + [l])[..|lines|] == lines;
  }

  lemma {:induction false} MarkedPrefix(a: seq<Wire>, b: seq<Wire>)
    requires a <= b
    ensures Marked(a) <= Marked(b)
  {
    if a != b {
      MarkedPrefix(a, b[..|b| - 1]);
    }
  }

  lemma {:induction false} NoticesKeepMarks(lines: seq<Wire>)
    ensures Marked(Notices(lines)) == Marked(lines)
  {
    if lines != [] {
      var before, l := lines[..|lines| - 1], lines[|lines| - 1];
      NoticesKeepMarks(before);
      MarkedThen(Notices(before), l);
      assert Notices(before) + [] == Notices(before);
    }
  }

  lemma {:induction false} ParsedKeepsMarks(lines: seq<Wire>)
    ensures Marked(Parsed(lines)) == Marked(lines)
  {
    if lines != [] {
      var before, l := lines[..|lines| - 1], lines[|lines| - 1];
      ParsedKeepsMarks(before);
      MarkedThen(Parsed(before), l);
      assert Parsed(before) + [] == Parsed(before);
    }
  }

  // ---------------------------------------------------------------------------------------------
  // Writes that fail
  // ---------------------------------------------------------------------------------------------

  // One write of a TurnBegin or TurnEnd.
  datatype Mark = Mark(entry: Turns.Entry, written: bool)

  function MarkLog(attempts: seq<Attempt>): seq<Mark> {
    if attempts == [] then []
    else
      var a := attempts[|attempts| - 1];
      var m := MarkOf(a.line);
      MarkLog(attempts[..|attempts| - 1]) + if m == [] then [] else [Mark(m[0], a.outcome.Accepted?)]
  }

  function Entries(ms: seq<Mark>): (es: seq<Turns.Entry>)
    ensures |es| == |ms| && forall n | 0 <= n < |ms| :: es[n] == ms[n].entry
  {
    if ms == [] then [] else Entries(ms[..|ms| - 1]) + [ms[|ms| - 1].entry]
  }

  function Written(ms: seq<Mark>): seq<Turns.Entry> {
    if ms == [] then []
    else Written(ms[..|ms| - 1]) + if ms[|ms| - 1].written then [ms[|ms| - 1].entry] else []
  }

  lemma {:induction false} MarkLogSees(attempts: seq<Attempt>)
    ensures Entries(MarkLog(attempts)) == Marked(Attempted(attempts))
    ensures Written(MarkLog(attempts)) == Marked(Succeeded(attempts))
  {
    if attempts != [] {
      var before, a := attempts[..|attempts| - 1], attempts[|attempts| - 1];
      MarkLogSees(before);
      MarkedThen(Attempted(before), a.line);
      MarkLogThen(MarkLog(before), Succeeded(before), a);
    }
  }

  lemma MarkLogThen(ms: seq<Mark>, done: seq<Wire>, a: Attempt)
    requires Written(ms) == Marked(done)
    ensures var m := MarkOf(a.line);
            var more := ms + if m == [] then [] else [Mark(m[0], a.outcome.Accepted?)];
            && Entries(more) == Entries(ms) + m
            && Written(more) == Marked(done + if a.outcome.Accepted? then [a.line] else [])
  {
    var m := MarkOf(a.line);
    MarkedThen(done, a.line);
    if m == [] {
      assert ms + [] == ms && done + [] == done && Marked(done) + [] == Marked(done);
    } else {
      var more := ms + [Mark(m[0], a.outcome.Accepted?)];
      assert more[..|ms|] == ms && done + [] == done && Marked(done) + [] == Marked(done);
    }
  }

  // Every TurnEnd that is written follows its written TurnBegin, and a TurnBegin is the last thing written
  // or its TurnEnd is written: failures come in whole frames.
  ghost predicate WholeFrames(ms: seq<Mark>) {
    && (forall n: nat {:trigger ms[n].entry} | n < |ms| && ms[n].written && ms[n].entry.End? ::
          n > 0 && ms[n - 1].written)
    && (forall n: nat, m: nat {:trigger ms[n].entry, ms[m].written} |
          n < m < |ms| && ms[n].written && ms[n].entry.Begin? && ms[m].written :: ms[n + 1].written)
  }

  ghost predicate Distinct(es: seq<Turns.Entry>) {
    forall i: nat, j: nat | i < j < |es| :: es[i] != es[j]
  }

  // The last mark that was written.
  lemma {:induction false} LastWritten(ms: seq<Mark>) returns (n: nat)
    requires Written(ms) != []
    ensures n < |ms| && ms[n].written && Written(ms)[|Written(ms)| - 1] == ms[n].entry
    ensures forall m: nat | n < m < |ms| :: !ms[m].written
  {
    if ms[|ms| - 1].written {
      n := |ms| - 1;
    } else {
      n := LastWritten(ms[..|ms| - 1]);
    }
  }

  lemma {:induction false} NoneWritten(ms: seq<Mark>)
    requires Written(ms) == []
    ensures forall n: nat | n < |ms| :: !ms[n].written
  {
    if ms != [] {
      NoneWritten(ms[..|ms| - 1]);
    }
  }

  lemma AlternatingThenExactly(es: seq<Turns.Entry>, e: Turns.Entry)
    ensures TR.Alternating(es + [e]) <==>
            TR.Alternating(es) && if |es| % 2 == 0 then e.Begin? else e.End? && es[|es| - 1] == Turns.Begin(e.op)
  {
    var all := es + [e];
    if TR.Alternating(all) {
      assert es <= all;
      TF.AlternatingPrefix(es, all);
      assert all[|es|] == e && (es != [] ==> all[|es| - 1] == es[|es| - 1]);
    } else if TR.Alternating(es) && if |es| % 2 == 0 then e.Begin? else e.End? && es[|es| - 1] == Turns.Begin(e.op) {
      TR.AlternatingThen(es, e);
    }
  }

  lemma WrittenParity(w: seq<Turns.Entry>)
    requires TR.Alternating(w) && w != []
    ensures w[|w| - 1].Begin? <==> |w| % 2 == 1
  {
    var n: nat := |w| - 1;
    assert w[n].Begin? || w[n].End?;
  }

  // The new mark is written and the last one written before it is at n.
  lemma WholeFramesThen(ms: seq<Mark>, x: Mark, n: nat)
    requires x.written && n < |ms| && ms[n].written && (forall m: nat | n < m < |ms| :: !ms[m].written)
    ensures WholeFrames(ms + [x]) <==>
            && WholeFrames(ms) && (x.entry.End? ==> n == |ms| - 1) && (ms[n].entry.Begin? ==> n == |ms| - 1)
  {
    var all := ms + [x];
    assert all[|ms|] == x && forall m: nat | m < |ms| :: all[m] == ms[m];
    if WholeFrames(all) {
      assert ms[n].entry.Begin? ==> all[n + 1].written;
      assert x.entry.End? ==> all[|ms| - 1].written;
    }
  }

  lemma FirstWritten(ms: seq<Mark>, x: Mark)
    requires x.written && (forall m: nat | m < |ms| :: !ms[m].written)
    ensures WholeFrames(ms) && (WholeFrames(ms + [x]) <==> !x.entry.End?)
  {
    var all := ms + [x];
    assert all[|ms|] == x && forall m: nat | m < |ms| :: all[m] == ms[m];
    assert |ms| > 0 ==> !all[|ms| - 1].written;
  }

  lemma NotWritten(ms: seq<Mark>, x: Mark)
    requires !x.written
    ensures WholeFrames(ms + [x]) <==> WholeFrames(ms)
  {
    var all := ms + [x];
    assert all[|ms|] == x && forall m: nat | m < |ms| :: all[m] == ms[m];
  }

  lemma FramesThen(ms: seq<Mark>, x: Mark)
    requires TR.Alternating(Entries(ms + [x])) && Distinct(Entries(ms + [x]))
    requires TR.Alternating(Written(ms)) <==> WholeFrames(ms)
    ensures TR.Alternating(Written(ms + [x])) <==> WholeFrames(ms + [x])
  {
    var all, w := ms + [x], Written(ms);
    assert all[..|ms|] == ms && all[|ms|] == x && forall m: nat | m < |ms| :: all[m] == ms[m];
    var es := Entries(all);
    if !x.written {
      NotWritten(ms, x);
      assert Written(all) == w + [] && w + [] == w;
    } else {
      AlternatingThenExactly(w, x.entry);
      assert Written(all) == w + [x.entry] && es[|ms|] == x.entry;
      if w == [] {
        NoneWritten(ms);
        FirstWritten(ms, x);
      } else {
        var n := LastWritten(ms);
        WholeFramesThen(ms, x, n);
        assert es[n] == ms[n].entry == w[|w| - 1];
        if TR.Alternating(w) {
          WrittenParity(w);
        }
        assert x.entry.End? ==> es[|ms| - 1] == Turns.Begin(x.entry.op);
        assert x.entry.End? && n < |ms| - 1 ==> es[n] != es[|ms| - 1];
      }
    }
  }

  // What was written alternates exactly if the failures come in whole frames.
  lemma {:induction false} WrittenExactly(ms: seq<Mark>)
    requires TR.Alternating(Entries(ms)) && Distinct(Entries(ms))
    ensures TR.Alternating(Written(ms)) <==> WholeFrames(ms)
  {
    if ms != [] {
      var before, x := ms[..|ms| - 1], ms[|ms| - 1];
      assert ms == before + [x];
      TF.AlternatingPrefix(Entries(before), Entries(ms));
      assert forall i | 0 <= i < |before| :: Entries(before)[i] == Entries(ms)[i];
      WrittenExactly(before);
      FramesThen(before, x);
    }
  }

  lemma {:induction false} MarksDistinct(log: Turns.Log)
    requires Turns.CausalLog(log)
    ensures Distinct(TR.Marks(log, Turns.Free))
    ensures forall e | e in TR.Marks(log, Turns.Free) :: Turns.In(log, e)
  {
    if log.Then? {
      MarksDistinct(log.before);
    }
  }

  lemma StartsWithBegin(ms: seq<Mark>)
    requires TR.Alternating(Entries(ms)) && ms != []
    ensures ms[0].entry.Begin?
  {
    assert Entries(ms)[0] == ms[0].entry;
  }

  lemma WholeWhenAllWritten(ms: seq<Mark>)
    requires ms != [] ==> ms[0].entry.Begin?
    ensures (forall n: nat | n < |ms| :: ms[n].written) ==> WholeFrames(ms)
  {
  }

  // ---------------------------------------------------------------------------------------------
  // The turn machine and the pipeline in one run
  // ---------------------------------------------------------------------------------------------

  // What the turn machine writes goes into the pipeline, and the outcome of that write is the one the
  // machine goes on with.
  datatype Joint = Joint(server: Turns.State, pipeline: State)

  datatype Move = Serve(st: Turns.Step, ctxDone: bool, arm: T.Arm) | Pass(st': Step)

  // The client parses whatever the turn machine writes.
  function LineOf(e: Turns.Entry): Wire {
    if e.Reply? then Response(e.id) else Event(e, true)
  }

  predicate CanMove(j: Joint, m: Move) {
    match m
    case Serve(st, ctxDone, arm) =>
      && Turns.Enabled(j.server, st)
      && (st.EmitBegin? ==> st.ok == T.WriteOutcome(j.pipeline.pipe, ctxDone, arm).Accepted?)
    case Pass(st) => Enabled(j.pipeline, st) && (st.Write? ==> MarkOf(st.line) == [])
  }

  function WriteOf(server: Turns.State, ctxDone: bool, arm: T.Arm): Step {
    Write(if server.log.Then? then LineOf(server.log.last) else Garbage, ctxDone, arm)
  }

  function Moved(j: Joint, m: Move): Joint
    requires CanMove(j, m)
  {
    match m
    case Serve(st, ctxDone, arm) =>
      var server := Turns.Apply(j.server, st);
      Joint(server, if Turns.Loud(st) then Apply(j.pipeline, WriteOf(server, ctxDone, arm)) else j.pipeline)
    case Pass(st) => j.(pipeline := Apply(j.pipeline, st))
  }

  function Run(steerer: bool, replayer: bool, moves: seq<Move>): Joint {
    if moves == [] then Joint(Turns.Init(steerer, replayer), Init())
    else
      var j := Run(steerer, replayer, moves[..|moves| - 1]);
      var m := moves[|moves| - 1];
      if CanMove(j, m) then Moved(j, m) else j
  }

  lemma ExecNext(before: seq<Step>, st: Step)
    ensures Exec(before + [st]) == if Enabled(Exec(before), st) then Apply(Exec(before), st) else Exec(before)
  {
    assert (before + [st])[..|before|] == before;
  }

  // The joint run is a run of each of the two.
  lemma {:induction false} RunsOfBoth(steerer: bool, replayer: bool, moves: seq<Move>)
    returns (turns: seq<Turns.Step>, steps: seq<Step>)
    ensures Run(steerer, replayer, moves) == Joint(Turns.Exec(steerer, replayer, turns), Exec(steps))
  {
    turns, steps := [], [];
    if moves != [] {
      var before, m := moves[..|moves| - 1], moves[|moves| - 1];
      turns, steps := RunsOfBoth(steerer, replayer, before);
      var j := Run(steerer, replayer, before);
      if CanMove(j, m) {
        if m.Pass? {
          ExecNext(steps, m.st');
          steps := steps + [m.st'];
        } else {
          TS.ExecNext(steerer, replayer, turns, m.st);
          turns := turns + [m.st];
          var w := WriteOf(Turns.Apply(j.server, m.st), m.ctxDone, m.arm);
          ExecNext(steps, w);
          steps := if Turns.Loud(m.st) then steps + [w] else steps;
        }
      }
    }
  }

  // The TurnBegin and TurnEnd lines that were attempted are those of the machine's output.
  ghost predicate SameMarks(j: Joint) {
    Marked(Attempted(j.pipeline.attempts)) == TR.Marks(j.server.log, Turns.Free)
  }

  lemma WriteAttempted(s: State, line: Wire, ctxDone: bool, arm: T.Arm)
    ensures Marked(Attempted(Apply(s, Write(line, ctxDone, arm)).attempts)) ==
            Marked(Attempted(s.attempts)) + MarkOf(line)
  {
    var more := Apply(s, Write(line, ctxDone, arm)).attempts;
    assert more[..|s.attempts|] == s.attempts;
    MarkedThen(Attempted(s.attempts), line);
  }

  lemma OthersAttemptNothing(s: State, st: Step)
    requires Enabled(s, st) && !st.Write?
    ensures Apply(s, st).attempts == s.attempts
  {
  }

  lemma OneMoreEntry(log: Turns.Log)
    requires log.Then?
    ensures TR.Marks(log, Turns.Free) == TR.Marks(log.before, Turns.Free) + MarkOf(LineOf(log.last))
  {
    assert TR.Marks(log.before, Turns.Free) + [] == TR.Marks(log.before, Turns.Free);
  }

  lemma MoveKeepsMarks(j: Joint, m: Move)
    requires SameMarks(j) && CanMove(j, m)
    ensures SameMarks(Moved(j, m))
  {
    match m
    case Serve(st, ctxDone, arm) =>
      TS.LogStep(j.server, st);
      if Turns.Loud(st) {
        var log := Turns.Apply(j.server, st).log;
        OneMoreEntry(log);
        WriteAttempted(j.pipeline, LineOf(log.last), ctxDone, arm);
      }
    case Pass(st) =>
      if st.Write? {
        WriteAttempted(j.pipeline, st.line, st.ctxDone, st.arm);
        assert TR.Marks(j.server.log, Turns.Free) + [] == TR.Marks(j.server.log, Turns.Free);
      } else {
        OthersAttemptNothing(j.pipeline, st);
      }
  }

  lemma {:induction false} MarksAreTheSame(steerer: bool, replayer: bool, moves: seq<Move>)
    ensures SameMarks(Run(steerer, replayer, moves))
  {
    if moves != [] {
      var before, m := moves[..|moves| - 1], moves[|moves| - 1];
      MarksAreTheSame(steerer, replayer, before);
      if CanMove(Run(steerer, replayer, before), m) {
        MoveKeepsMarks(Run(steerer, replayer, before), m);
      }
    }
  }

  // The handler was given a prefix of the frames that were written.
  lemma {:induction false} HandledArePrefix(steps: seq<Step>)
    ensures Marked(Exec(steps).handled) <= Written(MarkLog(Exec(steps).attempts))
    ensures Entries(MarkLog(Exec(steps).attempts)) == Marked(Attempted(Exec(steps).attempts))
  {
    var p := Exec(steps);
    MarkLogSees(p.attempts);
    EndToEnd(steps);
    NoticesKeepMarks(Succeeded(p.attempts));
    ParsedKeepsMarks(p.consumed);
    MarkedPrefix(p.consumed, Notices(Succeeded(p.attempts)));
  }

  // With server, transport and client in one run: the handler is given a prefix of the frames that were
  // written. Up to clearActiveTurn, and later as long as the attempted writes alternate, those written
  // alternate exactly if failed writes took whole frames away, as they do in particular when none failed;
  // and then so does what the handler is given.
  lemma {:induction false} ClientSeesFraming(steerer: bool, replayer: bool, moves: seq<Move>)
    ensures var j := Run(steerer, replayer, moves); var ms := MarkLog(j.pipeline.attempts);
            && Entries(ms) == TR.Marks(j.server.log, Turns.Free)
            && Marked(j.pipeline.handled) <= Written(ms)
            && (!j.server.cleared ==> TR.Alternating(Entries(ms)))
            && (TR.Alternating(Entries(ms)) ==>
                  && (TR.Alternating(Written(ms)) <==> WholeFrames(ms))
                  && (WholeFrames(ms) ==> TR.Alternating(Marked(j.pipeline.handled)))
                  && ((forall n: nat | n < |ms| :: ms[n].written) ==> WholeFrames(ms)))
  {
    var j := Run(steerer, replayer, moves);
    var ms := MarkLog(j.pipeline.attempts);
    var turns, steps := RunsOfBoth(steerer, replayer, moves);
    MarksAreTheSame(steerer, replayer, moves);
    HandledArePrefix(steps);
    TI.Invariant(steerer, replayer, turns);
    TR.Framing(steerer, replayer, turns);
    MarksDistinct(j.server.log);
    if TR.Alternating(Entries(ms)) {
      WrittenExactly(ms);
      if ms != [] {
        StartsWithBegin(ms);
      }
      WholeWhenAllWritten(ms);
      if WholeFrames(ms) {
        TF.AlternatingPrefix(Marked(j.pipeline.handled), Written(ms));
      }
    }
  }

  // ---------------------------------------------------------------------------------------------
  // A TurnEnd without its TurnBegin
  // ---------------------------------------------------------------------------------------------

  lemma {:induction false} RunNext(steerer: bool, replayer: bool, before: seq<Move>, m: Move)
    ensures var j := Run(steerer, replayer, before);
            Run(steerer, replayer, before + [m]) == if CanMove(j, m) then Moved(j, m) else j
  {
    assert (before + [m])[..|before|] == before;
  }

  // A step of the server that writes nothing.
  lemma {:induction false} Quiet(before: seq<Move>, st: Turns.Step) returns (moves: seq<Move>)
    requires Turns.Enabled(Run(false, false, before).server, st) && !Turns.Loud(st)
    ensures var j := Run(false, false, before);
            Run(false, false, moves) == j.(server := Turns.Apply(j.server, st))
  {
    RunNext(false, false, before, Serve(st, false, T.FromChannel));
    moves := before + [Serve(st, false, T.FromChannel)];
  }

  // A step that writes, with a live context.
  lemma {:induction false} Wrote(before: seq<Move>, st: Turns.Step) returns (moves: seq<Move>)
    requires var j := Run(false, false, before);
             && Turns.Enabled(j.server, st) && Turns.Loud(st)
             && (st.EmitBegin? ==> st.ok == T.WriteOutcome(j.pipeline.pipe, false, T.FromChannel).Accepted?)
    ensures var j := Run(false, false, before); var server := Turns.Apply(j.server, st);
            Run(false, false, moves) == Joint(server, Apply(j.pipeline, WriteOf(server, false, T.FromChannel)))
  {
    RunNext(false, false, before, Serve(st, false, T.FromChannel));
    moves := before + [Serve(st, false, T.FromChannel)];
  }

  // n lines lie in the transport, and the marks are ms.
  predicate Lying(p: State, n: nat, ms: seq<Mark>) {
    |p.pipe.buf| == n && !p.pipe.closed && MarkLog(p.attempts) == ms
  }

  // The line is written if there is room.
  lemma Lands(p: State, line: Wire, n: nat, ms: seq<Mark>)
    requires Lying(p, n, ms) && n <= T.CAPACITY
    ensures var p', m := Apply(p, Write(line, false, T.FromChannel)), MarkOf(line);
            && Lying(p', if n < T.CAPACITY then n + 1 else n, ms + if m == [] then [] else [Mark(m[0], n < T.CAPACITY)])
            && p'.reader == p.reader
  {
    var more := Apply(p, Write(line, false, T.FromChannel)).attempts;
    assert more[..|p.attempts|] == p.attempts;
  }

  // The server with the message m, when the dispatcher is at d.
  predicate Served(s: Turns.State, m: Turns.Msg, d: Turns.Dispatcher) {
    s == Turns.Init(false, false).(accepted := [m], owner := [Turns.Free], dispatcher := d, log := s.log)
  }

  // The call of its handler into the agent emits n events.
  lemma {:induction false} Emitted(m: Turns.Msg, n: nat) returns (moves: seq<Move>)
    requires m.verb.InPlace? && n <= T.CAPACITY
    ensures var j := Run(false, false, moves);
            Served(j.server, m, Turns.Handling(0)) && Lying(j.pipeline, n, []) && j.pipeline.reader.Reading?
  {
    if n == 0 {
      moves := Quiet([], Turns.Enqueue(m));
      moves := Quiet(moves, Turns.Receive);
    } else {
      moves := Emitted(m, n - 1);
      Lands(Run(false, false, moves).pipeline, LineOf(Turns.HandlerEvent(0)), n - 1, []);
      moves := Wrote(moves, Turns.EmitFromHandler);
    }
  }

  // The transport is full when the message is answered.
  lemma Answered(m: Turns.Msg) returns (moves: seq<Move>)
    requires m.verb.InPlace?
    ensures var j := Run(false, false, moves);
            Served(j.server, m, Turns.Idle) && Lying(j.pipeline, T.CAPACITY, []) && j.pipeline.reader.Reading?
  {
    moves := Emitted(m, T.CAPACITY);
    moves := Quiet(moves, Turns.RunHandler(Turns.InPlaceResult));
    var reply := Turns.Reply(0, m.id, Turns.InPlaceResult, Turns.Handler);
    Lands(Run(false, false, moves).pipeline, LineOf(reply), T.CAPACITY, []);
    moves := Wrote(moves, Turns.WriteAnswer);
  }

  // The prompt p begins as the only operation.
  predicate PromptDue(s: Turns.State, m: Turns.Msg, p: Turns.Msg) {
    s == Turns.Init(false, false).(accepted := [m, p], owner := [Turns.Free, Turns.Taken(0)],
                                   dispatcher := Turns.Beginning(0), ops := [Turns.NewOp(Turns.Turn, 1)],
                                   activeTurn := Turns.Taken(0), activeOp := Turns.Taken(0), log := s.log)
  }

  lemma PromptTaken(m: Turns.Msg, p: Turns.Msg) returns (moves: seq<Move>)
    requires m.verb.InPlace? && p.verb.Prompt? && p.wellFormed
    ensures var j := Run(false, false, moves);
            PromptDue(j.server, m, p) && Lying(j.pipeline, T.CAPACITY, []) && j.pipeline.reader.Reading?
  {
    moves := Answered(m);
    moves := Quiet(moves, Turns.Enqueue(p));
    moves := Quiet(moves, Turns.Receive);
    moves := Quiet(moves, Turns.RunHandler(Turns.InPlaceResult));
  }

  // The write of TurnBegin fails, and the client reads a line.
  lemma BeginFails(m: Turns.Msg, p: Turns.Msg) returns (moves: seq<Move>)
    requires m.verb.InPlace? && p.verb.Prompt? && p.wellFormed
    ensures var j := Run(false, false, moves);
            && Turns.Enabled(j.server, Turns.TurnEnds(0)) && !j.server.readDone && !j.server.ctxDone
            && Lying(j.pipeline, T.CAPACITY - 1, [Mark(Turns.Begin(0), false)])
  {
    moves := PromptTaken(m, p);
    Lands(Run(false, false, moves).pipeline, LineOf(Turns.Begin(0)), T.CAPACITY, []);
    moves := Wrote(moves, Turns.EmitBegin(false, Turns.Failed(0, false)));
    RunNext(false, false, moves, Pass(ReadLine(T.FromChannel)));
    moves := moves + [Pass(ReadLine(T.FromChannel))];
  }

  // Long before shutdown, with a client that reads slowly: the write of TurnBegin finds the transport full,
  // and after the client has read a line the write of TurnEnd succeeds.
  lemma OrphanTurnEnd(m: Turns.Msg, p: Turns.Msg) returns (moves: seq<Move>)
    requires m.verb.InPlace? && p.verb.Prompt? && p.wellFormed
    ensures var j := Run(false, false, moves); var ms := MarkLog(j.pipeline.attempts);
            && !j.server.readDone && !j.server.ctxDone
            && Written(ms) == [Turns.End(0)] && !TR.Alternating(Written(ms)) && !WholeFrames(ms)
  {
    moves := BeginFails(m, p);
    var before: seq<Mark> := [Mark(Turns.Begin(0), false)];
    Lands(Run(false, false, moves).pipeline, LineOf(Turns.End(0)), T.CAPACITY - 1, before);
    moves := Wrote(moves, Turns.TurnEnds(0));
    var ms := MarkLog(Run(false, false, moves).pipeline.attempts);
    assert ms == before + [Mark(Turns.End(0), true)];
    assert ms[..1] == before && Written(before) == [];
    assert ms[1].entry.End?;
  }
}
