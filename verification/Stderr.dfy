// The stderr logger of a child process: logStderr and flushRedacted of transport/transport_process.go.
// A key block is passed to the redactor in one piece, so the lines from a BEGIN line to the END line
// have to be found while the stream is still being read. The BEGIN and END tests and the redactor are
// parameters.
module Stderr {
  import opened Splitting

  datatype Marks = Marks(begin: string -> bool, end: string -> bool)

  // What is redacted in one call.
  datatype Chunk = Line(text: string) | Block(lines: seq<string>)

  // ---------------------------------------------------------------------------------------------
  // The chunks of a list of lines
  // ---------------------------------------------------------------------------------------------

  // The number of lines before the first END line.
  function BeforeEnd(p: seq<string>, m: Marks): (k: nat)
    ensures k <= |p| && (k < |p| ==> m.end(p[k]))
    ensures forall i | 0 <= i < k :: !m.end(p[i])
  {
    if p == [] || m.end(p[0]) then 0 else 1 + BeforeEnd(p[1..], m)
  }

  function Chunks(p: seq<string>, m: Marks): seq<Chunk> {
    if p == [] then []
    else if !m.begin(p[0]) then [Line(p[0])] + Chunks(p[1..], m)
    else if BeforeEnd(p, m) == |p| then [Block(p)]
    else [Block(p[..BeforeEnd(p, m) + 1])] + Chunks(p[BeforeEnd(p, m) + 1..], m)
  }

  function Lines(c: Chunk): seq<string> {
    match c
    case Line(text) => [text]
    case Block(lines) => lines
  }

  function Flatten(cs: seq<Chunk>): seq<string> {
    if cs == [] then [] else Lines(cs[0]) + Flatten(cs[1..])
  }

  // A single line without BEGIN, a BEGIN line through the first END line at or after it, or, at the
  // end of the stream only, a BEGIN line after which no END line came.
  ghost predicate Shape(c: Chunk, last: bool, m: Marks) {
    match c
    case Line(text) => !m.begin(text)
    case Block(lines) =>
      && lines != [] && m.begin(lines[0])
      && (forall i | 0 <= i < |lines| - 1 :: !m.end(lines[i]))
      && (last || m.end(lines[|lines| - 1]))
  }

  ghost predicate Chunking(cs: seq<Chunk>, p: seq<string>, m: Marks) {
    Flatten(cs) == p && forall i | 0 <= i < |cs| :: Shape(cs[i], i == |cs| - 1, m)
  }

  lemma {:induction false} ChunksAreChunking(p: seq<string>, m: Marks)
    ensures Chunking(Chunks(p, m), p, m)
  {
    if p != [] {
      var k := if m.begin(p[0]) then BeforeEnd(p, m) else 0;
      if k < |p| {
        ChunksAreChunking(p[k + 1..], m);
        var c := if m.begin(p[0]) then Block(p[..k + 1]) else Line(p[0]);
        assert p == Lines(c) + p[k + 1..];
        OneMoreChunk(c, Chunks(p[k + 1..], m), p[k + 1..], m);
      } else {
        assert [Block(p)][1..] == [] && p + [] == p;
      }
    }
  }

  lemma OneMoreChunk(c: Chunk, cs: seq<Chunk>, p: seq<string>, m: Marks)
    requires Shape(c, false, m) && Chunking(cs, p, m)
    ensures Chunking([c] + cs, Lines(c) + p, m)
  {
    var all := [c] + cs;
    assert all[1..] == cs;
    forall i | 0 <= i < |all| ensures Shape(all[i], i == |all| - 1, m) {
      if i > 0 {
        assert all[i] == cs[i - 1] && Shape(cs[i - 1], i - 1 == |cs| - 1, m);
      }
    }
  }

  // There is only one way to cut a stream into chunks of these shapes.
  lemma {:induction false} OneChunking(cs: seq<Chunk>, p: seq<string>, m: Marks)
    requires Chunking(cs, p, m)
    ensures cs == Chunks(p, m)
  {
    if cs != [] {
      var c, rest := cs[0], cs[1..];
      assert Shape(c, |cs| == 1, m);
      assert p == Lines(c) + Flatten(rest);
      assert forall i | 0 <= i < |rest| :: rest[i] == cs[i + 1];
      OneChunking(rest, Flatten(rest), m);
      var n := |Lines(c)|;
      assert p[n..] == Flatten(rest) && p[..n] == Lines(c);
      assert forall i | 0 <= i < n :: p[i] == Lines(c)[i];
      if c.Block? {
        var k := BeforeEnd(p, m);
        assert k >= n - 1;
        if k == n - 1 {
          assert p[..k + 1] == c.lines;
        } else {
          assert !m.end(c.lines[n - 1]);
          assert rest == [] && Flatten(rest) == [];
          assert p == c.lines;
        }
      }
      assert cs == [c] + rest;
    }
  }

  lemma ChunkingExactly(cs: seq<Chunk>, p: seq<string>, m: Marks)
    ensures Chunking(cs, p, m) <==> cs == Chunks(p, m)
  {
    ChunksAreChunking(p, m);
    if Chunking(cs, p, m) {
      OneChunking(cs, p, m);
    }
  }

  // ---------------------------------------------------------------------------------------------
  // What is logged
  // ---------------------------------------------------------------------------------------------

  // The empty fragment after the last line end is not logged, unless a block is still open.
  function DropEmpty(cs: seq<Chunk>): seq<Chunk> {
    if cs != [] && cs[|cs| - 1] == Line("") then cs[..|cs| - 1] else cs
  }

  function Logged(p: seq<string>, m: Marks): seq<Chunk> {
    DropEmpty(Chunks(p, m))
  }

  function Print(c: Chunk, redact: string -> string): seq<string> {
    match c
    case Line(text) => [redact(text)]
    case Block(lines) => Fields(redact(Join(lines, '\n')), '\n')
  }

  function PrintAll(cs: seq<Chunk>, redact: string -> string): seq<string> {
    if cs == [] then [] else PrintAll(cs[..|cs| - 1], redact) + Print(cs[|cs| - 1], redact)
  }

  // What is logged for one chunk: the redacted line, or the redacted text of the whole block, which is cut
  // into lines again.
  ghost predicate Piece(piece: seq<string>, c: Chunk, redact: string -> string) {
    match c
    case Line(text) => piece == [redact(text)]
    case Block(lines) => piece != [] && Whole(piece, '\n') && Join(piece, '\n') == redact(Join(lines, '\n'))
  }

  // The log is made of one such piece for each chunk, in order.
  ghost predicate Redacted(log: seq<string>, cs: seq<Chunk>, redact: string -> string)
    decreases cs
  {
    if cs == [] then log == []
    else
      exists n: nat ::
        n <= |log| && Redacted(log[..n], cs[..|cs| - 1], redact) && Piece(log[n..], cs[|cs| - 1], redact)
  }

  lemma PieceExactly(piece: seq<string>, c: Chunk, redact: string -> string)
    ensures Piece(piece, c, redact) <==> piece == Print(c, redact)
  {
    if c.Block? {
      FieldsJoin(redact(Join(c.lines, '\n')), '\n');
      if Piece(piece, c, redact) {
        JoinFields(piece, '\n');
      }
    }
  }

  // There is only one such log.
  lemma {:induction false} RedactedExactly(log: seq<string>, cs: seq<Chunk>, redact: string -> string)
    ensures Redacted(log, cs, redact) <==> log == PrintAll(cs, redact)
    decreases cs
  {
    if cs != [] {
      var before, c := cs[..|cs| - 1], cs[|cs| - 1];
      if log == PrintAll(cs, redact) {
        var n := |PrintAll(before, redact)|;
        assert log[..n] == PrintAll(before, redact) && log[n..] == Print(c, redact);
        RedactedExactly(log[..n], before, redact);
        PieceExactly(log[n..], c, redact);
      }
      if Redacted(log, cs, redact) {
        var n: nat :| n <= |log| && Redacted(log[..n], before, redact) && Piece(log[n..], c, redact);
        RedactedExactly(log[..n], before, redact);
        PieceExactly(log[n..], c, redact);
        assert log == log[..n] + log[n..];
      }
    }
  }

  // With a redactor that answers x to everything, nothing but x is logged, once per chunk.
  lemma {:induction false} ConstantRedactor(cs: seq<Chunk>, redact: string -> string, x: string)
    requires '\n' !in x && forall t: string :: redact(t) == x
    ensures |PrintAll(cs, redact)| == |cs| && forall i | 0 <= i < |cs| :: PrintAll(cs, redact)[i] == x
  {
    if cs != [] {
      ConstantRedactor(cs[..|cs| - 1], redact, x);
      OneField(x, '\n');
    }
  }

  // An open block: a BEGIN line and no END line yet.
  ghost predicate Open(accum: seq<string>, m: Marks) {
    accum != [] && m.begin(accum[0]) && forall i | 0 <= i < |accum| :: !m.end(accum[i])
  }

  lemma Later(c: Chunk, p: seq<string>, m: Marks)
    ensures p != [] ==> DropEmpty([c] + Chunks(p, m)) == [c] + Logged(p, m)
    ensures p == [] && c != Line("") ==> DropEmpty([c] + Chunks(p, m)) == [c] + Logged(p, m)
  {
    var cs := Chunks(p, m);
    if cs != [] {
      assert ([c] + cs)[..|cs|] == [c] + cs[..|cs| - 1];
    }
  }

  // An ordinary line.
  lemma LoggedLine(t: string, rest: seq<string>, m: Marks)
    requires !m.begin(t)
    ensures t != "" || rest != [] ==> Logged([t] + rest, m) == [Line(t)] + Logged(rest, m)
    ensures t == "" && rest == [] ==> Logged([t] + rest, m) == Logged(rest, m)
  {
    assert ([t] + rest)[1..] == rest;
    Later(Line(t), rest, m);
  }

  // The END line of an open block, or a line that is BEGIN and END at once.
  lemma LoggedBlock(accum: seq<string>, t: string, rest: seq<string>, m: Marks)
    requires m.end(t) && if accum == [] then m.begin(t) else Open(accum, m)
    ensures Logged(accum + [t] + rest, m) == [Block(accum + [t])] + Logged(rest, m)
  {
    var p := accum + [t] + rest;
    var k := BeforeEnd(p, m);
    assert forall i | 0 <= i < |accum| :: p[i] == accum[i];
    assert p[|accum|] == t;
    assert k == |accum|;
    assert p[..k + 1] == accum + [t] && p[k + 1..] == rest;
    Later(Block(accum + [t]), rest, m);
  }

  // A block that is open when the stream ends.
  lemma LoggedOpen(accum: seq<string>, m: Marks)
    requires Open(accum, m)
    ensures Logged(accum, m) == [Block(accum)]
  {
  }

  // ---------------------------------------------------------------------------------------------
  // The loop
  // ---------------------------------------------------------------------------------------------

  // The line ends cut the stream into fields; one read takes one field off.
  lemma ReadField(text: string, pos: nat, n: nat)
    requires pos + n <= |text| && '\n' !in text[pos..pos + n] && (pos + n < |text| ==> text[pos + n] == '\n')
    ensures Fields(text[pos..], '\n') ==
            [text[pos..pos + n]] + if pos + n == |text| then [] else Fields(text[pos + n + 1..], '\n')
  {
    var t := text[pos..pos + n];
    if pos + n == |text| {
      assert text[pos..] == t;
      OneField(t, '\n');
    } else {
      assert text[pos..] == t + ['\n'] + text[pos + n + 1..];
      FirstField(t, text[pos + n + 1..], '\n');
    }
  }

  lemma PrintOne(cs: seq<Chunk>, c: Chunk, redact: string -> string)
    ensures PrintAll(cs + [c], redact) == PrintAll(cs, redact) + Print(c, redact)
  {
    assert (cs + [c])[..|cs|] == cs;
  }

  // strings.TrimSuffix(line, "\n")
  function TrimEnd(line: string): string {
    if line != "" && line[|line| - 1] == '\n' then line[..|line| - 1] else line
  }

  // bufio's ReadString('\n'): the bytes from pos through the next line end, or what is left. One read
  // takes one field off the stream.
  method ReadString(text: string, pos: nat) returns (line: string, err: bool, end: nat)
    requires pos <= |text|
    ensures pos <= end <= |text| && (!err ==> pos < end)
    ensures line == if err then TrimEnd(line) else TrimEnd(line) + "\n"
    ensures Fields(text[pos..], '\n') == [TrimEnd(line)] + if err then [] else Fields(text[end..], '\n')
  {
    end := pos;
    while end < |text| && text[end] != '\n'
      invariant pos <= end <= |text| && '\n' !in text[pos..end]
    {
      end := end + 1;
    }
    ReadField(text, pos, end - pos);
    line := text[pos..end];
    err := end == |text|;
    if err {
      NotTrimmed(line);
    } else {
      Trimmed(line);
      line := line + "\n";
      end := end + 1;
    }
  }

  lemma NotTrimmed(t: string)
    requires '\n' !in t
    ensures TrimEnd(t) == t
  {
  }

  lemma Trimmed(t: string)
    ensures TrimEnd(t + "\n") == t
  {
    assert (t + "\n")[..|t|] == t;
  }

  method FlushRedacted(lines: seq<string>, redact: string -> string, log: seq<string>) returns (log': seq<string>)
    ensures log' == log + Print(Block(lines), redact)
    ensures Piece(log'[|log|..], Block(lines), redact)
  {
    var out := Fields(redact(Join(lines, '\n')), '\n');
    log' := log;
    var i := 0;
    while i < |out|
      invariant i <= |out| && log' == log + out[..i]
    {
      log' := log' + [out[i]];
      i := i + 1;
    }
    assert out[..i] == out && log'[|log|..] == out;
    PieceExactly(out, Block(lines), redact);
  }

  lemma Also(done: seq<Chunk>, c: Chunk, rest: seq<Chunk>, redact: string -> string)
    ensures PrintAll(done + [c], redact) == PrintAll(done, redact) + Print(c, redact)
    ensures done + ([c] + rest) == done + [c] + rest
  {
    PrintOne(done, c, redact);
  }

  // One pass of the loop, up to the test for the end of the stream. The chunks redacted so far are
  // done, the lines still to come are rest.
  method TakeLine(line: string, trimmed: string, m: Marks, redact: string -> string, inBlock: bool, accum: seq<string>,
                  log: seq<string>, ghost done: seq<Chunk>, ghost ahead: seq<string>, ghost rest: seq<string>)
    returns (inBlock': bool, accum': seq<string>, log': seq<string>, ghost done': seq<Chunk>)
    requires if inBlock then Open(accum, m) else accum == []
    requires line == if rest == [] then trimmed else trimmed + "\n"
    requires ahead == [trimmed] + rest
    requires log == PrintAll(done, redact)
    ensures if inBlock' then Open(accum', m) else accum' == []
    ensures done + Logged(accum + ahead, m) == done' + Logged(accum' + rest, m)
    ensures log' == PrintAll(done', redact)
  {
    inBlock', accum', log', done' := inBlock, accum, log, done;
    ghost var tail := Logged(rest, m);
    assert accum + ahead == accum + [trimmed] + rest;
    assert [] + [trimmed] == [trimmed] && [] + rest == rest;
    if inBlock {
      accum' := accum + [trimmed];
      if m.end(trimmed) {
        LoggedBlock(accum, trimmed, rest, m);
        Also(done, Block(accum'), tail, redact);
        done' := done + [Block(accum')];
        log' := FlushRedacted(accum', redact, log);
        accum' := [];
        inBlock' := false;
      }
    } else {
      if m.begin(trimmed) {
        inBlock' := true;
        accum' := [trimmed];
        if m.end(trimmed) {
          LoggedBlock([], trimmed, rest, m);
          Also(done, Block(accum'), tail, redact);
          done' := done + [Block(accum')];
          log' := FlushRedacted(accum', redact, log);
          accum' := [];
          inBlock' := false;
        }
      } else {
        LoggedLine(trimmed, rest, m);
        if line != "" {
          Also(done, Line(trimmed), tail, redact);
          done' := done + [Line(trimmed)];
          log' := log + [redact(trimmed)];
        }
      }
    }
  }

  // A block that is open when the stream ends is redacted as it is.
  lemma AtEnd(inBlock: bool, accum: seq<string>, m: Marks, done: seq<Chunk>, redact: string -> string)
    requires if inBlock then Open(accum, m) else accum == []
    ensures PrintAll(done + Logged(accum + [], m), redact) ==
            if inBlock then PrintAll(done, redact) + Print(Block(accum), redact) else PrintAll(done, redact)
  {
    assert accum + [] == accum;
    if inBlock {
      LoggedOpen(accum, m);
      PrintOne(done, Block(accum), redact);
    } else {
      assert done + [] == done;
    }
  }

  method LogStderr(stderr: string, m: Marks, redact: string -> string) returns (log: seq<string>)
    ensures log == PrintAll(Logged(Fields(stderr, '\n'), m), redact)
    ensures Redacted(log, Logged(Fields(stderr, '\n'), m), redact)
  {
    log := [];
    var accum: seq<string> := [];
    var inBlock := false;
    var pos := 0;
    ghost var chunks, done := Logged(Fields(stderr, '\n'), m), [];
    ghost var rest := Fields(stderr, '\n');
    assert stderr[0..] == stderr && [] + rest == rest;
    while true
      invariant pos <= |stderr| && rest == Fields(stderr[pos..], '\n')
      invariant if inBlock then Open(accum, m) else accum == []
      invariant log == PrintAll(done, redact)
      invariant chunks == done + Logged(accum + rest, m)
      decreases |stderr| - pos
    {
      var line, err;
      line, err, pos := ReadString(stderr, pos);
      var trimmed := TrimEnd(line);
      ghost var next := if err then [] else Fields(stderr[pos..], '\n');
      inBlock, accum, log, done := TakeLine(line, trimmed, m, redact, inBlock, accum, log, done, rest, next);
      rest := next;
      if err {
        AtEnd(inBlock, accum, m, done, redact);
        if inBlock && |accum| > 0 {
          log := FlushRedacted(accum, redact, log);
        }
        RedactedExactly(log, chunks, redact);
        return;
      }
    }
  }

  // ---------------------------------------------------------------------------------------------
  // Nothing is lost
  // ---------------------------------------------------------------------------------------------

  lemma {:induction false} FlattenMore(cs: seq<Chunk>, c: Chunk)
    ensures Flatten(cs + [c]) == Flatten(cs) + Lines(c)
  {
    if cs != [] {
      FlattenMore(cs[1..], c);
      assert (cs + [c])[1..] == cs[1..] + [c];
    } else {
      assert [c][1..] == [];
    }
  }

  // The lines redacted are the lines read, except that an empty fragment at the very end, outside a
  // block, is left out.
  lemma LoggedLines(p: seq<string>, m: Marks)
    ensures p == Flatten(Logged(p, m)) + (if Logged(p, m) == Chunks(p, m) then [] else [""])
    ensures Logged(p, m) != Chunks(p, m) <==> p != [] && Chunks(p, m)[|Chunks(p, m)| - 1] == Line("")
  {
    ChunksAreChunking(p, m);
    var cs := Chunks(p, m);
    if cs != [] && cs[|cs| - 1] == Line("") {
      FlattenMore(cs[..|cs| - 1], cs[|cs| - 1]);
      assert cs == cs[..|cs| - 1] + [cs[|cs| - 1]];
    }
  }

  lemma {:induction false} PrintIdentity(cs: seq<Chunk>, redact: string -> string)
    requires forall t: string :: redact(t) == t
    requires forall i | 0 <= i < |cs| :: Lines(cs[i]) != [] && Whole(Lines(cs[i]), '\n')
    ensures PrintAll(cs, redact) == Flatten(cs)
  {
    if cs != [] {
      var c := cs[|cs| - 1];
      PrintIdentity(cs[..|cs| - 1], redact);
      FlattenMore(cs[..|cs| - 1], c);
      assert cs == cs[..|cs| - 1] + [c];
      if c.Block? {
        JoinFields(c.lines, '\n');
      }
    }
  }

  lemma {:induction false} FlattenWhole(cs: seq<Chunk>, i: nat)
    requires i < |cs| && Whole(Flatten(cs), '\n')
    ensures Whole(Lines(cs[i]), '\n')
  {
    var f, l, rest := Flatten(cs), Lines(cs[0]), Flatten(cs[1..]);
    assert forall j | 0 <= j < |l| :: f[j] == l[j];
    assert forall j | 0 <= j < |rest| :: rest[j] == f[|l| + j];
    if i > 0 {
      FlattenWhole(cs[1..], i - 1);
    }
  }

  // With nothing to redact, the log is the stream: its lines in order, each of them once.
  lemma {:induction false} NothingLost(stderr: string, m: Marks, redact: string -> string)
    requires forall t: string :: redact(t) == t
    ensures var log := PrintAll(Logged(Fields(stderr, '\n'), m), redact);
            stderr == Join(log, '\n') || (log != [] && stderr == Join(log, '\n') + "\n")
  {
    var p := Fields(stderr, '\n');
    var cs := Logged(p, m);
    FieldsJoin(stderr, '\n');
    LoggedLines(p, m);
    ChunksAreChunking(p, m);
    forall i | 0 <= i < |cs| ensures Lines(cs[i]) != [] && Whole(Lines(cs[i]), '\n') {
      assert cs[i] == Chunks(p, m)[i] && Shape(Chunks(p, m)[i], i == |Chunks(p, m)| - 1, m);
      FlattenWhole(Chunks(p, m), i);
    }
    PrintIdentity(cs, redact);
    if cs != Chunks(p, m) && Flatten(cs) != [] {
      JoinMore(Flatten(cs), "", '\n');
    }
  }
}
