/** How the bytes of a client become command lines (datum_sockets.c, lines 246 to 339). */
module LineReader {
  import opened Bytes

  const CLIENT_BUFFER: nat := 16384 * 3 + 1024
  const NEWLINE: byte := 10

  // ---------------------------------------------------------------- the lines of a stream

  /** The index of the first newline, or the length. */
  function FirstNewline(s: seq<byte>): (k: nat)
    ensures k <= |s| && (k < |s| ==> s[k] == NEWLINE) && NEWLINE !in s[..k]
  {
    if s == [] || s[0] == NEWLINE then 0 else 1 + FirstNewline(s[1..])
  }

  /** The lines that a newline ends. */
  function Lines(s: seq<byte>): (lines: seq<seq<byte>>)
    decreases |s|
  {
    var k := FirstNewline(s);
    if k == |s| then [] else [s[..k]] + Lines(s[k + 1..])
  }

  /** What follows the last newline. */
  function Tail(s: seq<byte>): (t: seq<byte>)
    ensures NEWLINE !in t && |t| <= |s|
    decreases |s|
  {
    var k := FirstNewline(s);
    if k == |s| then s else Tail(s[k + 1..])
  }

  /** A stream is its lines, each with its newline, and the rest. */
  function Joined(lines: seq<seq<byte>>): seq<byte> {
    if lines == [] then [] else lines[0] + [10] + Joined(lines[1..])
  }

  lemma {:induction false} FirstNewlineIn(line: seq<byte>, rest: seq<byte>)
    requires NEWLINE !in line
    ensures FirstNewline(line + [NEWLINE] + rest) == |line|
  {
    var s := line + [NEWLINE] + rest;
    if line != [] {
      FirstNewlineIn(line[1..], rest);
      assert s[1..] == line[1..] + [NEWLINE] + rest;
    }
  }

  lemma LinesUnfold(line: seq<byte>, rest: seq<byte>)
    requires NEWLINE !in line
    ensures Lines(line + [NEWLINE] + rest) == [line] + Lines(rest)
    ensures Tail(line + [NEWLINE] + rest) == Tail(rest)
  {
    var s, k := line + [NEWLINE] + rest, |line|;
    FirstNewlineIn(line, rest);
    assert s[..k] == line && s[k + 1..] == rest;
  }

  lemma JoinedOneMore(line: seq<byte>, more: seq<seq<byte>>, tail: seq<byte>)
    ensures Joined([line] + more) + tail == line + [NEWLINE] + (Joined(more) + tail)
  {
    assert ([line] + more)[1..] == more;
    ConcatAssoc(line + [NEWLINE], Joined(more), tail);
  }

  lemma {:induction false} LinesJoin(s: seq<byte>)
    ensures s == Joined(Lines(s)) + Tail(s)
    decreases |s|
  {
    var k := FirstNewline(s);
    if k < |s| {
      var line, rest := s[..k], s[k + 1..];
      assert s == line + [NEWLINE] + rest;
      LinesUnfold(line, rest);
      LinesJoin(rest);
      JoinedOneMore(line, Lines(rest), Tail(rest));
    } else {
      assert Lines(s) == [] && Joined([]) + s == s;
    }
  }

  lemma {:induction false} LinesHaveNoNewline(s: seq<byte>, i: nat)
    requires i < |Lines(s)|
    ensures 10 !in Lines(s)[i]
    decreases |s|
  {
    if i > 0 {
      LinesHaveNoNewline(s[FirstNewline(s) + 1..], i - 1);
    }
  }

  lemma LinesLonger(line: seq<byte>, rest: seq<byte>, b: seq<byte>)
    requires NEWLINE !in line
    ensures Lines(line + [NEWLINE] + rest + b) == [line] + Lines(rest + b)
    ensures Tail(line + [NEWLINE] + rest + b) == Tail(rest + b)
  {
    ConcatAssoc(line + [NEWLINE], rest, b);
    LinesUnfold(line, rest + b);
  }

  lemma OneMoreLine(line: seq<byte>, first: seq<seq<byte>>, more: seq<seq<byte>>)
    ensures [line] + (first + more) == [line] + first + more
  {
  }

  /** Cutting the stream a before its b makes no difference to its lines. */
  ghost predicate CutsWell(a: seq<byte>, b: seq<byte>) {
    Lines(a + b) == Lines(a) + Lines(Tail(a) + b) && Tail(a + b) == Tail(Tail(a) + b)
  }

  /** One line more in front. */
  lemma CutsLonger(a: seq<byte>, line: seq<byte>, rest: seq<byte>, b: seq<byte>)
    requires NEWLINE !in line && a == line + [NEWLINE] + rest && CutsWell(rest, b)
    ensures CutsWell(a, b)
  {
    LinesUnfold(line, rest);
    LinesLonger(line, rest, b);
    OneMoreLine(line, Lines(rest), Lines(Tail(rest) + b));
  }

  lemma FirstLine(a: seq<byte>) returns (line: seq<byte>, rest: seq<byte>)
    requires FirstNewline(a) < |a|
    ensures NEWLINE !in line && a == line + [NEWLINE] + rest
  {
    var k := FirstNewline(a);
    line, rest := a[..k], a[k + 1..];
  }

  /** Lines do not depend on where a stream is cut: the tail of the first part goes on in the second. */
  lemma {:induction false} LinesConcat(a: seq<byte>, b: seq<byte>)
    ensures CutsWell(a, b)
    decreases |a|
  {
    if FirstNewline(a) < |a| {
      var line, rest := FirstLine(a);
      assert |rest| < |a|;
      LinesConcat(rest, b);
      CutsLonger(a, line, rest, b);
    } else {
      assert Lines(a) == [] && Tail(a) == a;
    }
  }

  // ---------------------------------------------------------------- the commands of a client

  /** What a client's thread keeps of it: the partial line, the count of PROXY lines or -1 once a command
      was seen, the calls made to the command handler, and whether the client is still connected. */
  datatype Conn = Conn(buf: seq<byte>, proxyLines: int, handed: seq<seq<byte>>, open: bool)

  const FRESH := Conn([], 0, [], true)

  /** "PROXY " */
  const PROXY_WORD: seq<byte> := [80, 82, 79, 88, 89, 32]

  predicate IsProxyLine(line: seq<byte>) {
    PROXY_WORD <= line
  }

  /** Six letters decide, whatever follows them. */
  lemma ProxyLineBegins(line: seq<byte>)
    ensures IsProxyLine(line) <==>
              && |line| >= 6 && line[0] == 'P' as int && line[1] == 'R' as int && line[2] == 'O' as int
              && line[3] == 'X' as int && line[4] == 'Y' as int && line[5] == ' ' as int
  {
  }

  /** The settings and the handler: how many proxies are trusted or -1, and whether the handler wants to
      keep the client when it gets this line after so many others. */
  datatype Server = Server(trustProxy: int, keeps: (nat, seq<byte>) -> bool)

  function OnLine(v: Server, c: Conn, line: seq<byte>): Conn {
    if v.trustProxy != -1 && c.proxyLines != -1 && IsProxyLine(line) then c.(proxyLines := c.proxyLines + 1)
    else c.(proxyLines := if v.trustProxy != -1 then -1 else c.proxyLines,
            handed := c.handed + [line], open := v.keeps(|c.handed|, line))
  }

  /** Lines one after the other, until the client is closed. */
  function OnLines(v: Server, c: Conn, lines: seq<seq<byte>>): Conn
    decreases |lines|
  {
    if lines == [] || !c.open then c else OnLines(v, OnLine(v, c, lines[0]), lines[1..])
  }

  /** The bytes of one recv; the buffer is read as a C string, so a NUL hides the rest of them. */
  function OnChunk(v: Server, c: Conn, chunk: seq<byte>): Conn
    requires c.open
  {
    var s := c.buf + CString(chunk, 0);
    var d := OnLines(v, c, Lines(s));
    if !d.open then d.(buf := [])
    else if |Tail(s)| >= CLIENT_BUFFER - 1 then d.(buf := [], open := false)
    else d.(buf := Tail(s))
  }

  ghost predicate ConnOk(c: Conn) {
    0 !in c.buf && NEWLINE !in c.buf && |c.buf| < CLIENT_BUFFER - 1
  }

  /** What all the lines of a stream lead to, seen at once. */
  function Whole(v: Server, s: seq<byte>): Conn {
    OnLines(v, FRESH, Lines(s))
  }

  lemma {:induction false} OnLinesConcat(v: Server, c: Conn, a: seq<seq<byte>>, b: seq<seq<byte>>)
    ensures OnLines(v, c, a + b) == OnLines(v, OnLines(v, c, a), b)
    decreases |a|
  {
    if a == [] {
      assert a + b == b;
    } else if c.open {
      OnLinesConcat(v, OnLine(v, c, a[0]), a[1..], b);
      assert (a + b)[1..] == a[1..] + b;
    }
  }

  /** The partial line plays no part in the handling of lines. */
  lemma {:induction false} OnLinesBuf(v: Server, c: Conn, buf: seq<byte>, lines: seq<seq<byte>>)
    ensures OnLines(v, c.(buf := buf), lines) == OnLines(v, c, lines).(buf := buf)
    decreases |lines|
  {
    if lines != [] && c.open {
      OnLinesBuf(v, OnLine(v, c, lines[0]), buf, lines[1..]);
    }
  }

  /** How a client stands that has sent these bytes. */
  ghost predicate Reached(v: Server, c: Conn, stream: seq<byte>) {
    && c.handed == Whole(v, stream).handed
    && (c.open ==> Whole(v, stream).(buf := Tail(stream)) == c && ConnOk(c))
    && (!c.open && Whole(v, stream).open ==> |Tail(stream)| >= 50_175)
  }

  lemma ChunkReaches(v: Server, c: Conn, stream: seq<byte>, chunk: seq<byte>)
    requires c.open && Reached(v, c, stream)
    requires 0 !in stream
    ensures Reached(v, OnChunk(v, c, chunk), stream + CString(chunk, 0))
  {
    var more := CString(chunk, 0);
    LinesConcat(stream, more);
    OnLinesConcat(v, FRESH, Lines(stream), Lines(c.buf + more));
    OnLinesBuf(v, Whole(v, stream), c.buf, Lines(c.buf + more));
    LinesJoin(c.buf + more);
    var t := Tail(c.buf + more);
    assert forall b :: b in t ==> b in c.buf + more;
  }

  // ---------------------------------------------------------------- runs

  /** The bytes that count: each chunk up to its first NUL. */
  function Received(chunks: seq<seq<byte>>): seq<byte> {
    if chunks == [] then [] else Received(chunks[..|chunks| - 1]) + CString(chunks[|chunks| - 1], 0)
  }

  /** All chunks of a client, as long as it is connected. */
  function OnChunks(v: Server, chunks: seq<seq<byte>>): Conn {
    if chunks == [] then FRESH else
    var c := OnChunks(v, chunks[..|chunks| - 1]);
    if c.open then OnChunk(v, c, chunks[|chunks| - 1]) else c
  }

  /** However the bytes arrive, the lines handed to the command handler are those of the whole stream,
      the partial line is what follows the last newline, and a client that the handler wants to keep is
      closed only when its partial line fills the buffer. */
  lemma {:induction false} ChunkingDoesNotMatter(v: Server, chunks: seq<seq<byte>>)
    ensures 0 !in Received(chunks)
    ensures OnChunks(v, chunks).open ==> Reached(v, OnChunks(v, chunks), Received(chunks))
    ensures chunks != [] && OnChunks(v, chunks[..|chunks| - 1]).open ==> Reached(v, OnChunks(v, chunks), Received(chunks))
  {
    if chunks != [] {
      var before := chunks[..|chunks| - 1];
      ChunkingDoesNotMatter(v, before);
      if OnChunks(v, before).open {
        ChunkReaches(v, OnChunks(v, before), Received(before), chunks[|chunks| - 1]);
      }
    }
  }

  /** Bytes without NUL all count. */
  lemma {:induction false} NothingHidden(chunks: seq<seq<byte>>, stream: seq<byte>)
    requires forall i :: 0 <= i < |chunks| ==> 0 !in chunks[i]
    requires stream == Concat(chunks)
    ensures Received(chunks) == stream
  {
    if chunks != [] {
      var last := chunks[|chunks| - 1];
      NothingHidden(chunks[..|chunks| - 1], Concat(chunks[..|chunks| - 1]));
      assert last[0..0 + |last|] == last;
      CStringEnds(last, 0, |last|);
    }
  }

  function Concat(chunks: seq<seq<byte>>): seq<byte> {
    if chunks == [] then [] else Concat(chunks[..|chunks| - 1]) + chunks[|chunks| - 1]
  }

  // ---------------------------------------------------------------- which lines the handler gets

  /** Without the PROXY lines in front. */
  function AfterProxyLines(lines: seq<seq<byte>>): seq<seq<byte>> {
    if lines != [] && IsProxyLine(lines[0]) then AfterProxyLines(lines[1..]) else lines
  }

  lemma {:induction false} OnLinesKeepsAll(v: Server, c: Conn, lines: seq<seq<byte>>)
    requires c.open && (v.trustProxy == -1 || c.proxyLines == -1)
    requires forall k: nat, line: seq<byte> :: v.keeps(k, line)
    ensures OnLines(v, c, lines).handed == c.handed + lines && OnLines(v, c, lines).open
    ensures OnLines(v, c, lines).proxyLines == c.proxyLines
    decreases |lines|
  {
    if lines != [] {
      OnLinesKeepsAll(v, OnLine(v, c, lines[0]), lines[1..]);
      assert lines == [lines[0]] + lines[1..];
    }
  }

  lemma {:induction false} ProxyLinesSkipped(v: Server, c: Conn, lines: seq<seq<byte>>)
    requires c.open && c.handed == [] && v.trustProxy != -1 && c.proxyLines >= 0
    requires forall k: nat, line: seq<byte> :: v.keeps(k, line)
    ensures OnLines(v, c, lines).handed == AfterProxyLines(lines)
    ensures OnLines(v, c, lines).proxyLines == if AfterProxyLines(lines) == [] then c.proxyLines + |lines| else -1
    decreases |lines|
  {
    if lines != [] {
      var d := OnLine(v, c, lines[0]);
      if IsProxyLine(lines[0]) {
        ProxyLinesSkipped(v, d, lines[1..]);
      } else {
        OnLinesKeepsAll(v, d, lines[1..]);
        assert lines == [lines[0]] + lines[1..];
      }
    }
  }

  /** A handler that keeps every client gets every line, in order; with a trusted proxy, all but the
      PROXY lines at the start, however many there are. They are counted until the first command. */
  lemma HandlerGetsEveryLine(v: Server, stream: seq<byte>)
    requires forall k: nat, line: seq<byte> :: v.keeps(k, line)
    ensures var lines := Lines(stream);
            if v.trustProxy == -1 then Whole(v, stream).handed == lines && Whole(v, stream).proxyLines == 0
            else && Whole(v, stream).handed == AfterProxyLines(lines)
                 && Whole(v, stream).proxyLines == if AfterProxyLines(lines) == [] then |lines| else -1
  {
    if v.trustProxy == -1 {
      OnLinesKeepsAll(v, FRESH, Lines(stream));
      assert [] + Lines(stream) == Lines(stream);
    } else {
      ProxyLinesSkipped(v, FRESH, Lines(stream));
    }
  }

  /** A handler that wants to close ends the session with the line it refused. */
  lemma {:induction false} ClosedByLastLine(v: Server, c: Conn, lines: seq<seq<byte>>)
    requires c.open && !OnLines(v, c, lines).open
    ensures var handed := OnLines(v, c, lines).handed;
            |handed| > |c.handed| && !v.keeps(|handed| - 1, handed[|handed| - 1])
    decreases |lines|
  {
    if lines != [] {
      var d := OnLine(v, c, lines[0]);
      if d.open {
        ClosedByLastLine(v, d, lines[1..]);
      }
    }
  }

  /** Bytes without NUL to a handler that keeps every client, in any chunks: a client still connected has
      had exactly the lines of the whole stream handled, and its partial line is in the buffer. */
  lemma CommandsOfAStream(v: Server, chunks: seq<seq<byte>>)
    requires forall i :: 0 <= i < |chunks| ==> 0 !in chunks[i]
    requires forall k: nat, line: seq<byte> :: v.keeps(k, line)
    requires OnChunks(v, chunks).open
    ensures var stream, c := Concat(chunks), OnChunks(v, chunks);
            && c.handed == (if v.trustProxy == -1 then Lines(stream) else AfterProxyLines(Lines(stream)))
            && c.buf == Tail(stream) && |c.buf| < 50_175
  {
    ChunkingDoesNotMatter(v, chunks);
    NothingHidden(chunks, Concat(chunks));
    HandlerGetsEveryLine(v, Concat(chunks));
  }
}
