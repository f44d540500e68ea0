/** The two buffers of a client (datum_sockets.c): received bytes are split into lines in place, bytes
    to send wait until the socket takes them. LineReader says what the first amounts to. */
module ClientBuffers {
  import opened Bytes
  import opened LineReader

  class ClientData {
    const buffer: array<byte>
    var inBuf: nat
    var proxyLineRead: int
    var handed: seq<seq<byte>>    // the calls made to the command handler
    var open: bool
    const wBuffer: array<byte>
    var outBuf: nat
    ghost var accepted: seq<byte> // everything a send function took
    ghost var sent: seq<byte>     // everything the socket took

    ghost predicate Valid()
      reads this, buffer, wBuffer
    {
      && buffer.Length == CLIENT_BUFFER && wBuffer.Length == CLIENT_BUFFER && buffer != wBuffer
      && inBuf < CLIENT_BUFFER - 1 && outBuf < CLIENT_BUFFER
      && ConnOk(View())
      && accepted == sent + wBuffer[..outBuf]
    }

    ghost function View(): Conn
      requires inBuf <= buffer.Length
      reads this, buffer
    {
      Conn(buffer[..inBuf], proxyLineRead, handed, open)
    }

    /** The view but for the partial line. */
    ghost function Handling(): Conn
      reads this
    {
      Conn([], proxyLineRead, handed, open)
    }

    constructor ()
      ensures Valid() && View() == FRESH && fresh(buffer) && fresh(wBuffer) && accepted == [] && sent == []
    {
      buffer, wBuffer := new byte[CLIENT_BUFFER], new byte[CLIENT_BUFFER];
      inBuf, proxyLineRead, handed, open := 0, 0, [], true;
      outBuf, accepted, sent := 0, [], [];
    }

    // -------------------------------------------------------------- sending

    /** datum_socket_send_chars_to_client, and datum_socket_send_string_to_client on a C string. */
    method SendChars(s: seq<byte>) returns (r: int)
      requires Valid()
      modifies this`outBuf, this`accepted, wBuffer
      ensures Valid()
      ensures r == if s == [] then 0 else if old(outBuf) + |s| >= CLIENT_BUFFER then -1 else |s|
      ensures accepted == old(accepted) + if r > 0 then s else []
    {
      if |s| == 0 {
        return 0;
      }
      if outBuf + |s| >= CLIENT_BUFFER {
        return -1;
      }
      forall i | 0 <= i < |s| {
        wBuffer[outBuf + i] := s[i];
      }
      outBuf := outBuf + |s|;
      assert wBuffer[..outBuf] == old(wBuffer[..outBuf]) + s && buffer[..inBuf] == old(buffer[..inBuf]);
      accepted := accepted + s;
      r := |s|;
    }

    /** Lines 207 to 217: the socket took the first n bytes. */
    method Drained(n: nat)
      requires Valid() && 0 < n <= outBuf
      modifies this`outBuf, this`sent, wBuffer
      ensures Valid() && accepted == old(accepted)
      ensures sent == old(sent) + old(wBuffer[..outBuf])[..n]
    {
      ghost var pending := wBuffer[..outBuf];
      if n < outBuf {
        forall i | 0 <= i < outBuf - n {
          wBuffer[i] := wBuffer[n + i];
        }
      }
      outBuf := outBuf - n;
      sent := sent + pending[..n];
      assert wBuffer[..outBuf] == pending[n..] && buffer[..inBuf] == old(buffer[..inBuf]);
      assert pending == pending[..n] + pending[n..];
    }

    // -------------------------------------------------------------- receiving

    /** strchr(start, '\\n'). */
    method FindNewline(start: nat, stop: nat) returns (k: int)
      requires start <= stop < buffer.Length && buffer[stop] == 0
      ensures k == NewlineAt(buffer[..], start) && k < stop
    {
      ghost var s := CString(buffer[..], start);
      k := start;
      while buffer[k] != 0
        invariant start <= k <= stop
        invariant |s| - (k - start) == |CString(buffer[..], k)|
        invariant forall j :: 0 <= j < k - start ==> s[j] != NEWLINE
        invariant k - start <= |s| && s[k - start..] == CString(buffer[..], k)
        decreases stop - k
      {
        if buffer[k] == NEWLINE {
          assert s[k - start] == s[k - start..][0] == NEWLINE;
          FirstNewlineAt(s, k - start);
          return;
        }
        assert s[k - start] == s[k - start..][0];
        assert s[k + 1 - start..] == s[k - start..][1..];
        k := k + 1;
      }
      NoNewline(s);
      k := -1;
    }

    /** One line: skipped if it comes from a proxy, handled otherwise. */
    method TakeLine(v: Server, line: seq<byte>)
      modifies this`proxyLineRead, this`handed, this`open
      ensures Handling() == OnLine(v, old(Handling()), line)
    {
      if v.trustProxy != -1 && proxyLineRead != -1 {
        if IsProxyLine(line) {
          proxyLineRead := proxyLineRead + 1;
          return;
        }
        proxyLineRead := -1;
      }
      open := v.keeps(|handed|, line);
      handed := handed + [line];
    }

    /** Lines 268 to 314: the lines in buffer[..stop]; where the rest of them starts. */
    method TakeLines(v: Server, stop: nat) returns (start: nat)
      requires open && stop < buffer.Length && buffer[stop] == 0
      modifies this`proxyLineRead, this`handed, this`open, buffer
      ensures start <= stop && buffer[stop] == 0
      ensures var s := CString(old(buffer[..]), 0);
              && Handling() == OnLines(v, old(Handling()), Lines(s))
              && (open ==> CString(buffer[..], start) == Tail(s))
    {
      ghost var whole, c := buffer[..], Handling();
      start := 0;
      var end := FindNewline(start, stop);
      while end != -1
        invariant start <= stop && buffer[stop] == 0 && open && end < stop
        invariant end == NewlineAt(buffer[..], start)
        invariant Remains(v, Handling(), buffer[..], start) == Remains(v, c, whole, 0)
        decreases stop - start
      {
        TakeLineAt(v, start, end);
        if !open {
          buffer[start] := 0;
          return;
        }
        start := end + 1;
        end := FindNewline(start, stop);
      }
    }

    /** The line from start to its newline at end. */
    method TakeLineAt(v: Server, start: nat, end: nat)
      requires open && start <= end < buffer.Length && end == NewlineAt(buffer[..], start)
      modifies this`proxyLineRead, this`handed, this`open, buffer
      ensures Remains(v, Handling(), buffer[..], end + 1) == Remains(v, old(Handling()), old(buffer[..]), start)
      ensures !open ==> Handling() == Remains(v, old(Handling()), old(buffer[..]), start).0
      ensures forall i :: end < i < buffer.Length ==> buffer[i] == old(buffer[i])
    {
      ghost var text, c := buffer[..], Handling();
      CStringDrop(text, start, end - start);
      var line := buffer[start..end];
      buffer[end] := 0;
      CStringSame(text, buffer[..], end + 1);
      TakeLine(v, line);
      NextLine(v, c, CString(text, start));
    }

    /** The bytes of a recv go behind the partial line, then a terminator. */
    method PutChunk(chunk: seq<byte>)
      requires Valid() && 0 < |chunk| <= CLIENT_BUFFER - 1 - inBuf
      modifies buffer
      ensures buffer[inBuf + |chunk|] == 0
      ensures CString(buffer[..], 0) == old(buffer[..inBuf]) + CString(chunk, 0)
    {
      ghost var had := buffer[..inBuf];
      forall i | 0 <= i < |chunk| {
        buffer[inBuf + i] := chunk[i];
      }
      var stop := inBuf + |chunk|;
      buffer[stop] := 0;
      assert buffer[..] == had + (chunk + ([0] + buffer[stop + 1..]));
      CStringOfParts(had, chunk, buffer[stop + 1..]);
    }

    /** Lines 264 to 339: n bytes arrived behind the partial line. */
    method OnReceived(v: Server, chunk: seq<byte>)
      requires Valid() && open && 0 < |chunk| <= CLIENT_BUFFER - 1 - inBuf
      modifies this`inBuf, this`proxyLineRead, this`handed, this`open, buffer
      ensures Valid() && View() == OnChunk(v, old(View()), chunk)
    {
      ghost var had, c := buffer[..inBuf], Handling();
      var stop := inBuf + |chunk|;
      PutChunk(chunk);
      OnLinesBuf(v, c, had, Lines(had + CString(chunk, 0)));
      var start := TakeLines(v, stop);
      var leftover := 0;
      if open {
        leftover := MoveRest(start, stop);
      }
      inBuf := leftover;
      if open && inBuf >= CLIENT_BUFFER - 1 {
        inBuf := 0;
        buffer[0] := 0;
        open := false;
      }
      assert wBuffer[..outBuf] == old(wBuffer[..outBuf]);
    }

    /** The rest moves to the front of the buffer. */
    method MoveRest(start: nat, stop: nat) returns (leftover: nat)
      requires start <= stop < buffer.Length && buffer[stop] == 0
      modifies buffer
      ensures leftover < buffer.Length && buffer[..leftover] == CString(old(buffer[..]), start)
    {
      ghost var text := buffer[..];
      leftover := 0;
      while buffer[start + leftover] != 0
        invariant start + leftover <= stop
        invariant 0 !in text[start..start + leftover]
        decreases stop - leftover
      {
        assert text[start..start + leftover + 1] == text[start..start + leftover] + [text[start + leftover]];
        leftover := leftover + 1;
      }
      CStringEnds(text, start, leftover);
      if leftover > 0 {
        forall i | 0 <= i <= leftover {
          buffer[i] := buffer[start + i];
        }
      }
      assert buffer[..leftover] == text[start..start + leftover];
    }
  }

  /** strchr(start, '\n') on a text, or -1. */
  function NewlineAt(text: seq<byte>, start: nat): int {
    var s := CString(text, start);
    if FirstNewline(s) == |s| then -1 else start + FirstNewline(s)
  }

  /** It is the first newline from start on, before any NUL. */
  lemma NewlineAtIs(text: seq<byte>, start: nat)
    requires start <= |text|
    ensures var k := NewlineAt(text, start);
            if k != -1 then start <= k < |text| && text[k] == 10 && forall j :: start <= j < k ==> text[j] != 10 && text[j] != 0
            else forall k' :: start <= k' < |text| && text[k'] == 10 ==> exists z :: start <= z < k' && text[z] == 0
  {
    var s := CString(text, start);
    CStringAt(text, start);
    if FirstNewline(s) == |s| {
      assert forall j :: start <= j < start + |s| ==> text[j] == s[j - start] && s[j - start] in s[..|s|];
      forall k' | start <= k' < |text| && text[k'] == 10 ensures exists z :: start <= z < k' && text[z] == 0 {
        assert start + |s| <= k';
        assert text[start + |s|] == 0;
      }
    } else {
      var k := NewlineAt(text, start);
      forall j | start <= j < k ensures text[j] != 10 && text[j] != 0 {
        assert s[j - start] in s[..FirstNewline(s)];
      }
    }
  }

  lemma {:induction false} CStringAt(text: seq<byte>, start: nat)
    requires start <= |text|
    ensures var s := CString(text, start);
            && start + |s| <= |text| && s == text[start..start + |s|]
            && (start + |s| < |text| ==> text[start + |s|] == 0)
    decreases |text| - start
  {
    if start < |text| && text[start] != 0 {
      CStringAt(text, start + 1);
    }
  }

  /** What handling the lines from start on leads to, and what follows the last of them. */
  function Remains(v: Server, c: Conn, text: seq<byte>, start: nat): (Conn, seq<byte>) {
    var s := CString(text, start);
    (OnLines(v, c, Lines(s)), Tail(s))
  }

  lemma OnLinesFirst(v: Server, c: Conn, line: seq<byte>, more: seq<seq<byte>>)
    requires c.open
    ensures OnLines(v, c, [line] + more) == OnLines(v, OnLine(v, c, line), more)
  {
    var lines := [line] + more;
    assert lines[0] == line && lines[1..] == more;
  }

  /** Handling the lines of a text begins with its first line. */
  lemma NextLine(v: Server, c: Conn, s: seq<byte>)
    requires c.open && FirstNewline(s) < |s|
    ensures var k := FirstNewline(s);
            && OnLines(v, c, Lines(s)) == OnLines(v, OnLine(v, c, s[..k]), Lines(s[k + 1..]))
            && Tail(s) == Tail(s[k + 1..])
  {
    var k := FirstNewline(s);
    assert Lines(s) == [s[..k]] + Lines(s[k + 1..]);
    OnLinesFirst(v, c, s[..k], Lines(s[k + 1..]));
  }

  lemma {:induction false} FirstNewlineAt(s: seq<byte>, k: nat)
    requires k < |s| && s[k] == NEWLINE && forall j :: 0 <= j < k ==> s[j] != NEWLINE
    ensures FirstNewline(s) == k
  {
    if k > 0 {
      FirstNewlineAt(s[1..], k - 1);
    }
  }

  lemma {:induction false} NoNewline(s: seq<byte>)
    requires forall j :: 0 <= j < |s| ==> s[j] != NEWLINE
    ensures FirstNewline(s) == |s|
  {
    if s != [] {
      NoNewline(s[1..]);
    }
  }

  /** Behind a part of a C string the rest of it follows. */
  lemma {:induction false} CStringDrop(s: seq<byte>, a: nat, k: nat)
    requires k < |CString(s, a)|
    ensures a + k < |s| && CString(s, a)[..k] == s[a..a + k] && CString(s, a)[k] == s[a + k]
    ensures CString(s, a)[k + 1..] == CString(s, a + k + 1)
    decreases k
  {
    if k > 0 {
      CStringDrop(s, a + 1, k - 1);
    }
  }

  lemma {:induction false} CStringSame(s: seq<byte>, t: seq<byte>, a: nat)
    requires |s| == |t| && forall i :: a <= i < |s| ==> s[i] == t[i]
    ensures CString(s, a) == CString(t, a)
    decreases |s| - a
  {
    if a < |s| {
      CStringSame(s, t, a + 1);
    }
  }

  lemma {:induction false} CStringShift(a: seq<byte>, b: seq<byte>, i: nat)
    ensures CString(a + b, |a| + i) == CString(b, i)
    decreases |b| - i
  {
    if i < |b| {
      CStringShift(a, b, i + 1);
    }
  }

  lemma {:induction false} CStringOver(a: seq<byte>, b: seq<byte>)
    requires 0 !in a
    ensures CString(a + b, 0) == a + CString(b, 0)
  {
    if a == [] {
      assert a + b == b;
    } else {
      CStringOver(a[1..], b);
      CStringShift([a[0]], a[1..] + b, 0);
      assert a + b == [a[0]] + (a[1..] + b);
    }
  }

  lemma {:induction false} CStringBefore(a: seq<byte>, junk: seq<byte>, i: nat)
    ensures CString(a + ([0] + junk), i) == CString(a, i) || i > |a|
    decreases |a| - i
  {
    if i < |a| {
      CStringBefore(a, junk, i + 1);
    }
  }

  lemma CStringOfParts(had: seq<byte>, chunk: seq<byte>, junk: seq<byte>)
    requires 0 !in had
    ensures CString(had + (chunk + ([0] + junk)), 0) == had + CString(chunk, 0)
  {
    CStringOver(had, chunk + ([0] + junk));
    CStringBefore(chunk, junk, 0);
  }
}
