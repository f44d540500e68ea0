/** The code of both ends on its own memory (datum_protocol.c): the send buffer with key and nonce, and
    the receive state machine. SessionSender and SessionReceiver say what these pieces guarantee. */
module SessionBuffers {
  import opened Bytes
  import opened SessionKeys
  import opened SessionFraming
  import opened SessionSender
  import opened SessionReceiver

  class SendSide {
    const buffer: array<byte>  // server_send_buffer
    var len: nat               // server_out_buf
    var key: word              // sending_header_key
    const nonce: array<word>   // session_nonce_sender, as the limbs that are counted up

    ghost predicate Valid()
      reads this
    {
      buffer.Length == BUFFER_SIZE && len < BUFFER_SIZE && nonce.Length == LIMBS
    }

    ghost function Pending(): seq<byte>
      requires Valid()
      reads this, buffer
    {
      buffer[..len]
    }

    constructor (k0: word, n0: seq<word>)
      requires |n0| == LIMBS
      ensures Valid() && fresh(buffer) && fresh(nonce) && Pending() == [] && key == k0 && nonce[..] == n0
    {
      buffer := new byte[BUFFER_SIZE];
      nonce := new word[LIMBS](i requires 0 <= i < LIMBS => n0[i]);
      len, key := 0, k0;
      new;
      assert nonce[..] == n0;
    }

    /** datum_protocol_chars_to_server, under the buffer lock. */
    method CharsToServer(s: seq<byte>) returns (r: int)
      requires Valid()
      modifies this`len, buffer
      ensures Valid()
      ensures r == if s == [] then 0 else if old(len) + |s| >= BUFFER_SIZE then -1 else |s|
      ensures Pending() == old(Pending()) + if r > 0 then s else []
    {
      if |s| == 0 {
        return 0;
      }
      if len + |s| >= BUFFER_SIZE {
        return -1;
      }
      forall i | 0 <= i < |s| {
        buffer[len + i] := s[i];
      }
      len := len + |s|;
      assert buffer[..len] == old(buffer[..len]) + s;
      r := |s|;
    }

    /** Lines 1633 to 1644: the socket took the first sent bytes, the rest moves to the front. */
    method Drained(sent: nat)
      requires Valid() && 0 < sent <= len
      modifies this`len, buffer
      ensures Valid() && Pending() == old(Pending())[sent..]
    {
      if sent < len {
        forall i | 0 <= i < len - sent {
          buffer[i] := buffer[sent + i];
        }
      }
      len := len - sent;
    }

    /** datum_protocol_mining_cmd, under the stage-1 lock with no drain in between: key and nonce go on
        whether or not there is room. */
    method MiningCmd(u: Suite, m: Message) returns (ok: bool)
      requires Valid() && u.Lawful()
      modifies this, buffer, nonce
      ensures Valid() && key == u.next(old(key))
      ensures Value(nonce[..]) == (Value(old(nonce[..])) + 1) % NONCES
      ensures ok == (old(len) + 4 + |m| + MAC_BYTES < BUFFER_SIZE)
      ensures var f := SealedFrame(u, Value(old(nonce[..])), m);
              Pending() == old(Pending()) + if ok then FrameBytes(old(key), f)
                                            else if old(len) + 4 < BUFFER_SIZE then HideHeader(old(key), f.header)
                                            else []
    {
      NoncesOfLimbs();
      var body := u.seal(Value(nonce[..]), m);
      var head := HideHeader(key, MiningHeader(|m|));
      key := u.next(key);
      IncrementNonce(nonce);
      ghost var before := Pending();
      var i := CharsToServer(head);
      if i < 1 {
        return false;
      }
      i := CharsToServer(body);
      ConcatAssoc(before, head, body);
      ok := i >= 1;
    }
  }

  class ReceiveSide {
    var state: nat                // protocol_state
    const header: array<byte>     // s_header as received
    var cmd: Header               // s_header once the key is taken off
    var key: word                 // receiving_header_key
    const buffer: array<byte>     // server_recv_buffer
    var inBuf: nat                // server_in_buf
    const nonce: array<word>      // session_nonce_receiver
    var handled: seq<Delivery>    // the calls made to command handlers
    var alive: bool

    function Received(): nat
      reads this
    {
      if state == 0 then 0 else if state <= 3 then 4 - state else 4
    }

    ghost predicate Shape()
      reads this
    {
      && header.Length == 4 && buffer.Length == BUFFER_SIZE && nonce.Length == LIMBS && header != buffer
      && header as object != nonce as object && buffer as object != nonce as object
      && state <= 5 && inBuf <= MAX_BODY && cmd.Valid()
    }

    ghost function View(): Rx
      requires Shape()
      reads this, header, buffer, nonce
    {
      Rx(state, header[..Received()], key, cmd, if state == 5 then buffer[..inBuf] else [], Value(nonce[..]), handled, alive)
    }

    /** Lines 1192 to 1211: undo the sealing to the key or to the channel, whichever the header says. */
    method Decrypt(u: Suite) returns (plain: Option<seq<byte>>)
      requires Shape() && state == 5
      modifies nonce
      ensures Shape()
      ensures match OpenBody(u, old(Value(nonce[..])), Frame(cmd, buffer[..inBuf]))
              case None => plain == None && nonce[..] == old(nonce[..])
              case Some((m, n)) => plain == Some(m) && Value(nonce[..]) == n
    {
      NoncesOfLimbs();
      CarriedIsPlusOne(nonce[..]);
      var data := buffer[..inBuf];
      if cmd.toPubkey && !cmd.toChannel {
        if |data| < SEAL_BYTES {
          return None;
        }
        return u.unseal(data);
      }
      plain := Some(data);
      if !cmd.toPubkey && cmd.toChannel {
        if |data| < MAC_BYTES {
          return None;
        }
        plain := u.open(Value(nonce[..]), data);
        if plain.Some? {
          IncrementNonce(nonce);
        }
      }
    }

    /** A complete frame in the buffer: datum_protocol_server_msg. */
    method ServerMsg(u: Suite, round: Round)
      requires Shape() && state == 5 && alive
      modifies this, nonce
      ensures Shape() && View() == Dispatch(u, old(View()), round)
    {
      var plain := Decrypt(u);
      if plain.None? {
        alive := false;
        return;
      }
      var data := plain.value;
      if cmd.signed {
        if |data| < SIGN_BYTES {
          alive := false;
          return;
        }
        var len := |data| - SIGN_BYTES;
        if !u.verify(data[..len], data[len..]) {
          alive := false;
          return;
        }
        data := data[..len];
      }
      handled := handled + [Delivery(cmd, data)];
      alive := round.handled;
      state, inBuf := 0, 0;
    }

    /** More bytes of a header; the state counts those still missing. */
    method TakeHeader(got: seq<byte>)
      requires Shape() && state <= 3 && Received() + |got| <= 4 && |got| > 0
      modifies this`state, header
      ensures Shape()
      ensures state == if old(Received()) + |got| == 4 then 4 else 4 - old(Received()) - |got|
      ensures View() == old(View()).(state := state, head := old(View()).head + got)
    {
      ghost var had := header[..Received()];
      var from := Received();
      forall i | 0 <= i < |got| {
        header[from + i] := got[i];
      }
      assert header[..from + |got|] == had + got && nonce[..] == old(nonce[..]);
      state := if from + |got| == 4 then 4 else 4 - from - |got|;
    }

    /** State 5: more bytes of the body, and the dispatch once it is complete. */
    method TakeBody(u: Suite, got: seq<byte>, round: Round)
      requires Shape() && state == 5 && alive && inBuf + |got| <= cmd.len
      modifies this, buffer, nonce
      ensures Shape() && View() == OnBody(u, old(View()), got, round)
    {
      ghost var had := buffer[..inBuf];
      forall i | 0 <= i < |got| {
        buffer[inBuf + i] := got[i];
      }
      inBuf := inBuf + |got|;
      assert buffer[..inBuf] == had + got && nonce[..] == old(nonce[..]) && header[..] == old(header[..]);
      if inBuf == cmd.len {
        ServerMsg(u, round);
      }
    }

    /** State 4: take the key off the header, go on to the next key, and read what there is of the body. */
    method TakeFrame(u: Suite, input: seq<byte>, limit: nat, round: Round) returns (taken: nat)
      requires Shape() && state == 4 && alive
      modifies this, buffer, nonce
      ensures Shape() && (View(), taken) == AfterHeader(u, old(View()), input, limit, round)
    {
      assert header[..4] == header[..];
      cmd := ShowHeader(key, header[..]);
      key := u.next(key);
      state, inBuf := 5, 0;
      var got := Receive(input, cmd.len, limit);
      TakeBody(u, got, round);
      taken := |got|;
    }

    /** One readable event of the main loop, lines 1718 to 1853. */
    method OnReadable(u: Suite, input: seq<byte>, round: Round) returns (taken: nat)
      requires Shape() && alive && SessionReceiver.Valid(View())
      modifies this, header, buffer, nonce
      ensures Shape() && (View(), taken) == Event(u, old(View()), input, round)
      ensures alive ==> SessionReceiver.Valid(View())
    {
      if 1 <= state <= 3 {
        var got := Receive(input, state, round.first);
        taken := |got|;
        if |got| == 0 {
          return;
        }
        if |got| != state && |got| + state > 4 {
          alive := false;
          return;
        }
        TakeHeader(got);
      } else if state == 0 {
        var got := Receive(input, 4, round.first);
        taken := |got|;
        if |got| == 0 {
          return;
        }
        TakeHeader(got);
        assert [] + got == got;
        if state == 4 {
          var n := TakeFrame(u, input[4..], round.second, round);
          taken := 4 + n;
        }
      } else if state == 4 {
        taken := TakeFrame(u, input, round.first, round);
      } else {
        var got := Receive(input, cmd.len - inBuf, round.first);
        TakeBody(u, got, round);
        taken := |got|;
      }
    }
  }
}
