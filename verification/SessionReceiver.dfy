/** The receiving side of a DATUM session: the state machine that puts frames together from whatever
    recv returns (datum_protocol.c, lines 1718 to 1853), against the reference parser. */
module SessionReceiver {
  import opened Bytes
  import opened SessionKeys
  import opened SessionFraming
  import opened SessionSender

  const SEAL_BYTES: nat := 48  // crypto_box_SEALBYTES
  const SIGN_BYTES: nat := 64  // crypto_sign_BYTES

  // ---------------------------------------------------------------- one complete frame

  /** A command as its handler sees it. */
  datatype Delivery = Delivery(header: Header, data: seq<byte>)

  /** The start of datum_protocol_server_msg: the plain text and the next nonce. */
  function OpenBody(u: Suite, nonce: nat, f: Frame): Option<(seq<byte>, nat)> {
    if f.header.toPubkey && !f.header.toChannel then
      if |f.body| < SEAL_BYTES then None else
      match u.unseal(f.body) case None => None case Some(m) => Some((m, nonce))
    else if !f.header.toPubkey && f.header.toChannel then
      if |f.body| < MAC_BYTES then None else
      match u.open(nonce, f.body) case None => None case Some(m) => Some((m, (nonce + 1) % NONCES))
    else Some((f.body, nonce))
  }

  /** The data of a plain text: a signature is verified and stripped. */
  function Stripped(u: Suite, signed: bool, m: seq<byte>): Option<seq<byte>> {
    if !signed then Some(m)
    else if |m| < SIGN_BYTES then None
    else
      var n := |m| - SIGN_BYTES;
      if u.verify(m[..n], m[n..]) then Some(m[..n]) else None
  }

  function OpenFrame(u: Suite, nonce: nat, f: Frame): Option<(Delivery, nat)> {
    match OpenBody(u, nonce, f)
    case None => None
    case Some((m, n)) =>
      match Stripped(u, f.header.signed, m) case None => None case Some(data) => Some((Delivery(f.header, data), n))
  }

  /** Frames opened one after the other. */
  function OpenAll(u: Suite, nonce: nat, frames: seq<Frame>): Option<(seq<Delivery>, nat)> {
    if frames == [] then Some(([], nonce)) else
    var last := |frames| - 1;
    match OpenAll(u, nonce, frames[..last])
    case None => None
    case Some((ds, n)) =>
      match OpenFrame(u, n, frames[last])
      case None => None
      case Some((d, n')) => Some((ds + [d], n'))
  }

  // ---------------------------------------------------------------- the machine

  /** protocol_state, the bytes of s_header received so far, s_header decoded, the receive buffer up to
      server_in_buf, and what has been handed to the command handlers. */
  datatype Rx = Rx(state: nat, head: seq<byte>, key: word, cmd: Header, body: seq<byte>, nonce: nat,
                   out: seq<Delivery>, alive: bool)

  /** What one round of the main loop meets: the most that its first and its second recv return, and
      whether the handler is content. */
  datatype Round = Round(first: nat, second: nat, handled: bool)

  const NO_HEADER := Header(0, 0, false, false, false, 0)

  function Start(k0: word, n0: nat): Rx {
    Rx(0, [], k0, NO_HEADER, [], n0, [], true)
  }

  function Min(a: nat, b: nat): nat {
    if a <= b then a else b
  }

  /** recv of at most max bytes; nothing means that it would block. */
  function Receive(input: seq<byte>, max: nat, limit: nat): (got: seq<byte>)
    ensures got <= input && |got| <= max
  {
    input[..Min(Min(max, limit), |input|)]
  }

  predicate Valid(rx: Rx) {
    && rx.state <= 5
    && |rx.head| == (if rx.state == 0 then 0 else if rx.state <= 3 then 4 - rx.state else 4)
    && (rx.state == 5 ==> rx.cmd.Valid() && |rx.body| < rx.cmd.len)
  }

  /** A complete frame goes to its handler. The nonce has gone on when a signature turns out bad. */
  function Dispatch(u: Suite, rx: Rx, round: Round): (r: Rx)
    ensures r.alive ==> Valid(r)
  {
    match OpenBody(u, rx.nonce, Frame(rx.cmd, rx.body))
    case None => rx.(alive := false)
    case Some((m, n)) =>
      match Stripped(u, rx.cmd.signed, m)
      case None => rx.(alive := false, nonce := n)
      case Some(data) =>
        rx.(state := 0, head := [], body := [], nonce := n, out := rx.out + [Delivery(rx.cmd, data)], alive := round.handled)
  }

  /** States 1 to 3: the rest of a header. */
  function OnHeader(rx: Rx, got: seq<byte>): (r: Rx)
    requires Valid(rx) && 1 <= rx.state <= 3
    ensures r.alive ==> Valid(r)
  {
    if got == [] then rx
    else if |got| == rx.state then rx.(state := 4, head := rx.head + got)
    else if |got| > rx.state || |got| + rx.state > 4 then rx.(alive := false)
    else rx.(state := rx.state - |got|, head := rx.head + got)
  }

  /** State 5: more of the body. */
  function OnBody(u: Suite, rx: Rx, got: seq<byte>, round: Round): (r: Rx)
    requires rx.state == 5 && |rx.head| == 4 && rx.cmd.Valid()
    ensures r.alive ==> Valid(r)
  {
    var r := rx.(body := rx.body + got);
    if |r.body| < r.cmd.len then r else Dispatch(u, r, round)
  }

  /** State 4: the header is decoded and its key used up. */
  function Decode(u: Suite, rx: Rx): Rx
    requires |rx.head| == 4
  {
    rx.(state := 5, cmd := ShowHeader(rx.key, rx.head), key := u.next(rx.key), body := [])
  }

  function AfterHeader(u: Suite, rx: Rx, input: seq<byte>, limit: nat, round: Round): (r: (Rx, nat))
    requires |rx.head| == 4
    ensures r.1 <= |input| && (r.0.alive ==> Valid(r.0))
  {
    var decoded := Decode(u, rx);
    var got := Receive(input, decoded.cmd.len, limit);
    (OnBody(u, decoded, got, round), |got|)
  }

  /** One readable event: the new state and how much of the input it took. */
  function Event(u: Suite, rx: Rx, input: seq<byte>, round: Round): (r: (Rx, nat))
    requires Valid(rx)
    ensures r.1 <= |input| && (r.0.alive ==> Valid(r.0))
  {
    if rx.state == 0 then
      var got := Receive(input, 4, round.first);
      if got == [] then (rx, 0)
      else if |got| < 4 then (rx.(state := 4 - |got|, head := got), |got|)
      else
        var (r, n) := AfterHeader(u, rx.(state := 4, head := got), input[4..], round.second, round);
        (r, 4 + n)
    else if rx.state <= 3 then
      var got := Receive(input, rx.state, round.first);
      (OnHeader(rx, got), |got|)
    else if rx.state == 4 then AfterHeader(u, rx, input, round.first, round)
    else
      var got := Receive(input, rx.cmd.len - |rx.body|, round.first);
      (OnBody(u, rx, got, round), |got|)
  }

  /** An event that finds bytes takes some, or ends the connection; only a complete header that announces no
      body is decoded without any. */
  lemma EventProgress(u: Suite, rx: Rx, input: seq<byte>, round: Round)
    requires Valid(rx) && rx.alive && input != [] && round.first > 0
    ensures var (r, n) := Event(u, rx, input, round);
            n > 0 || (rx.state == 4 && ShowHeader(rx.key, rx.head).len == 0)
  {
  }

  // ---------------------------------------------------------------- what a state means

  /** The bytes of the frame not complete yet. */
  function Partial(rx: Rx): seq<byte> {
    if rx.state == 5 then rx.head + rx.body else rx.head
  }

  /** Having seen these bytes means: these frames, each under the next key, then a part of another one;
      and the frames were opened in order. */
  ghost predicate Tracks(u: Suite, k0: word, n0: nat, rx: Rx, done: seq<Frame>, seen: seq<byte>) {
    && Valid(rx) && rx.alive && ValidFrames(done)
    && seen == Stream(u.next, k0, done) + Partial(rx)
    && rx.key == KeyAt(u.next, k0, |done| + if rx.state == 5 then 1 else 0)
    && (rx.state == 5 ==> rx.cmd == ShowHeader(KeyAt(u.next, k0, |done|), rx.head))
    && OpenAll(u, n0, done) == Some((rx.out, rx.nonce))
  }

  lemma StartTracks(u: Suite, k0: word, n0: nat)
    ensures Tracks(u, k0, n0, Start(k0, n0), [], [])
  {
  }

  lemma OpenAllAppend(u: Suite, n0: nat, done: seq<Frame>, f: Frame)
    ensures OpenAll(u, n0, done + [f])
         == match OpenAll(u, n0, done)
            case None => None
            case Some((ds, n)) => match OpenFrame(u, n, f)
              case None => None
              case Some((d, n')) => Some((ds + [d], n'))
  {
    var all := done + [f];
    assert all[..|all| - 1] == done && all[|all| - 1] == f;
  }

  /** A header was decoded, and the body is not longer than it says. */
  ghost predicate Loaded(u: Suite, k0: word, n0: nat, rx: Rx, done: seq<Frame>, seen: seq<byte>) {
    && rx.alive && rx.state == 5 && |rx.head| == 4 && rx.cmd.Valid() && |rx.body| <= rx.cmd.len && ValidFrames(done)
    && seen == Stream(u.next, k0, done) + (rx.head + rx.body)
    && rx.key == KeyAt(u.next, k0, |done| + 1)
    && rx.cmd == ShowHeader(KeyAt(u.next, k0, |done|), rx.head)
    && OpenAll(u, n0, done) == Some((rx.out, rx.nonce))
  }

  /** A frame in state 5 with its whole body is one more frame of the stream. */
  lemma LoadedFrame(u: Suite, k0: word, n0: nat, rx: Rx, done: seq<Frame>, seen: seq<byte>)
    requires Loaded(u, k0, n0, rx, done, seen) && |rx.body| == rx.cmd.len
    ensures seen == Stream(u.next, k0, done + [Frame(rx.cmd, rx.body)])
  {
    var f, key := Frame(rx.cmd, rx.body), KeyAt(u.next, k0, |done|);
    ShownHeaderHides(key, rx.head);
    assert FrameBytes(key, f) == rx.head + rx.body;
    StreamAppend(u.next, k0, done, f);
  }

  lemma DispatchTracks(u: Suite, k0: word, n0: nat, rx: Rx, done: seq<Frame>, seen: seq<byte>, round: Round)
    requires Loaded(u, k0, n0, rx, done, seen) && |rx.body| == rx.cmd.len
    requires Dispatch(u, rx, round).alive
    ensures Tracks(u, k0, n0, Dispatch(u, rx, round), done + [Frame(rx.cmd, rx.body)], seen)
  {
    LoadedFrame(u, k0, n0, rx, done, seen);
    OpenAllAppend(u, n0, done, Frame(rx.cmd, rx.body));
    assert seen + [] == seen;
  }

  lemma OnBodyTracks(u: Suite, k0: word, n0: nat, rx: Rx, done: seq<Frame>, seen: seq<byte>, got: seq<byte>, round: Round)
    returns (done': seq<Frame>)
    requires Loaded(u, k0, n0, rx, done, seen) && |rx.body| + |got| <= rx.cmd.len
    requires OnBody(u, rx, got, round).alive
    ensures Tracks(u, k0, n0, OnBody(u, rx, got, round), done', seen + got)
    ensures done <= done' && |done'| <= |done| + 1
  {
    var r := rx.(body := rx.body + got);
    ConcatAssoc(Stream(u.next, k0, done), rx.head + rx.body, got);
    ConcatAssoc(rx.head, rx.body, got);
    assert Loaded(u, k0, n0, r, done, seen + got);
    done' := done;
    if |r.body| == r.cmd.len {
      DispatchTracks(u, k0, n0, r, done, seen + got, round);
      done' := done + [Frame(r.cmd, r.body)];
    }
  }

  lemma DecodeLoads(u: Suite, k0: word, n0: nat, rx: Rx, done: seq<Frame>, seen: seq<byte>)
    requires Tracks(u, k0, n0, rx, done, seen) && rx.state == 4
    ensures Loaded(u, k0, n0, Decode(u, rx), done, seen) && Decode(u, rx).body == []
  {
    KeyAfter(u.next, k0, |done|);
    assert rx.head + [] == rx.head;
  }

  /** A receiver with a complete header that is not decoded yet. */
  lemma AfterHeaderTracks(u: Suite, k0: word, n0: nat, rx: Rx, done: seq<Frame>, seen: seq<byte>,
                          input: seq<byte>, limit: nat, round: Round) returns (done': seq<Frame>)
    requires Tracks(u, k0, n0, rx, done, seen) && rx.state == 4
    requires AfterHeader(u, rx, input, limit, round).0.alive
    ensures var (r, n) := AfterHeader(u, rx, input, limit, round); Tracks(u, k0, n0, r, done', seen + input[..n])
    ensures done <= done' && |done'| <= |done| + 1
  {
    var decoded := Decode(u, rx);
    DecodeLoads(u, k0, n0, rx, done, seen);
    var got := Receive(input, decoded.cmd.len, limit);
    done' := OnBodyTracks(u, k0, n0, decoded, done, seen, got, round);
    assert input[..|got|] == got;
  }

  lemma HeaderTracks(u: Suite, k0: word, n0: nat, rx: Rx, done: seq<Frame>, seen: seq<byte>, got: seq<byte>)
    requires Tracks(u, k0, n0, rx, done, seen) && 1 <= rx.state <= 3 && |got| <= rx.state && OnHeader(rx, got).alive
    ensures Tracks(u, k0, n0, OnHeader(rx, got), done, seen + got)
  {
    ConcatAssoc(Stream(u.next, k0, done), rx.head, got);
    assert rx.head + [] == rx.head;
  }

  lemma WholeHeaderEvent(u: Suite, rx: Rx, input: seq<byte>, round: Round)
    requires Valid(rx) && rx.state == 0 && |Receive(input, 4, round.first)| == 4
    ensures var (r, n) := AfterHeader(u, rx.(state := 4, head := input[..4]), input[4..], round.second, round);
            Event(u, rx, input, round) == (r, 4 + n)
  {
  }

  lemma TakesHeader(u: Suite, k0: word, n0: nat, rx: Rx, done: seq<Frame>, seen: seq<byte>, got: seq<byte>)
    requires Tracks(u, k0, n0, rx, done, seen) && rx.state == 0 && |got| == 4
    ensures Tracks(u, k0, n0, rx.(state := 4, head := got), done, seen + got)
  {
    assert seen + [] == seen;
  }

  lemma HeaderThen(seen: seq<byte>, input: seq<byte>, n: nat)
    requires 4 + n <= |input|
    ensures seen + input[..4] + input[4..][..n] == seen + input[..4 + n]
  {
    assert input[..4 + n] == input[..4] + input[4..][..n];
    ConcatAssoc(seen, input[..4], input[4..][..n]);
  }

  /** The first four bytes of a frame at once. */
  lemma WholeHeaderTracks(u: Suite, k0: word, n0: nat, rx: Rx, done: seq<Frame>, seen: seq<byte>,
                          input: seq<byte>, round: Round)
    returns (done': seq<Frame>)
    requires Tracks(u, k0, n0, rx, done, seen) && rx.state == 0 && |Receive(input, 4, round.first)| == 4
    requires Event(u, rx, input, round).0.alive
    ensures var (r, n) := Event(u, rx, input, round); Tracks(u, k0, n0, r, done', seen + input[..n])
    ensures done <= done' && |done'| <= |done| + 1
  {
    var got, rest := input[..4], input[4..];
    WholeHeaderEvent(u, rx, input, round);
    var r := rx.(state := 4, head := got);
    TakesHeader(u, k0, n0, rx, done, seen, got);
    done' := AfterHeaderTracks(u, k0, n0, r, done, seen + got, rest, round.second, round);
    HeaderThen(seen, input, AfterHeader(u, r, rest, round.second, round).1);
  }

  /** Events that bring a part of a header. */
  lemma HeaderEventTracks(u: Suite, k0: word, n0: nat, rx: Rx, done: seq<Frame>, seen: seq<byte>,
                          input: seq<byte>, round: Round)
    requires Tracks(u, k0, n0, rx, done, seen) && rx.state <= 3
    requires rx.state == 0 ==> |Receive(input, 4, round.first)| < 4
    requires Event(u, rx, input, round).0.alive
    ensures var (r, n) := Event(u, rx, input, round); Tracks(u, k0, n0, r, done, seen + input[..n])
  {
    if rx.state == 0 {
      assert Stream(u.next, k0, done) + [] == seen;
    } else {
      HeaderTracks(u, k0, n0, rx, done, seen, Receive(input, rx.state, round.first));
    }
  }

  /** One event keeps to the stream: it takes bytes from the front of the input, and completes at most
      one frame. */
  lemma EventTracks(u: Suite, k0: word, n0: nat, rx: Rx, done: seq<Frame>, seen: seq<byte>, input: seq<byte>, round: Round)
    returns (done': seq<Frame>)
    requires Tracks(u, k0, n0, rx, done, seen) && Event(u, rx, input, round).0.alive
    ensures var (r, n) := Event(u, rx, input, round); Tracks(u, k0, n0, r, done', seen + input[..n])
    ensures done <= done' && |done'| <= |done| + 1
  {
    if rx.state == 5 {
      done' := OnBodyTracks(u, k0, n0, rx, done, seen, Receive(input, rx.cmd.len - |rx.body|, round.first), round);
    } else if rx.state == 4 {
      done' := AfterHeaderTracks(u, k0, n0, rx, done, seen, input, round.first, round);
    } else if rx.state == 0 && |Receive(input, 4, round.first)| == 4 {
      done' := WholeHeaderTracks(u, k0, n0, rx, done, seen, input, round);
    } else {
      done' := done;
      HeaderEventTracks(u, k0, n0, rx, done, seen, input, round);
    }
  }

  // ---------------------------------------------------------------- runs

  /** An event of a connected receiver on the bytes of one direction takes those from from to to. */
  ghost predicate Moves(u: Suite, input: seq<byte>, round: Round, rx: Rx, from: nat, rx': Rx, to: nat) {
    && Valid(rx) && rx.alive && from <= to <= |input|
    && Event(u, rx, input[from..], round) == (rx', to - from)
  }

  /** A run: the states it passes through, and how many bytes had been taken in each. */
  ghost predicate IsRun(u: Suite, k0: word, n0: nat, input: seq<byte>, rounds: seq<Round>,
                        states: seq<Rx>, taken: seq<nat>)
  {
    && |states| == |taken| == |rounds| + 1
    && states[0] == Start(k0, n0) && taken[0] == 0
    && (forall i :: 0 <= i < |taken| ==> taken[i] <= |input|)
    && forall i :: 0 <= i < |rounds| ==> Moves(u, input, rounds[i], states[i], taken[i], states[i + 1], taken[i + 1])
  }

  lemma MoveTracks(u: Suite, k0: word, n0: nat, input: seq<byte>, round: Round, rx: Rx, from: nat, rx': Rx, to: nat,
                   done: seq<Frame>)
    returns (done': seq<Frame>)
    requires Moves(u, input, round, rx, from, rx', to) && rx'.alive
    requires Tracks(u, k0, n0, rx, done, input[..from])
    ensures Tracks(u, k0, n0, rx', done', input[..to])
    ensures done <= done' && |done'| <= |done| + 1
  {
    done' := EventTracks(u, k0, n0, rx, done, input[..from], input[from..], round);
    assert input[..to] == input[..from] + input[from..][..to - from];
  }

  /** A receiver that is still connected tracks the bytes it has taken. */
  lemma {:induction false} RunTracks(u: Suite, k0: word, n0: nat, input: seq<byte>, rounds: seq<Round>,
                                     states: seq<Rx>, taken: seq<nat>, i: nat) returns (done: seq<Frame>)
    requires IsRun(u, k0, n0, input, rounds, states, taken) && i < |states| && states[i].alive
    ensures taken[i] <= |input| && Tracks(u, k0, n0, states[i], done, input[..taken[i]])
  {
    if i == 0 {
      StartTracks(u, k0, n0);
      assert input[..0] == [];
      return [];
    }
    var j := i - 1;
    assert Moves(u, input, rounds[j], states[j], taken[j], states[j + 1], taken[j + 1]);
    var before := RunTracks(u, k0, n0, input, rounds, states, taken, j);
    done := MoveTracks(u, k0, n0, input, rounds[j], states[j], taken[j], states[i], taken[i], before);
  }

  /** The frames a receiver has completed are the complete frames of what it saw, except that a frame
      without a body waits for the next event after its header came in pieces. */
  lemma TracksParses(u: Suite, k0: word, n0: nat, rx: Rx, done: seq<Frame>, seen: seq<byte>)
    requires Tracks(u, k0, n0, rx, done, seen)
    ensures var all := Parse(u.next, k0, seen);
            && done <= all && |all| <= |done| + 1
            && (|all| > |done| ==> rx.state == 4 && all[|done|].body == [])
  {
    ParseStream(u.next, k0, done, Partial(rx));
    ParsePartial(u, KeyAt(u.next, k0, |done|), rx);
  }

  lemma ParsePartial(u: Suite, key: word, rx: Rx)
    requires Valid(rx) && (rx.state == 5 ==> rx.cmd == ShowHeader(key, rx.head))
    ensures var rest := Parse(u.next, key, Partial(rx));
            |rest| <= 1 && (|rest| == 1 ==> rx.state == 4 && rest[0].body == [])
  {
    var p := Partial(rx);
    if rx.state == 5 {
      assert p[..4] == rx.head;
    } else if rx.state == 4 {
      var n := ShowHeader(key, p[..4]).len;
      if n == 0 {
        assert p[4..] == [];
      }
    }
  }

  // ---------------------------------------------------------------- theorems

  lemma {:induction false} OpenAllLength(u: Suite, n0: nat, frames: seq<Frame>)
    requires OpenAll(u, n0, frames).Some?
    ensures |OpenAll(u, n0, frames).value.0| == |frames|
  {
    if frames != [] {
      OpenAllLength(u, n0, frames[..|frames| - 1]);
    }
  }

  /** What a receiver in this state has handed on of the n bytes it took from the input. */
  ghost predicate Refines(u: Suite, k0: word, n0: nat, rx: Rx, input: seq<byte>, n: nat) {
    && n <= |input|
    && var all, seen := Parse(u.next, k0, input), Parse(u.next, k0, input[..n]);
    && |rx.out| <= |seen| <= |all| && seen <= all && |seen| <= |rx.out| + 1
    && (|seen| > |rx.out| ==> rx.state == 4 && seen[|rx.out|].body == [])
    && OpenAll(u, n0, all[..|rx.out|]) == Some((rx.out, rx.nonce))
    && rx.key == KeyAt(u.next, k0, |rx.out| + if rx.state == 5 then 1 else 0)
  }

  lemma PrefixOfPrefix(done: seq<Frame>, seen: seq<Frame>, all: seq<Frame>)
    requires done <= seen <= all
    ensures |done| <= |seen| <= |all| && all[..|done|] == done
  {
    assert forall i :: 0 <= i < |done| ==> all[i] == seen[i] == done[i];
  }

  lemma SplitAt(input: seq<byte>, n: nat)
    requires n <= |input|
    ensures input == input[..n] + input[n..]
  {
  }

  lemma TracksRefines(u: Suite, k0: word, n0: nat, rx: Rx, done: seq<Frame>, input: seq<byte>, n: nat)
    requires n <= |input| && Tracks(u, k0, n0, rx, done, input[..n])
    ensures Refines(u, k0, n0, rx, input, n)
  {
    TracksParses(u, k0, n0, rx, done, input[..n]);
    SplitAt(input, n);
    ParseMonotone(u.next, k0, input[..n], input[n..]);
    OpenAllLength(u, n0, done);
    PrefixOfPrefix(done, Parse(u.next, k0, input[..n]), Parse(u.next, k0, input));
  }

  /** However the bytes arrive, a connected receiver has handed on a prefix of the frames that the whole
      stream consists of, each opened under the next nonce; it has used one key for each header; and it
      is behind only by a frame without a body whose header came in pieces. */
  lemma ReceiverRefinesParser(u: Suite, k0: word, n0: nat, input: seq<byte>, rounds: seq<Round>,
                              states: seq<Rx>, taken: seq<nat>)
    requires IsRun(u, k0, n0, input, rounds, states, taken) && states[|rounds|].alive
    ensures Refines(u, k0, n0, states[|rounds|], input, taken[|rounds|])
  {
    var done := RunTracks(u, k0, n0, input, rounds, states, taken, |rounds|);
    TracksRefines(u, k0, n0, states[|rounds|], done, input, taken[|rounds|]);
  }

  /** Putting a header together fails on exactly one way to split it: one byte, then two. */
  lemma HeaderFailsOnOneSplit(u: Suite, rx: Rx, input: seq<byte>, round: Round)
    requires Valid(rx) && rx.alive
    requires rx.state == 0 ==> |Receive(input, 4, round.first)| < 4
    requires rx.state <= 3
    ensures !Event(u, rx, input, round).0.alive <==> |rx.head| == 1 && |Receive(input, 3, round.first)| == 2
  {
  }
}
