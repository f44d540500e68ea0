/** What the gateway gets of what the pool sends it: signed or not, sealed to the channel, sealed to the
    gateway's key or in clear (datum_protocol.c, lines 1189 to 1232). */
module SessionInbound {
  import opened Bytes
  import opened SessionKeys
  import opened SessionFraming
  import opened SessionSender
  import opened SessionReceiver
  import opened SessionLiveness

  /** A message of the pool: the header it goes under, its data, its signature (none, or 64 bytes), and the
      bytes it is sent as. */
  datatype Letter = Letter(header: Header, data: seq<byte>, sig: seq<byte>, body: seq<byte>) {
    function Text(): seq<byte> {
      data + sig
    }
  }

  /** The body is data and signature, sealed as the header says: to the channel, to the key, or, with both or
      none of the two flags, not at all. */
  ghost predicate Sealed(u: Suite, nonce: nat, l: Letter) {
    && l.header.Valid() && |l.body| == l.header.len
    && |l.sig| == (if l.header.signed then 64 else 0)
    && (if l.header.toChannel == l.header.toPubkey then l.body == l.Text()
        else if l.header.toChannel then l.body == u.seal(nonce, l.Text())
        else |l.body| >= 48 && u.unseal(l.body) == Some(l.Text()))
  }

  /** Nobody signed it, or the signature is good. */
  predicate WellSigned(u: Suite, l: Letter) {
    l.header.signed ==> u.verify(l.data, l.sig)
  }

  function Next(l: Letter, nonce: nat): nat {
    if l.header.toChannel && !l.header.toPubkey then (nonce + 1) % NONCES else nonce
  }

  function FrameOf(l: Letter): Frame {
    Frame(l.header, l.body)
  }

  /** A letter opens to exactly its data, if and only if its signature is good; the nonce goes on by one for
      the channel, and stays otherwise. */
  lemma LetterOpens(u: Suite, nonce: nat, l: Letter)
    requires u.Lawful() && Sealed(u, nonce, l)
    ensures OpenFrame(u, nonce, FrameOf(l))
         == if WellSigned(u, l) then Some((Delivery(l.header, l.data), Next(l, nonce))) else None
  {
    assert OpenBody(u, nonce, FrameOf(l)) == Some((l.Text(), Next(l, nonce)));
    if l.header.signed {
      assert l.Text()[..|l.data|] == l.data && l.Text()[|l.data|..] == l.sig;
    } else {
      assert l.Text() == l.data;
    }
  }

  /** A frame opens only to what it carries: in clear, sealed to the key or sealed to the channel, with a
      good signature of its last 64 bytes over the rest where the header says so. */
  lemma OpensOnly(u: Suite, nonce: nat, f: Frame)
    ensures OpenFrame(u, nonce, f).Some? ==>
              var (d, n), h := OpenFrame(u, nonce, f).value, f.header;
              && d.header == h
              && exists sig: seq<byte> ::
                   && |sig| == (if h.signed then 64 else 0) && (h.signed ==> u.verify(d.data, sig))
                   && (if h.toChannel && !h.toPubkey then u.open(nonce, f.body) == Some(d.data + sig)
                       else if h.toPubkey && !h.toChannel then u.unseal(f.body) == Some(d.data + sig)
                       else f.body == d.data + sig)
  {
    if OpenFrame(u, nonce, f).Some? {
      var (d, n) := OpenFrame(u, nonce, f).value;
      var m := OpenBody(u, nonce, f).value.0;
      var sig := m[|d.data|..];
      assert m == d.data + sig;
      assert |sig| == if f.header.signed then 64 else 0;
    }
  }

  /** A complete letter in the buffer is handed on if and only if its signature is good; otherwise the
      connection ends. */
  lemma LetterDispatched(u: Suite, rx: Rx, l: Letter, round: Round)
    requires u.Lawful() && Sealed(u, rx.nonce, l) && rx.cmd == l.header && rx.body == l.body
    ensures var r := Dispatch(u, rx, round);
            && (WellSigned(u, l) ==> r.out == rx.out + [Delivery(l.header, l.data)] && r.alive == round.handled)
            && (!WellSigned(u, l) ==> r.out == rx.out && !r.alive)
            && (WellSigned(u, l) ==> r.state == 0 && r.nonce == Next(l, rx.nonce))
  {
    LetterOpens(u, rx.nonce, l);
  }

  /** The same of a whole letter that arrives in one event. */
  lemma LetterReceived(u: Suite, rx: Rx, l: Letter, round: Round)
    requires u.Lawful() && Valid(rx) && rx.alive && rx.state == 0 && Sealed(u, rx.nonce, l)
    requires round.first >= 4 && round.second >= |l.body|
    ensures var (r, n) := Event(u, rx, FrameBytes(rx.key, FrameOf(l)), round);
            && n == 4 + |l.body|
            && (WellSigned(u, l) ==> r.out == rx.out + [Delivery(l.header, l.data)] && r.alive == round.handled)
            && (!WellSigned(u, l) ==> r.out == rx.out && !r.alive)
            && (WellSigned(u, l) ==> r.state == 0 && r.nonce == Next(l, rx.nonce) && r.key == u.next(rx.key))
  {
    var input := FrameBytes(rx.key, FrameOf(l));
    HeaderRoundTrip(rx.key, l.header);
    assert input[..4] == HideHeader(rx.key, l.header) && input[4..] == l.body;
    WholeHeaderEvent(u, rx, input, round);
    var decoded := Decode(u, rx.(state := 4, head := input[..4]));
    assert [] + l.body == l.body && l.body[..|l.body|] == l.body;
    LetterDispatched(u, decoded.(body := l.body), l, round);
  }

  // ---------------------------------------------------------------- any number of letters

  /** The nonce after the first n letters. */
  function NonceBefore(n0: nat, ls: seq<Letter>, n: nat): nat
    requires n <= |ls|
  {
    if n == 0 then n0 else Next(ls[n - 1], NonceBefore(n0, ls, n - 1))
  }

  /** Letters sealed one after the other, all signatures good. */
  ghost predicate Posted(u: Suite, n0: nat, ls: seq<Letter>) {
    forall i :: 0 <= i < |ls| ==> Sealed(u, NonceBefore(n0, ls, i), ls[i]) && WellSigned(u, ls[i])
  }

  function FramesOf(ls: seq<Letter>): (fs: seq<Frame>)
    ensures |fs| == |ls| && forall i :: 0 <= i < |ls| ==> fs[i] == FrameOf(ls[i])
  {
    seq(|ls|, i requires 0 <= i < |ls| => FrameOf(ls[i]))
  }

  function DataOf(ls: seq<Letter>): (ds: seq<Delivery>)
    ensures |ds| == |ls| && forall i :: 0 <= i < |ls| ==> ds[i] == Delivery(ls[i].header, ls[i].data)
  {
    seq(|ls|, i requires 0 <= i < |ls| => Delivery(ls[i].header, ls[i].data))
  }

  lemma OneMoreOpens(u: Suite, n0: nat, done: seq<Frame>, out: seq<Delivery>, nonce: nat, l: Letter)
    requires u.Lawful() && OpenAll(u, n0, done) == Some((out, nonce)) && Sealed(u, nonce, l) && WellSigned(u, l)
    ensures OpenAll(u, n0, done + [FrameOf(l)]) == Some((out + [Delivery(l.header, l.data)], Next(l, nonce)))
  {
    LetterOpens(u, nonce, l);
    OpenAllAppend(u, n0, done, FrameOf(l));
  }

  lemma OneMore<T>(s: seq<T>, n: nat)
    requires n < |s|
    ensures s[..n + 1] == s[..n] + [s[n]]
  {
  }

  lemma {:induction false} LettersOpen(u: Suite, n0: nat, ls: seq<Letter>, n: nat)
    requires u.Lawful() && Posted(u, n0, ls) && n <= |ls|
    ensures OpenAll(u, n0, FramesOf(ls)[..n]) == Some((DataOf(ls)[..n], NonceBefore(n0, ls, n)))
  {
    if n > 0 {
      var m := n - 1;
      LettersOpen(u, n0, ls, m);
      OneMore(FramesOf(ls), m);
      OneMore(DataOf(ls), m);
      OneMoreOpens(u, n0, FramesOf(ls)[..m], DataOf(ls)[..m], NonceBefore(n0, ls, m), ls[m]);
    }
  }

  /** However the bytes of the pool's letters arrive, a gateway still connected has handed on exactly the
      data of a prefix of them, in order, and its nonce is the next one; of the letters whose bytes it has
      taken completely it is behind only by one without a body. */
  lemma {:induction false} LettersDelivered(u: Suite, k0: word, n0: nat, ls: seq<Letter>, wire: seq<byte>,
                                            rounds: seq<Round>, states: seq<Rx>, taken: seq<nat>)
    requires u.Lawful() && Posted(u, n0, ls) && ValidFrames(FramesOf(ls))
    requires wire <= Stream(u.next, k0, FramesOf(ls))
    requires SessionReceiver.IsRun(u, k0, n0, wire, rounds, states, taken) && states[|rounds|].alive
    ensures var rx := states[|rounds|];
            && |rx.out| <= |ls| && rx.out == DataOf(ls)[..|rx.out|]
            && rx.nonce == NonceBefore(n0, ls, |rx.out|)
            && (wire == Stream(u.next, k0, FramesOf(ls)) && taken[|rounds|] == |wire|
                ==> |ls| == |rx.out| || (|ls| == |rx.out| + 1 && ls[|rx.out|].body == []))
  {
    var rx, frames := states[|rounds|], FramesOf(ls);
    ReceiverRefinesParser(u, k0, n0, wire, rounds, states, taken);
    PrefixOfStream(u.next, k0, frames, wire);
    var all := Parse(u.next, k0, wire);
    PrefixOfPrefix(all[..|rx.out|], all, frames);
    LettersOpen(u, n0, ls, |rx.out|);
    if wire == Stream(u.next, k0, frames) && taken[|rounds|] == |wire| {
      ParseStream(u.next, k0, frames, []);
      assert wire + [] == wire && frames + Parse(u.next, KeyAt(u.next, k0, |frames|), []) == frames;
      assert wire[..|wire|] == wire;
    }
  }

  /** And it stays connected, unless a header arrives in the one bad split or a handler ends it. */
  lemma {:induction false} GatewayStaysConnected(u: Suite, k0: word, n0: nat, ls: seq<Letter>, wire: seq<byte>,
                                                 rounds: seq<Round>, states: seq<Rx>, taken: seq<nat>)
    requires u.Lawful() && Posted(u, n0, ls) && ValidFrames(FramesOf(ls))
    requires wire <= Stream(u.next, k0, FramesOf(ls))
    requires SessionReceiver.IsRun(u, k0, n0, wire, rounds, states, taken) && Harmless(wire, rounds, states, taken)
    ensures states[|rounds|].alive
  {
    LettersOpen(u, n0, ls, |ls|);
    assert FramesOf(ls)[..|ls|] == FramesOf(ls);
    ReceiverLives(u, k0, n0, FramesOf(ls), wire, rounds, states, taken);
  }
}
