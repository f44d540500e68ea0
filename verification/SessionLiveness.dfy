/** A receiver on the bytes of frames that open stays connected (datum_protocol.c, lines 1718 to 1853). */
module SessionLiveness {
  import opened Bytes
  import opened SessionKeys
  import opened SessionFraming
  import opened SessionSender
  import opened SessionReceiver

  /** The frames of a direction, all of which open in turn. */
  ghost predicate Openable(u: Suite, n0: nat, frames: seq<Frame>) {
    ValidFrames(frames) && OpenAll(u, n0, frames).Some?
  }

  lemma {:induction false} OpenAllPrefix(u: Suite, n0: nat, frames: seq<Frame>, n: nat)
    requires OpenAll(u, n0, frames).Some? && n <= |frames|
    ensures OpenAll(u, n0, frames[..n]).Some?
    decreases |frames|
  {
    if n < |frames| {
      OpenAllPrefix(u, n0, frames[..|frames| - 1], n);
      assert frames[..|frames| - 1][..n] == frames[..n];
    } else {
      assert frames[..n] == frames;
    }
  }

  /** The next frame of such a stream opens under the next nonce. */
  lemma NextFrameOpens(u: Suite, k0: word, n0: nat, frames: seq<Frame>, done: seq<Frame>, f: Frame,
                       out: seq<Delivery>, nonce: nat)
    requires Openable(u, n0, frames) && ValidFrames(done) && f.Valid()
    requires Stream(u.next, k0, done + [f]) <= Stream(u.next, k0, frames)
    requires OpenAll(u, n0, done) == Some((out, nonce))
    ensures OpenFrame(u, nonce, f).Some?
  {
    var all := done + [f];
    var got := Stream(u.next, k0, all);
    ParseStream(u.next, k0, all, []);
    assert got + [] == got && all + Parse(u.next, KeyAt(u.next, k0, |all|), []) == all;
    PrefixOfStream(u.next, k0, frames, got);
    assert frames[..|all|] == all;
    OpenAllPrefix(u, n0, frames, |all|);
    OpenAllAppend(u, n0, done, f);
  }

  lemma OnBodyLives(u: Suite, k0: word, n0: nat, frames: seq<Frame>, rx: Rx, done: seq<Frame>, seen: seq<byte>,
                    got: seq<byte>, round: Round)
    requires Openable(u, n0, frames) && round.handled
    requires Loaded(u, k0, n0, rx, done, seen) && |rx.body| + |got| <= rx.cmd.len
    requires seen + got <= Stream(u.next, k0, frames)
    ensures OnBody(u, rx, got, round).alive
  {
    var r := rx.(body := rx.body + got);
    ConcatAssoc(Stream(u.next, k0, done), rx.head + rx.body, got);
    ConcatAssoc(rx.head, rx.body, got);
    assert Loaded(u, k0, n0, r, done, seen + got);
    if |r.body| == r.cmd.len {
      LoadedFrame(u, k0, n0, r, done, seen + got);
      NextFrameOpens(u, k0, n0, frames, done, Frame(r.cmd, r.body), rx.out, rx.nonce);
    }
  }

  lemma AfterHeaderLives(u: Suite, k0: word, n0: nat, frames: seq<Frame>, rx: Rx, done: seq<Frame>, seen: seq<byte>,
                         input: seq<byte>, limit: nat, round: Round)
    requires Openable(u, n0, frames) && round.handled
    requires Tracks(u, k0, n0, rx, done, seen) && rx.state == 4
    requires seen + input <= Stream(u.next, k0, frames)
    ensures AfterHeader(u, rx, input, limit, round).0.alive
  {
    DecodeLoads(u, k0, n0, rx, done, seen);
    var got := Receive(input, Decode(u, rx).cmd.len, limit);
    PrefixToo(seen, input, got, Stream(u.next, k0, frames));
    OnBodyLives(u, k0, n0, frames, Decode(u, rx), done, seen, got, round);
  }

  lemma PrefixToo(seen: seq<byte>, input: seq<byte>, got: seq<byte>, all: seq<byte>)
    requires seen + input <= all && got <= input
    ensures seen + got <= all
  {
  }

  lemma WholeHeaderLives(u: Suite, k0: word, n0: nat, frames: seq<Frame>, rx: Rx, done: seq<Frame>, seen: seq<byte>,
                         input: seq<byte>, round: Round)
    requires Openable(u, n0, frames) && round.handled
    requires Tracks(u, k0, n0, rx, done, seen) && rx.state == 0 && |Receive(input, 4, round.first)| == 4
    requires seen + input <= Stream(u.next, k0, frames)
    ensures Event(u, rx, input, round).0.alive
  {
    var got, rest := input[..4], input[4..];
    WholeHeaderEvent(u, rx, input, round);
    TakesHeader(u, k0, n0, rx, done, seen, got);
    ConcatAssoc(seen, got, rest);
    assert got + rest == input;
    AfterHeaderLives(u, k0, n0, frames, rx.(state := 4, head := got), done, seen + got, rest, round.second, round);
  }

  lemma BodyEvent(u: Suite, rx: Rx, input: seq<byte>, round: Round)
    requires Valid(rx) && rx.alive && rx.state == 5
    ensures |rx.body| <= rx.cmd.len
    ensures Event(u, rx, input, round).0 == OnBody(u, rx, Receive(input, rx.cmd.len - |rx.body|, round.first), round)
  {
  }

  lemma BodyLives(u: Suite, k0: word, n0: nat, frames: seq<Frame>, rx: Rx, done: seq<Frame>, seen: seq<byte>,
                  input: seq<byte>, round: Round)
    requires Openable(u, n0, frames) && round.handled
    requires Tracks(u, k0, n0, rx, done, seen) && rx.state == 5
    requires seen + input <= Stream(u.next, k0, frames)
    ensures Event(u, rx, input, round).0.alive
  {
    BodyEvent(u, rx, input, round);
    var got := Receive(input, rx.cmd.len - |rx.body|, round.first);
    PrefixToo(seen, input, got, Stream(u.next, k0, frames));
    OnBodyLives(u, k0, n0, frames, rx, done, seen, got, round);
  }

  /** On the bytes of such frames a receiver gives up only on the one bad split of a header, or when a
      handler tells it to: no frame ever fails to open. */
  lemma EventLives(u: Suite, k0: word, n0: nat, frames: seq<Frame>, rx: Rx, done: seq<Frame>, seen: seq<byte>,
                   input: seq<byte>, round: Round)
    requires Openable(u, n0, frames) && round.handled
    requires Tracks(u, k0, n0, rx, done, seen)
    requires seen + input <= Stream(u.next, k0, frames)
    requires !(rx.state == 3 && |Receive(input, 3, round.first)| == 2)
    ensures Event(u, rx, input, round).0.alive
  {
    if rx.state == 5 {
      BodyLives(u, k0, n0, frames, rx, done, seen, input, round);
    } else if rx.state == 4 {
      AfterHeaderLives(u, k0, n0, frames, rx, done, seen, input, round.first, round);
    } else if rx.state == 0 && |Receive(input, 4, round.first)| == 4 {
      WholeHeaderLives(u, k0, n0, frames, rx, done, seen, input, round);
    } else {
      HeaderFailsOnOneSplit(u, rx, input, round);
    }
  }

  /** No round of a run meets the bad split or an unhappy handler. */
  ghost predicate Harmless(input: seq<byte>, rounds: seq<Round>, states: seq<Rx>, taken: seq<nat>)
    requires |states| == |taken| == |rounds| + 1
    requires forall i :: 0 <= i < |taken| ==> taken[i] <= |input|
  {
    forall i :: 0 <= i < |rounds| ==>
      rounds[i].handled && !(states[i].state == 3 && |Receive(input[taken[i]..], 3, rounds[i].first)| == 2)
  }

  lemma MoveLives(u: Suite, k0: word, n0: nat, frames: seq<Frame>, wire: seq<byte>, round: Round,
                  rx: Rx, from: nat, rx': Rx, to: nat, done: seq<Frame>)
    requires Openable(u, n0, frames) && wire <= Stream(u.next, k0, frames)
    requires Moves(u, wire, round, rx, from, rx', to) && Tracks(u, k0, n0, rx, done, wire[..from])
    requires round.handled && !(rx.state == 3 && |Receive(wire[from..], 3, round.first)| == 2)
    ensures rx'.alive
  {
    SplitAt(wire, from);
    EventLives(u, k0, n0, frames, rx, done, wire[..from], wire[from..], round);
  }

  /** So a receiver that meets neither stays connected through the whole run. */
  lemma {:induction false} ReceiverLives(u: Suite, k0: word, n0: nat, frames: seq<Frame>, wire: seq<byte>,
                                         rounds: seq<Round>, states: seq<Rx>, taken: seq<nat>)
    requires Openable(u, n0, frames) && wire <= Stream(u.next, k0, frames)
    requires SessionReceiver.IsRun(u, k0, n0, wire, rounds, states, taken) && Harmless(wire, rounds, states, taken)
    ensures states[|rounds|].alive
  {
    if |rounds| > 0 {
      var j := |rounds| - 1;
      assert Moves(u, wire, rounds[j], states[j], taken[j], states[j + 1], taken[j + 1]);
      var done := RunTracks(u, k0, n0, wire, rounds, states, taken, j);
      MoveLives(u, k0, n0, frames, wire, rounds[j], states[j], taken[j], states[j + 1], taken[j + 1], done);
    }
  }
}
