/** Both ends of a DATUM session together: what the peer gets of what the gateway sends. */
module SessionEndToEnd {
  import opened Bytes
  import opened SessionKeys
  import opened SessionFraming
  import opened SessionSender
  import opened SessionReceiver
  import opened SessionLiveness

  ghost function Deliveries(ms: seq<Message>): (ds: seq<Delivery>)
    ensures |ds| == |ms|
  {
    seq(|ms|, i requires 0 <= i < |ms| => Delivery(MiningHeader(|ms[i]|), ms[i]))
  }

  lemma FramesPrefix(u: Suite, n0: nat, ms: seq<Message>, n: nat)
    requires u.Lawful() && n <= |ms|
    ensures Frames(u, n0, ms)[..n] == Frames(u, n0, ms[..n])
  {
  }

  /** Opening undoes sealing, message by message. */
  lemma {:induction false} OpenSealed(u: Suite, n0: nat, ms: seq<Message>)
    requires u.Lawful() && n0 < NONCES
    ensures OpenAll(u, n0, Frames(u, n0, ms)) == Some((Deliveries(ms), NonceAt(n0, |ms|)))
  {
    if ms != [] {
      var last := |ms| - 1;
      OpenSealed(u, n0, ms[..last]);
      FramesPrefix(u, n0, ms, last);
      NonceAfter(n0, last);
      assert Deliveries(ms) == Deliveries(ms[..last]) + [Delivery(MiningHeader(|ms[last]|), ms[last])];
    } else {
      assert Deliveries(ms) == [];
    }
  }

  /** What a prefix of a stream of messages opens to. */
  lemma PrefixOpens(u: Suite, k0: word, n0: nat, ms: seq<Message>, got: seq<byte>, n: nat)
    requires u.Lawful() && n0 < NONCES
    requires got <= Stream(u.next, k0, Frames(u, n0, ms)) && n <= |Parse(u.next, k0, got)|
    ensures n <= |ms|
    ensures OpenAll(u, n0, Parse(u.next, k0, got)[..n]) == Some((Deliveries(ms[..n]), NonceAt(n0, n)))
  {
    PrefixOfStream(u.next, k0, Frames(u, n0, ms), got);
    assert Parse(u.next, k0, got)[..n] == Frames(u, n0, ms)[..n];
    FramesPrefix(u, n0, ms, n);
    OpenSealed(u, n0, ms[..n]);
  }

  lemma StreamParses(u: Suite, k0: word, n0: nat, ms: seq<Message>)
    requires u.Lawful()
    ensures Parse(u.next, k0, Stream(u.next, k0, Frames(u, n0, ms))) == Frames(u, n0, ms)
  {
    var all := Stream(u.next, k0, Frames(u, n0, ms));
    ParseStream(u.next, k0, Frames(u, n0, ms), []);
    assert all + [] == all;
  }

  /** Over any run of the senders without a refusal, and any chunking at the peer, a peer that stays
      connected has got a prefix of exactly the messages sealed, in the order of the lock; and all of
      them once everything was sent and taken. */
  lemma SessionDelivers(u: Suite, k0: word, n0: nat, sent: seq<Sys>, steps: seq<Step>,
                        rounds: seq<Round>, states: seq<Rx>, taken: seq<nat>)
    requires u.Lawful() && SessionSender.IsRun(u, k0, n0, sent, steps) && !sent[|steps|].refused
    requires SessionReceiver.IsRun(u, k0, n0, sent[|steps|].wire, rounds, states, taken) && states[|rounds|].alive
    ensures var s, rx := sent[|steps|], states[|rounds|];
            && |rx.out| <= |s.sealed|
            && rx.out == Deliveries(s.sealed[..|rx.out|])
            && (s.lock == None && s.out == [] && taken[|rounds|] == |s.wire| ==> rx.out == Deliveries(s.sealed))
  {
    var s, rx := sent[|steps|], states[|rounds|];
    WireIsTheStream(u, k0, n0, sent, steps);
    ReceiverRefinesParser(u, k0, n0, s.wire, rounds, states, taken);
    PrefixOpens(u, k0, n0, s.sealed, s.wire, |rx.out|);
    if s.lock == None && s.out == [] && taken[|rounds|] == |s.wire| {
      StreamParses(u, k0, n0, s.sealed);
      assert s.wire[..|s.wire|] == s.wire;
      NothingOutstanding(u, n0, s.sealed, |rx.out|);
    }
  }

  /** The frames of messages have bodies, so none of them can be the one a receiver is behind by. */
  lemma NothingOutstanding(u: Suite, n0: nat, ms: seq<Message>, n: nat)
    requires u.Lawful() && n <= |ms| <= n + 1
    requires |ms| > n ==> Frames(u, n0, ms)[n].body == []
    ensures n == |ms| && ms[..n] == ms
  {
  }

  // ---------------------------------------------------------------- staying connected

  /** So a peer that meets neither the bad split nor an unhappy handler stays connected through the whole
      session. */
  lemma {:induction false} StaysConnected(u: Suite, k0: word, n0: nat, sent: seq<Sys>, steps: seq<Step>,
                                          rounds: seq<Round>, states: seq<Rx>, taken: seq<nat>)
    requires u.Lawful() && SessionSender.IsRun(u, k0, n0, sent, steps) && !sent[|steps|].refused
    requires SessionReceiver.IsRun(u, k0, n0, sent[|steps|].wire, rounds, states, taken)
    requires Harmless(sent[|steps|].wire, rounds, states, taken)
    ensures states[|rounds|].alive
  {
    var wire, ms := sent[|steps|].wire, sent[|steps|].sealed;
    WireIsTheStream(u, k0, n0, sent, steps);
    OpenSealed(u, n0, ms);
    ReceiverLives(u, k0, n0, Frames(u, n0, ms), wire, rounds, states, taken);
  }
}
