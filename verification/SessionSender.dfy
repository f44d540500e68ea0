/** The sending side of a DATUM session as a protocol (datum_protocol.c): any number of threads call
    datum_protocol_mining_cmd while the protocol thread drains the send buffer into the socket. A step
    is one lock operation or one critical section. */
module SessionSender {
  import opened Bytes
  import opened SessionKeys
  import opened SessionFraming

  const BUFFER_SIZE: nat := 0xC0_0000  // DATUM_PROTOCOL_BUFFER_SIZE, 3 * 2^22
  const MAC_BYTES: nat := 16
  const NONCES: nat := 0x1_0000_0000_0000_0000_0000_0000_0000_0000_0000_0000_0000_0000  // 2^192
  const MINING: nat := 5

  lemma NoncesOfLimbs()
    ensures Range(LIMBS) == NONCES
  {
    assert Range(2) == 0x1_0000_0000_0000_0000;
    assert Range(4) == 0x1_0000_0000_0000_0000 * Range(2);
  }

  /** What the two ends of a session agreed on: the feedback of the header keys, the session cipher, the
      boxes sealed to the gateway's key, and whether data carry a good signature of the other end. The code
      uses Feedback of SessionKeys, and libsodium's crypto_box and crypto_sign. */
  datatype Suite = Suite(next: word -> word,
                         seal: (nat, seq<byte>) -> seq<byte>,
                         open: (nat, seq<byte>) -> Option<seq<byte>>,
                         unseal: seq<byte> -> Option<seq<byte>>,
                         verify: (seq<byte>, seq<byte>) -> bool) {
    ghost predicate Lawful() {
      forall n: nat, m: seq<byte> :: |seal(n, m)| == |m| + MAC_BYTES && open(n, seal(n, m)) == Some(m)
    }
  }

  /** A message whose sealed length fits the header's 22 bits. */
  type Message = m: seq<byte> | |m| + MAC_BYTES < MAX_BODY witness []

  function MiningHeader(n: nat): (h: Header)
    requires n + MAC_BYTES < MAX_BODY
    ensures h.Valid()
  {
    Header(n + MAC_BYTES, 0, false, false, true, MINING)
  }

  /** A mining command on the wire, once the key is taken off: its length with the authentication code, the
      flag for the channel, and command 5. */
  lemma MiningHeaderBits(n: nat)
    requires n + MAC_BYTES < MAX_BODY
    ensures Pack(MiningHeader(n)) == n + 16 + 0x400_0000 + 5 * 0x800_0000
  {
    HeaderBits(MiningHeader(n));
  }

  function NonceAt(n0: nat, i: nat): nat {
    (n0 + i) % NONCES
  }

  lemma NonceAfter(n0: nat, i: nat)
    ensures (NonceAt(n0, i) + 1) % NONCES == NonceAt(n0, i + 1)
  {
  }

  ghost function SealedFrame(u: Suite, nonce: nat, m: Message): (f: Frame)
    requires u.Lawful()
    ensures f.Valid()
  {
    Frame(MiningHeader(|m|), u.seal(nonce, m))
  }

  /** The frames that carry a list of messages: message i under nonce n0 + i. */
  ghost function Frames(u: Suite, n0: nat, ms: seq<Message>): (fs: seq<Frame>)
    requires u.Lawful()
    ensures |fs| == |ms| && ValidFrames(fs)
  {
    seq(|ms|, i requires 0 <= i < |ms| => SealedFrame(u, NonceAt(n0, i), ms[i]))
  }

  // ---------------------------------------------------------------- the system

  /** Where a thread is inside datum_protocol_mining_cmd. */
  datatype Thread =
    | Ready(m: Message)
    | Inside(m: Message)
    | HeaderNext(head: seq<byte>, body: seq<byte>)
    | BodyNext(body: seq<byte>)
    | Leaving(ok: bool)

  /** The fields wire, sealed and refused record history: the bytes given to the socket, the messages
      in the order of the stage-1 lock, and whether the buffer was ever too full. */
  datatype Sys = Sys(key: word, nonce: nat, lock: Option<nat>, threads: map<nat, Thread>, out: seq<byte>,
                     wire: seq<byte>, sealed: seq<Message>, refused: bool)

  datatype Step =
    | Begin(t: nat, m: Message)
    | Acquire(t: nat)
    | Seal(t: nat)
    | PutHeader(t: nat)
    | PutBody(t: nat)
    | Release(t: nat)
    | Drain(n: nat)

  ghost predicate Init(s: Sys, k0: word, n0: nat) {
    && s.key == k0 && s.nonce == n0 < NONCES && s.lock == None && s.threads == map[]
    && s.out == [] && s.wire == [] && s.sealed == [] && !s.refused
  }

  predicate Enabled(s: Sys, step: Step) {
    match step
    case Begin(t, _) => t !in s.threads
    case Acquire(t) => t in s.threads && s.threads[t].Ready? && s.lock == None
    case Seal(t) => t in s.threads && s.threads[t].Inside?
    case PutHeader(t) => t in s.threads && s.threads[t].HeaderNext?
    case PutBody(t) => t in s.threads && s.threads[t].BodyNext?
    case Release(t) => t in s.threads && s.threads[t].Leaving?
    case Drain(n) => 0 < n <= |s.out|
  }

  /** datum_protocol_chars_to_server: whether n more bytes are accepted. */
  predicate Accepts(s: Sys, n: nat) {
    0 < n && |s.out| + n < BUFFER_SIZE
  }

  ghost function Apply(u: Suite, s: Sys, step: Step): Sys
    requires u.Lawful() && Enabled(s, step)
  {
    match step
    case Begin(t, m) => s.(threads := s.threads[t := Ready(m)])
    case Acquire(t) => s.(lock := Some(t), threads := s.threads[t := Inside(s.threads[t].m)])
    case Seal(t) =>
      var m := s.threads[t].m;
      var head, body := HideHeader(s.key, MiningHeader(|m|)), u.seal(s.nonce, m);
      s.(threads := s.threads[t := HeaderNext(head, body)], key := u.next(s.key), nonce := (s.nonce + 1) % NONCES,
      sealed := s.sealed + [m])
    case PutHeader(t) =>
      var th := s.threads[t];
      if Accepts(s, |th.head|) then s.(out := s.out + th.head, threads := s.threads[t := BodyNext(th.body)])
      else s.(refused := true, threads := s.threads[t := Leaving(false)])
    case PutBody(t) =>
      var th := s.threads[t];
      if Accepts(s, |th.body|) then s.(out := s.out + th.body, threads := s.threads[t := Leaving(true)])
      else s.(refused := true, threads := s.threads[t := Leaving(false)])
    case Release(t) => s.(lock := None, threads := s.threads - {t})
    case Drain(n) => s.(wire := s.wire + s.out[..n], out := s.out[n..])
  }

  // ---------------------------------------------------------------- the invariant

  predicate HasLock(th: Thread) {
    !th.Ready?
  }

  /** What the holder of the stage-1 lock has sealed and not yet put into the buffer. */
  ghost function Owed(s: Sys): seq<byte> {
    if s.lock.Some? && s.lock.value in s.threads then
      match s.threads[s.lock.value]
      case HeaderNext(head, body) => head + body
      case BodyNext(body) => body
      case _ => []
    else []
  }

  ghost predicate LockMatches(s: Sys) {
    && (s.lock.Some? ==> s.lock.value in s.threads && HasLock(s.threads[s.lock.value]))
    && (forall t :: t in s.threads && HasLock(s.threads[t]) ==> s.lock == Some(t))
  }

  /** A sealed body is never empty, so the zero-length case of datum_protocol_chars_to_server is dead. */
  ghost predicate BodiesFit(s: Sys) {
    forall t :: t in s.threads ==>
      match s.threads[t]
      case HeaderNext(head, body) => |head| == 4 && |body| >= MAC_BYTES
      case BodyNext(body) => |body| >= MAC_BYTES
      case _ => true
  }

  /** Key and nonce are those of the next message, and sent, buffered and owed bytes together are the
      stream of all messages so far. */
  ghost predicate StreamMatches(u: Suite, k0: word, n0: nat, s: Sys)
    requires u.Lawful()
  {
    && s.key == KeyAt(u.next, k0, |s.sealed|)
    && s.nonce == NonceAt(n0, |s.sealed|)
    && (!s.refused ==> s.wire + s.out + Owed(s) == Stream(u.next, k0, Frames(u, n0, s.sealed)))
  }

  ghost predicate Inv(u: Suite, k0: word, n0: nat, s: Sys)
    requires u.Lawful()
  {
    && LockMatches(s) && BodiesFit(s) && |s.out| < BUFFER_SIZE && StreamMatches(u, k0, n0, s)
  }

  lemma InitInv(u: Suite, k0: word, n0: nat, s: Sys)
    requires u.Lawful() && Init(s, k0, n0)
    ensures Inv(u, k0, n0, s)
  {
  }

  /** The bytes that sealing one more message adds to the stream. */
  lemma StreamSealed(u: Suite, k0: word, n0: nat, ms: seq<Message>, m: Message)
    requires u.Lawful()
    ensures Stream(u.next, k0, Frames(u, n0, ms + [m]))
         == Stream(u.next, k0, Frames(u, n0, ms))
            + (HideHeader(KeyAt(u.next, k0, |ms|), MiningHeader(|m|)) + u.seal(NonceAt(n0, |ms|), m))
  {
    var f := SealedFrame(u, NonceAt(n0, |ms|), m);
    assert Frames(u, n0, ms + [m]) == Frames(u, n0, ms) + [f];
    StreamAppend(u.next, k0, Frames(u, n0, ms), f);
  }

  lemma SealStream(u: Suite, k0: word, n0: nat, s: Sys, t: nat)
    requires u.Lawful() && LockMatches(s) && StreamMatches(u, k0, n0, s) && Enabled(s, Seal(t))
    ensures StreamMatches(u, k0, n0, Apply(u, s, Seal(t)))
  {
    KeyAfter(u.next, k0, |s.sealed|);
    NonceAfter(n0, |s.sealed|);
    StreamSealed(u, k0, n0, s.sealed, s.threads[t].m);
    assert Owed(s) == [] && s.wire + s.out + [] == s.wire + s.out;
  }

  lemma SealInv(u: Suite, k0: word, n0: nat, s: Sys, t: nat)
    requires u.Lawful() && Inv(u, k0, n0, s) && Enabled(s, Seal(t))
    ensures Inv(u, k0, n0, Apply(u, s, Seal(t)))
  {
    SealStream(u, k0, n0, s, t);
    var s' := Apply(u, s, Seal(t));
    assert LockMatches(s');
    assert BodiesFit(s');
  }

  lemma PutHeaderStream(s: Sys, head: seq<byte>, body: seq<byte>)
    ensures s.wire + (s.out + head) + body == s.wire + s.out + (head + body)
  {
    ConcatAssoc(s.wire, s.out, head);
    ConcatAssoc(s.wire + s.out, head, body);
  }

  lemma PutBodyStream(s: Sys, body: seq<byte>)
    ensures s.wire + (s.out + body) + [] == s.wire + s.out + body
  {
    ConcatAssoc(s.wire, s.out, body);
    assert s.wire + (s.out + body) + [] == s.wire + (s.out + body);
  }

  lemma PutInv(u: Suite, k0: word, n0: nat, s: Sys, step: Step)
    requires u.Lawful() && Inv(u, k0, n0, s) && Enabled(s, step) && (step.PutHeader? || step.PutBody?)
    ensures Inv(u, k0, n0, Apply(u, s, step))
  {
    var th := s.threads[step.t];
    if step.PutHeader? {
      PutHeaderStream(s, th.head, th.body);
    } else {
      PutBodyStream(s, th.body);
    }
  }

  lemma StepInv(u: Suite, k0: word, n0: nat, s: Sys, step: Step)
    requires u.Lawful() && Inv(u, k0, n0, s) && Enabled(s, step)
    ensures Inv(u, k0, n0, Apply(u, s, step))
  {
    match step
    case Seal(t) => SealInv(u, k0, n0, s, t);
    case PutHeader(_) => PutInv(u, k0, n0, s, step);
    case PutBody(_) => PutInv(u, k0, n0, s, step);
    case Drain(n) =>
      assert s.out == s.out[..n] + s.out[n..];
      ConcatAssoc(s.wire, s.out[..n], s.out[n..]);
    case _ =>
  }

  // ---------------------------------------------------------------- runs

  /** A finite run, as the states it passes through. */
  ghost predicate IsRun(u: Suite, k0: word, n0: nat, states: seq<Sys>, steps: seq<Step>)
    requires u.Lawful()
  {
    && |states| == |steps| + 1
    && Init(states[0], k0, n0)
    && forall i :: 0 <= i < |steps| ==>
         && Enabled(states[i], steps[i])
         && states[i + 1] == Apply(u, states[i], steps[i])
  }

  lemma {:induction false} RunInv(u: Suite, k0: word, n0: nat, states: seq<Sys>, steps: seq<Step>, i: nat)
    requires u.Lawful() && IsRun(u, k0, n0, states, steps) && i < |states|
    ensures Inv(u, k0, n0, states[i])
  {
    if i == 0 {
      InitInv(u, k0, n0, states[0]);
    } else {
      RunInv(u, k0, n0, states, steps, i - 1);
      StepInv(u, k0, n0, states[i - 1], steps[i - 1]);
    }
  }

  /** In every run without a refusal, the bytes on the wire are a prefix of the stream of the messages
      in lock order, the n-th under the n-th key and the initial nonce plus n; and once the buffer is
      empty and no thread is inside, they are that stream. */
  lemma WireIsTheStream(u: Suite, k0: word, n0: nat, states: seq<Sys>, steps: seq<Step>)
    requires u.Lawful() && IsRun(u, k0, n0, states, steps) && !states[|steps|].refused
    ensures var s := states[|steps|];
            var all := Stream(u.next, k0, Frames(u, n0, s.sealed));
            && s.wire <= all
            && (s.lock == None && s.out == [] ==> s.wire == all)
  {
    var s := states[|steps|];
    RunInv(u, k0, n0, states, steps, |steps|);
    ConcatAssoc(s.wire, s.out, Owed(s));
    assert s.wire + [] == s.wire && [] + Owed(s) == Owed(s);
  }

  /** The buffer has room for all that the lock's holder owes. */
  ghost predicate Roomy(s: Sys) {
    |s.out| + |Owed(s)| < BUFFER_SIZE
  }

  /** A message is refused only for want of room at the time it is sealed: what other threads and the
      drain do in the meantime never takes that room away. */
  lemma RefusedOnlyWithoutRoom(u: Suite, k0: word, n0: nat, s: Sys, step: Step)
    requires u.Lawful() && Inv(u, k0, n0, s) && Enabled(s, step)
    ensures var s' := Apply(u, s, step);
            && (Roomy(s) && !step.Seal? ==> Roomy(s') && s'.refused == s.refused)
            && (step.Seal? ==> Roomy(s') == (|s.out| + 4 + |s.threads[step.t].m| + 16 < 3 * 0x40_0000))
  {
    if step.Release? {
      assert Owed(s) == [];
    }
  }

  /** What a thread that puts header or body into the buffer does next: it goes on, or returns success, exactly
      if there is room, and otherwise returns a failure. */
  lemma PutOutcome(u: Suite, k0: word, n0: nat, s: Sys, t: nat)
    requires u.Lawful() && Inv(u, k0, n0, s) && t in s.threads
    ensures s.threads[t].HeaderNext? ==>
              var s', room := Apply(u, s, PutHeader(t)), |s.out| + 4 < 3 * 0x40_0000;
              && s'.threads[t] == (if room then BodyNext(s.threads[t].body) else Leaving(false))
              && (s'.refused <==> s.refused || !room)
    ensures s.threads[t].BodyNext? ==>
              var s', room := Apply(u, s, PutBody(t)), |s.out| + |s.threads[t].body| < 3 * 0x40_0000;
              && s'.threads[t] == Leaving(room)
              && (s'.refused <==> s.refused || !room)
  {
  }

  // ---------------------------------------------------------------- one command by itself

  /** The steps of one call with no other step in between. */
  ghost function CallAlone(u: Suite, s: Sys, t: nat, m: Message): Sys
    requires u.Lawful() && t !in s.threads && s.lock == None
  {
    var sealed := Apply(u, Apply(u, Apply(u, s, Begin(t, m)), Acquire(t)), Seal(t));
    var headed := Apply(u, sealed, PutHeader(t));
    Apply(u, if headed.threads[t].Leaving? then headed else Apply(u, headed, PutBody(t)), Release(t))
  }

  /** What such a call does: key and nonce go on in any case; the buffer gets the frame, or where there is
      no room the header only or nothing. */
  lemma CallAloneSends(u: Suite, s: Sys, t: nat, m: Message)
    requires u.Lawful() && t !in s.threads && s.lock == None
    ensures var s' := CallAlone(u, s, t, m);
            var f, room := SealedFrame(u, s.nonce, m), |s.out| + 4 + |m| + MAC_BYTES < BUFFER_SIZE;
            && s'.key == u.next(s.key) && s'.nonce == (s.nonce + 1) % NONCES && s'.sealed == s.sealed + [m]
            && s'.out == s.out + (if room then FrameBytes(s.key, f)
                                  else if |s.out| + 4 < BUFFER_SIZE then HideHeader(s.key, f.header) else [])
            && s'.refused == (s.refused || !room)
            && s'.lock == None && s'.threads == s.threads && s'.wire == s.wire
  {
    var head, body := HideHeader(s.key, MiningHeader(|m|)), u.seal(s.nonce, m);
    ConcatAssoc(s.out, head, body);
    assert s.out + [] == s.out;
  }
}
