/** The byte stream of one direction of a DATUM session: frames of a 32-bit header, hidden with a key
    that changes with every frame, and a body (datum_protocol.h). */
module SessionFraming {
  import opened Bytes
  import opened SessionKeys

  const MAX_BODY: nat := 0x40_0000  // DATUM_PROTOCOL_MAX_CMD_DATA_SIZE, 2^22

  // ---------------------------------------------------------------- headers

  /** T_DATUM_PROTOCOL_HEADER: bit fields of 22, 2, 1, 1, 1 and 5 bits. */
  datatype Header = Header(len: nat, reserved: nat, signed: bool, toPubkey: bool, toChannel: bool, command: nat) {
    predicate Valid() {
      len < MAX_BODY && reserved < 4 && command < 32
    }
  }

  function Bit(b: bool): nat {
    if b then 1 else 0
  }

  function Pack(h: Header): word
    requires h.Valid()
  {
    h.len + 0x40_0000 * (h.reserved + 4 * (Bit(h.signed) + 2 * (Bit(h.toPubkey) + 2 * (Bit(h.toChannel) + 2 * h.command))))
  }

  function Unpack(w: word): (h: Header)
    ensures h.Valid()
  {
    var a := w / 0x40_0000;
    var b := a / 4;
    Header(w % 0x40_0000, a % 4, b % 2 == 1, b / 2 % 2 == 1, b / 4 % 2 == 1, b / 8)
  }

  lemma PackRoundTrip(h: Header)
    requires h.Valid()
    ensures Unpack(Pack(h)) == h
  {
    var flags := Bit(h.signed) + 2 * (Bit(h.toPubkey) + 2 * (Bit(h.toChannel) + 2 * h.command));
    var a := h.reserved + 4 * flags;
    LowBits(h.len, a);
    assert a % 4 == h.reserved && a / 4 == flags;
    UnpackFlags(h.signed, h.toPubkey, h.toChannel, h.command);
  }

  /** The bit positions of the fields. */
  lemma HeaderBits(h: Header)
    requires h.Valid()
    ensures Pack(h) == h.len + 0x40_0000 * h.reserved + (if h.signed then 0x100_0000 else 0)
                       + (if h.toPubkey then 0x200_0000 else 0) + (if h.toChannel then 0x400_0000 else 0)
                       + 0x800_0000 * h.command
  {
  }

  lemma LowBits(low: nat, high: nat)
    requires low < 0x40_0000
    ensures (low + 0x40_0000 * high) % 0x40_0000 == low && (low + 0x40_0000 * high) / 0x40_0000 == high
  {
  }

  lemma UnpackFlags(s: bool, p: bool, c: bool, command: nat)
    ensures var flags := Bit(s) + 2 * (Bit(p) + 2 * (Bit(c) + 2 * command));
            && (flags % 2 == 1) == s && (flags / 2 % 2 == 1) == p && (flags / 4 % 2 == 1) == c
            && flags / 8 == command
  {
  }

  /** The four bytes on the wire. */
  function HideHeader(key: word, h: Header): (s: seq<byte>)
    requires h.Valid()
    ensures |s| == 4
  {
    LE(Xor32(Pack(h), key), 4)
  }

  function ShowHeader(key: word, s: seq<byte>): (h: Header)
    requires |s| == 4
    ensures h.Valid()
  {
    FromLERoundTrip(s);
    PowersOf256();
    Unpack(Xor32(FromLE(s), key))
  }

  lemma HeaderRoundTrip(key: word, h: Header)
    requires h.Valid()
    ensures ShowHeader(key, HideHeader(key, h)) == h
  {
    PowersOf256();
    LERoundTrip(Xor32(Pack(h), key), 4);
    XorTwice(Pack(h), key);
    PackRoundTrip(h);
  }

  /** On the wire a header is the little-endian form of its word, exclusive-or the key. */
  lemma HeaderOnWire(key: word, h: Header)
    requires h.Valid()
    ensures FromLE(HideHeader(key, h)) == Xor(Pack(h), key)
  {
    PowersOf256();
    LERoundTrip(Xor32(Pack(h), key), 4);
  }

  lemma UnpackRoundTrip(w: word)
    ensures Pack(Unpack(w)) == w
  {
    var a := w / 0x40_0000;
    PackFlags(a / 4);
    assert a == a % 4 + 4 * (a / 4);
  }

  lemma PackFlags(b: nat)
    ensures b == Bit(b % 2 == 1) + 2 * (Bit(b / 2 % 2 == 1) + 2 * (Bit(b / 4 % 2 == 1) + 2 * (b / 8)))
  {
    Halves(b);
    Halves(b / 2);
    Halves(b / 4);
  }

  lemma Halves(b: nat)
    ensures b == Bit(b % 2 == 1) + 2 * (b / 2) && b / 2 / 2 == b / 4 && b / 4 / 2 == b / 8
  {
  }

  /** Any four bytes are the hidden form of the header they show. */
  lemma ShownHeaderHides(key: word, s: seq<byte>)
    requires |s| == 4
    ensures HideHeader(key, ShowHeader(key, s)) == s
  {
    PowersOf256();
    FromLERoundTrip(s);
    UnpackRoundTrip(Xor32(FromLE(s), key));
    XorTwice(FromLE(s), key);
  }

  // ---------------------------------------------------------------- frames

  datatype Frame = Frame(header: Header, body: seq<byte>) {
    predicate Valid() {
      header.Valid() && |body| == header.len
    }
  }

  ghost predicate ValidFrames(frames: seq<Frame>) {
    forall i :: 0 <= i < |frames| ==> frames[i].Valid()
  }

  function FrameBytes(key: word, f: Frame): seq<byte>
    requires f.Valid()
  {
    HideHeader(key, f.header) + f.body
  }

  /** The bytes of a direction: each frame under the next key. */
  function Stream(next: word -> word, key: word, frames: seq<Frame>): seq<byte>
    requires ValidFrames(frames)
    decreases |frames|
  {
    if frames == [] then [] else FrameBytes(key, frames[0]) + Stream(next, next(key), frames[1..])
  }

  /** One more frame goes to the end, under the next key. */
  lemma {:induction false} StreamAppend(next: word -> word, key: word, frames: seq<Frame>, f: Frame)
    requires ValidFrames(frames) && f.Valid()
    ensures Stream(next, key, frames + [f]) == Stream(next, key, frames) + FrameBytes(KeyAt(next, key, |frames|), f)
    decreases |frames|
  {
    var all := frames + [f];
    if frames == [] {
      assert all[0] == f && all[1..] == [];
    } else {
      var more, k := frames[1..], next(key);
      StreamAppend(next, k, more, f);
      assert all[0] == frames[0] && all[1..] == more + [f];
      ConcatAssoc(FrameBytes(key, frames[0]), Stream(next, k, more), FrameBytes(KeyAt(next, k, |more|), f));
    }
  }

  // ---------------------------------------------------------------- the reference parser

  /** What a stream amounts to: its complete frames. */
  function Parse(next: word -> word, key: word, s: seq<byte>): (frames: seq<Frame>)
    ensures ValidFrames(frames)
    decreases |s|
  {
    if |s| < 4 then [] else
    var h := ShowHeader(key, s[..4]);
    if |s| < 4 + h.len then [] else [Frame(h, s[4..4 + h.len])] + Parse(next, next(key), s[4 + h.len..])
  }

  /** A frame at the start of a stream is its first frame. */
  lemma ParseFrame(next: word -> word, key: word, f: Frame, s: seq<byte>)
    requires f.Valid()
    ensures Parse(next, key, FrameBytes(key, f) + s) == [f] + Parse(next, next(key), s)
  {
    var t := FrameBytes(key, f) + s;
    HeaderRoundTrip(key, f.header);
    assert t[..4] == HideHeader(key, f.header);
    assert t[4..4 + f.header.len] == f.body && t[4 + f.header.len..] == s;
  }

  lemma ParseFrameThen(next: word -> word, key: word, f: Frame, rest: seq<byte>, s: seq<byte>,
                       frames: seq<Frame>, tail: seq<Frame>)
    requires f.Valid() && Parse(next, next(key), rest + s) == frames + tail
    ensures Parse(next, key, FrameBytes(key, f) + rest + s) == [f] + frames + tail
  {
    ConcatAssoc(FrameBytes(key, f), rest, s);
    ParseFrame(next, key, f, rest + s);
    assert [f] + (frames + tail) == [f] + frames + tail;
  }

  /** Parsing undoes framing, whatever follows. */
  lemma {:induction false} ParseStream(next: word -> word, key: word, frames: seq<Frame>, s: seq<byte>)
    requires ValidFrames(frames)
    ensures Parse(next, key, Stream(next, key, frames) + s)
         == frames + Parse(next, KeyAt(next, key, |frames|), s)
    decreases |frames|
  {
    if frames == [] {
      assert Stream(next, key, []) + s == s;
    } else {
      var f, more := frames[0], frames[1..];
      var rest := Stream(next, next(key), more);
      ParseStream(next, next(key), more, s);
      ParseFrameThen(next, key, f, rest, s, more, Parse(next, KeyAt(next, next(key), |more|), s));
      assert frames == [f] + more;
    }
  }

  /** The length of a first frame that is complete, or nothing. */
  function FirstLength(key: word, s: seq<byte>): (n: Option<nat>)
    ensures n.Some? ==> 4 <= n.value <= |s|
  {
    if |s| < 4 then None else
    var n := 4 + ShowHeader(key, s[..4]).len;
    if |s| < n then None else Some(n)
  }

  lemma FirstLengthStays(key: word, s: seq<byte>, more: seq<byte>)
    requires FirstLength(key, s).Some?
    ensures FirstLength(key, s + more) == FirstLength(key, s)
  {
    assert (s + more)[..4] == s[..4];
  }

  lemma ParseFirst(next: word -> word, key: word, s: seq<byte>)
    ensures var n := FirstLength(key, s);
            Parse(next, key, s) == if n.None? then [] else
              [Frame(ShowHeader(key, s[..4]), s[4..n.value])] + Parse(next, next(key), s[n.value..])
  {
  }

  lemma PrefixStep(f: Frame, few: seq<Frame>, many: seq<Frame>)
    requires few <= many
    ensures [f] + few <= [f] + many
  {
    assert many == few + many[|few|..];
    assert [f] + many == ([f] + few) + many[|few|..];
  }

  /** More bytes never change the frames already complete. */
  lemma {:induction false} ParseMonotone(next: word -> word, key: word, s: seq<byte>, more: seq<byte>)
    ensures Parse(next, key, s) <= Parse(next, key, s + more)
    decreases |s|
  {
    ParseFirst(next, key, s);
    if FirstLength(key, s).Some? {
      var n := FirstLength(key, s).value;
      var rest, rest' := s[n..], (s + more)[n..];
      assert rest' == rest + more && (s + more)[4..n] == s[4..n] && (s + more)[..4] == s[..4];
      ParseMonotone(next, next(key), rest, more);
      FirstLengthStays(key, s, more);
      ParseFirst(next, key, s + more);
      PrefixStep(Frame(ShowHeader(key, s[..4]), s[4..n]), Parse(next, next(key), rest), Parse(next, next(key), rest'));
    }
  }

  /** So the frames of any prefix of a stream are a prefix of the frames sent. */
  lemma PrefixOfStream(next: word -> word, key: word, frames: seq<Frame>, got: seq<byte>)
    requires ValidFrames(frames) && got <= Stream(next, key, frames)
    ensures Parse(next, key, got) <= frames
  {
    var all := Stream(next, key, frames);
    assert all == got + all[|got|..];
    ParseMonotone(next, key, got, all[|got|..]);
    ParseStream(next, key, frames, []);
    assert all + [] == all;
    assert frames + Parse(next, KeyAt(next, key, |frames|), []) == frames;
  }
}
