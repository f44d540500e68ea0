/** generate_coinbase_input: the start of the generation transaction's input script. */
module CoinbaseScript {
  import opened Bytes
  import opened Buffers

  const MAX_TAG_SPACE: nat := 86

  /** The settings the script depends on; active means the pool connection is configured. */
  datatype Tags = Tags(active: bool, ownPrimary: seq<byte>, poolPrimary: seq<byte>, secondary: seq<byte>,
                       primeId: nat, uniqueId: nat) {
    function Primary(): seq<byte> {
      if active then poolPrimary else ownPrimary
    }
  }

  // ---------------------------------------------------------------- the height push

  /** Base-256 digits, least significant first, at least one. */
  function Digits(n: nat): (d: seq<byte>)
    ensures d != []
  {
    if n < 256 then [n] else [n % 256] + Digits(n / 256)
  }

  /** append_UNum_hex as bytes: a push of the number, zero-extended when its top bit is set. */
  function UNum(n: nat): seq<byte>
    requires |Digits(n)| < 255
  {
    var d := Digits(n);
    if d[|d| - 1] >= 0x80 then [|d| + 1] + d + [0] else [|d|] + d
  }

  lemma {:induction false} DigitsValue(n: nat, w: nat)
    requires 0 < w && n < Pow256(w)
    ensures FromLE(Digits(n)) == n && |Digits(n)| <= w
    ensures n >= 256 ==> Digits(n)[|Digits(n)| - 1] != 0
  {
    if n >= 256 {
      assert w > 1 by {
        assert Pow256(1) == 256 * Pow256(0);
      }
      DigitsValue(n / 256, w - 1);
      assert Digits(n)[1..] == Digits(n / 256);
    } else {
      assert [n][1..] == [];
    }
  }

  lemma {:induction false} FromLEAppendZero(s: seq<byte>)
    ensures FromLE(s + [0]) == FromLE(s)
  {
    if s == [] {
      assert ([] + [0])[1..] == [];
    } else {
      assert (s + [0])[1..] == s[1..] + [0];
      FromLEAppendZero(s[1..]);
    }
  }

  /** BIP 34, "Specification": the push's first byte is the number of bytes that follow, they are the
      height in little-endian order, the sign bit is clear and no byte is superfluous. */
  lemma HeightPush(n: nat, w: nat)
    requires 0 < w < 250 && n < Pow256(w)
    ensures |Digits(n)| < 255
    ensures var p := UNum(n);
            && 2 <= |p| <= w + 2 && p[0] == |p| - 1
            && FromLE(p[1..]) == n
            && p[|p| - 1] < 0x80
            && (|p| > 2 && p[|p| - 1] == 0 ==> p[|p| - 2] >= 0x80)
  {
    DigitsValue(n, w);
    var d := Digits(n);
    FromLEAppendZero(d);
    if d[|d| - 1] >= 0x80 {
      assert UNum(n)[1..] == d + [0];
    } else {
      assert UNum(n)[1..] == d;
    }
  }

  /** Heights below 2^23 take a push of at most four bytes. */
  lemma HeightPushShort(n: nat)
    requires n < 0x80_0000
    ensures |Digits(n)| < 255 && |UNum(n)| <= 4
  {
    assert Pow256(3) == 256 * 256 * 256 by {
      assert Pow256(2) == 256 * Pow256(1);
    }
    HeightPush(n, 3);
    var d := Digits(n);
    if |d| == 3 {
      assert d[1..] == Digits(n / 256) && d[1..][1..] == Digits(n / 256 / 256);
      assert d[2] == n / 256 / 256;
    }
  }

  method CountDigits(value: nat) returns (count: nat)
    ensures count == |Digits(value)|
  {
    var temp: nat := value / 256;
    count := 1;
    while temp != 0
      invariant count + (if temp == 0 then 0 else |Digits(temp)|) == |Digits(value)|
      decreases temp
    {
      count := count + 1;
      temp := temp / 256;
    }
  }

  method PutDigits(buf: Buffer, value: nat, count: nat) returns (lastMsb: bool)
    requires count == |Digits(value)| && buf.Valid() && buf.len + count <= buf.data.Length
    modifies buf, buf.data
    ensures buf.Valid() && buf.Contents == old(buf.Contents) + Digits(value)
    ensures lastMsb <==> Digits(value)[count - 1] >= 0x80
  {
    var i: nat, n: nat := 0, value;
    lastMsb := false;
    ghost var rest := Digits(value);
    while i < count
      invariant i <= count && buf.Valid() && buf.len == old(buf.len) + i
      invariant rest == Digits(value)[i..] && (i < count ==> rest == Digits(n))
      invariant i == count ==> (lastMsb <==> Digits(value)[count - 1] >= 0x80)
      invariant buf.Contents == old(buf.Contents) + Digits(value)[..i]
    {
      assert rest[0] == n % 256 && (|rest| == 1 <==> n < 256);
      buf.Put(n % 256);
      lastMsb := n >= 0x80;
      n := n / 256;
      rest := rest[1..];
      i := i + 1;
    }
  }

  method PutUNum(buf: Buffer, value: nat)
    requires |Digits(value)| < 254 && buf.Valid() && buf.len + |Digits(value)| + 2 <= buf.data.Length
    modifies buf, buf.data
    ensures buf.Valid() && buf.Contents == old(buf.Contents) + UNum(value)
  {
    var count := CountDigits(value);
    var at := buf.len;
    ghost var before := buf.Contents;
    buf.Put(count);
    var lastMsb := PutDigits(buf, value, count);
    if lastMsb {
      CountRaised(before, count, Digits(value));
      buf.Set(at, count + 1);
      buf.Put(0);
    }
    ConcatAssoc(before, [count], Digits(value));
    ConcatAssoc(before, [count + 1] + Digits(value), [0]);
  }

  lemma CountRaised(before: seq<byte>, count: byte, d: seq<byte>)
    requires count < 255
    ensures (before + [count] + d)[|before| := count + 1] == before + ([count + 1] + d)
  {
  }

  // ---------------------------------------------------------------- the tag push

  /** The bytes two tags take with their separators; k when first computed. */
  function TagSpace(n0: nat, n1: nat): nat {
    n0 + n1 + if n1 != 0 then 2 else if n0 != 0 then 1 else 0
  }

  /** The secondary tag's length after truncation. */
  function KeptSecondary(n0: nat, n1: nat): nat {
    var k := TagSpace(n0, n1);
    if k <= MAX_TAG_SPACE then n1
    else if n1 > k - MAX_TAG_SPACE then n1 - (k - MAX_TAG_SPACE)
    else 0
  }

  /** The length pushed: k after truncation. Removing the secondary tag subtracts one only, since its
      length was zeroed first. */
  function PushedLength(n0: nat, n1: nat): nat {
    var k := TagSpace(n0, n1);
    if k <= MAX_TAG_SPACE then k
    else if n1 > k - MAX_TAG_SPACE then MAX_TAG_SPACE
    else if n1 != 0 then k - 1
    else k
  }

  /** The code panics instead of pushing. */
  predicate TagsTooLong(n0: nat, n1: nat) {
    PushedLength(n0, n1) > MAX_TAG_SPACE
  }

  /** Exactly when the pushed length is the number of bytes emitted, and when the code panics: a
      primary tag of 84 bytes with a one-byte secondary tag announces 86 bytes and emits 85. */
  lemma PushLengthExact(n0: nat, n1: nat)
    ensures TagsTooLong(n0, n1) <==> (if n1 == 0 then n0 > 85 else n0 >= 84 && n0 + n1 > 85)
    ensures !TagsTooLong(n0, n1) ==>
              (PushedLength(n0, n1) == TagSpace(n0, KeptSecondary(n0, n1)) <==> !(n0 == 84 && n1 == 1))
    ensures n0 < 84 ==> !TagsTooLong(n0, n1) && KeptSecondary(n0, n1) == if n0 + n1 <= 84 then n1 else 84 - n0
  {
  }

  /** The bytes after the push: primary tag, 0x0F, secondary tag, 0x00, leaving out what is empty. */
  function TagPayload(t0: seq<byte>, t1: seq<byte>): (p: seq<byte>)
    ensures |p| == TagSpace(|t0|, |t1|)
  {
    if t1 != [] then (t0 + [0x0F]) + (t1 + [0x00])
    else if t0 != [] then t0 + [0x00]
    else []
  }

  function PushOpcode(k: nat): (p: seq<byte>)
    requires k < 256
    ensures |p| == if k <= 75 then 1 else 2
  {
    if k <= 75 then [k] else [0x4C, k]
  }

  /** What the script says after the height: the tag push, or a pushed zero byte without tags. */
  function TagPush(t0: seq<byte>, secondary: seq<byte>): seq<byte>
    requires !TagsTooLong(|t0|, |secondary|)
  {
    var t1 := secondary[..KeptSecondary(|t0|, |secondary|)];
    var k := PushedLength(|t0|, |secondary|);
    if k > 0 then PushOpcode(k) + TagPayload(t0, t1) else [0x01, 0x00]
  }

  /** The unique entropy push: the placeholder 0xFF, the unique id and, for a pool, its prime id. */
  function UidPush(t: Tags): seq<byte> {
    if t.primeId == 0 && !t.active then [0x03, 0xFF] + LE(t.uniqueId, 2)
    else [0x07, 0xFF] + LE(t.uniqueId, 2) + LE(t.primeId, 4)
  }

  function InputScript(height: nat, t: Tags): seq<byte>
    requires |Digits(height)| < 255 && !TagsTooLong(|t.Primary()|, |t.secondary|)
  {
    UNum(height) + TagPush(t.Primary(), t.secondary) + UidPush(t)
  }

  /** Where the 0xFF placeholder is. */
  function PotIndex(height: nat, t: Tags): nat
    requires |Digits(height)| < 255 && !TagsTooLong(|t.Primary()|, |t.secondary|)
  {
    |UNum(height)| + |TagPush(t.Primary(), t.secondary)| + 1
  }

  /** The script fits: at most 100 bytes, leaving room for the 15 extranonce bytes when it has at
      most 85, and the placeholder is where the index says. */
  lemma InputScriptFits(height: nat, t: Tags)
    requires height < 0x80_0000 && !TagsTooLong(|t.Primary()|, |t.secondary|)
    ensures |Digits(height)| < 255
    ensures 7 <= |InputScript(height, t)| <= 100
    ensures PotIndex(height, t) < |InputScript(height, t)| && InputScript(height, t)[PotIndex(height, t)] == 0xFF
  {
    HeightPushShort(height);
    PushLengthExact(|t.Primary()|, |t.secondary|);
    PowersOf256();
    HeightPush(height, 4) by {
      assert Pow256(4) == 0x1_0000_0000;
    }
  }

  /** Read the script back: one push after the other, giving the pushed data. */
  function ReadPush(s: seq<byte>): Option<(seq<byte>, seq<byte>)> {
    if s == [] then None
    else if 1 <= s[0] <= 75 then Take(s[1..], s[0])
    else if s[0] == 0x4C && |s| > 1 then Take(s[2..], s[1])
    else None
  }

  /** s is three pushes, of the data a, b and c, followed by rest. */
  predicate ThreePushes(s: seq<byte>, a: seq<byte>, b: seq<byte>, c: seq<byte>, rest: seq<byte>) {
    var first := ReadPush(s);
    first.Some? && first.value.0 == a &&
    var second := ReadPush(first.value.1);
    second.Some? && second.value.0 == b && ReadPush(second.value.1) == Some((c, rest))
  }

  /** What the second push is meant to hold. */
  function TagData(t0: seq<byte>, secondary: seq<byte>): seq<byte> {
    var payload := TagPayload(t0, secondary[..KeptSecondary(|t0|, |secondary|)]);
    if payload == [] then [0x00] else payload
  }

  /** Whenever the code does not panic, the script is exactly three pushes, of the height, the tags (or a
      zero byte) and the entropy, but for the one pair of tag lengths. */
  lemma ScriptIsThreePushesIff(height: nat, t: Tags, rest: seq<byte>)
    requires height < 0x80_0000 && !TagsTooLong(|t.Primary()|, |t.secondary|)
    ensures |Digits(height)| < 255 && FromLE(UNum(height)[1..]) == height
    ensures ThreePushes(InputScript(height, t) + rest, UNum(height)[1..], TagData(t.Primary(), t.secondary), UidPush(t)[1..], rest)
       <==> !(|t.Primary()| == 84 && |t.secondary| == 1)
  {
    HeightPushShort(height);
    var h, tags, uid := UNum(height), TagPush(t.Primary(), t.secondary), UidPush(t);
    HeightReadBack(height, tags + (uid + rest));
    Assoc(h, tags, uid, rest);
    if |t.Primary()| == 84 && |t.secondary| == 1 {
      MisreadScript(height, t, rest);
    } else {
      TagsReadBack(t.Primary(), t.secondary, uid + rest);
      UidReadBack(t, rest);
    }
  }

  /** For that pair the second push swallows the opcode of the third, and the placeholder 0xFF that is next
      is no push: the script cannot be read to its end. */
  lemma MisreadScript(height: nat, t: Tags, rest: seq<byte>)
    requires height < 0x80_0000 && |t.Primary()| == 84 && |t.secondary| == 1
    ensures |Digits(height)| < 255 && !TagsTooLong(|t.Primary()|, |t.secondary|)
    ensures var first := ReadPush(InputScript(height, t) + rest);
            && first == Some((UNum(height)[1..], TagPush(t.Primary(), t.secondary) + (UidPush(t) + rest)))
            && ReadPush(first.value.1) == Some((TagPayload(t.Primary(), []) + [UidPush(t)[0]], UidPush(t)[1..] + rest))
            && ReadPush(UidPush(t)[1..] + rest) == None
  {
    HeightPushShort(height);
    var tags, uid := TagPush(t.Primary(), t.secondary), UidPush(t);
    HeightReadBack(height, tags + (uid + rest));
    Assoc(UNum(height), tags, uid, rest);
    assert t.secondary[..KeptSecondary(84, 1)] == [];
    SwallowOne(TagPayload(t.Primary(), []), uid, rest);
  }

  lemma SwallowOne(payload: seq<byte>, uid: seq<byte>, rest: seq<byte>)
    requires |payload| == 85 && uid != []
    ensures ReadPush(PushOpcode(86) + payload + (uid + rest)) == Some((payload + [uid[0]], uid[1..] + rest))
  {
    var s := PushOpcode(86) + payload + (uid + rest);
    assert s[2..] == (payload + [uid[0]]) + (uid[1..] + rest);
    TakeConcat(payload + [uid[0]], uid[1..] + rest);
  }

  /** How much of the secondary tag is kept: 84 bytes are left for both tags, but a primary tag alone may
      take 85. */
  function Kept(n0: nat, n1: nat): nat {
    if n0 + n1 <= 84 then n1 else if n0 < 84 then 84 - n0 else 0
  }

  /** The tags in the pushed data: the primary one, 0x0F, what is kept of the secondary one, and 0x00; or the
      primary one and 0x00; or 0x00 alone. */
  ghost predicate HoldsTags(d: seq<byte>, primary: seq<byte>, secondary: seq<byte>) {
    var n0, kept := |primary|, Kept(|primary|, |secondary|);
    && kept <= |secondary|
    && |d| == n0 + (if kept > 0 then kept + 2 else 1)
    && d[..n0] == primary
    && (if kept > 0 then d[n0] == 0x0F && d[n0 + 1..n0 + 1 + kept] == secondary[..kept] && d[n0 + 1 + kept] == 0x00
        else d[n0] == 0x00)
  }

  /** The entropy: the placeholder, the low two bytes of the unique id, and with a pool or a prime id the low
      four bytes of that. */
  ghost predicate HoldsEntropy(d: seq<byte>, t: Tags) {
    && |d| == (if t.active || t.primeId != 0 then 7 else 3)
    && d[0] == 0xFF && FromLE(d[1..3]) == t.uniqueId % 0x1_0000
    && (|d| == 7 ==> FromLE(d[3..]) == t.primeId % 0x1_0000_0000)
  }

  /** What the three pushes of the script hold, read back from its bytes. */
  lemma ScriptSays(height: nat, t: Tags, rest: seq<byte>)
    requires height < 0x80_0000 && !TagsTooLong(|t.Primary()|, |t.secondary|)
    requires !(|t.Primary()| == 84 && |t.secondary| == 1)
    ensures |Digits(height)| < 255
    ensures var first := ReadPush(InputScript(height, t) + rest);
            first.Some? && FromLE(first.value.0) == height &&
            var second := ReadPush(first.value.1);
            second.Some? && HoldsTags(second.value.0, if t.active then t.poolPrimary else t.ownPrimary, t.secondary) &&
            var third := ReadPush(second.value.1);
            third.Some? && HoldsEntropy(third.value.0, t) && third.value.1 == rest
  {
    ScriptIsThreePushesIff(height, t, rest);
    TagDataHolds(t.Primary(), t.secondary);
    UidHolds(t);
  }

  /** The index of the placeholder is where the entropy begins, which ends the script. */
  lemma EntropyAtPotIndex(height: nat, t: Tags)
    requires |Digits(height)| < 255 && !TagsTooLong(|t.Primary()|, |t.secondary|)
    ensures PotIndex(height, t) < |InputScript(height, t)|
    ensures HoldsEntropy(InputScript(height, t)[PotIndex(height, t)..], t)
  {
    UidHolds(t);
    assert InputScript(height, t)[PotIndex(height, t)..] == UidPush(t)[1..];
  }

  lemma TwoParts(a: seq<byte>, x: byte, b: seq<byte>, y: byte)
    ensures var d := (a + [x]) + (b + [y]);
            && |d| == |a| + |b| + 2 && d[..|a|] == a && d[|a|] == x
            && d[|a| + 1..|a| + 1 + |b|] == b && d[|a| + 1 + |b|] == y
  {
  }

  lemma TagDataHolds(t0: seq<byte>, secondary: seq<byte>)
    requires !TagsTooLong(|t0|, |secondary|) && !(|t0| == 84 && |secondary| == 1)
    ensures HoldsTags(TagData(t0, secondary), t0, secondary)
  {
    PushLengthExact(|t0|, |secondary|);
    var kept := Kept(|t0|, |secondary|);
    assert KeptSecondary(|t0|, |secondary|) == kept;
    if kept > 0 {
      TwoParts(t0, 0x0F, secondary[..kept], 0x00);
    } else {
      assert TagData(t0, secondary)[..|t0|] == t0;
    }
  }

  lemma UidHolds(t: Tags)
    ensures HoldsEntropy(UidPush(t)[1..], t)
  {
    LELow2(t.uniqueId);
    LELow4(t.primeId);
    var d := UidPush(t)[1..];
    assert d[1..3] == LE(t.uniqueId, 2);
    if |d| == 7 {
      assert d[3..] == LE(t.primeId, 4);
    }
  }

  lemma Assoc(a: seq<byte>, b: seq<byte>, c: seq<byte>, d: seq<byte>)
    ensures a + b + c + d == a + (b + (c + d))
  {
  }

  lemma PushReadBack(p: seq<byte>, rest: seq<byte>)
    requires 1 < |p| <= 76 && p[0] == |p| - 1
    ensures ReadPush(p + rest) == Some((p[1..], rest))
  {
    assert (p + rest)[1..] == p[1..] + rest;
    TakeConcat(p[1..], rest);
  }

  lemma HeightReadBack(height: nat, rest: seq<byte>)
    requires height < 0x80_0000
    ensures |Digits(height)| < 255
    ensures ReadPush(UNum(height) + rest) == Some((UNum(height)[1..], rest)) && FromLE(UNum(height)[1..]) == height
  {
    HeightPushShort(height);
    assert Pow256(4) == 0x1_0000_0000 by {
      PowersOf256();
    }
    HeightPush(height, 4);
    PushReadBack(UNum(height), rest);
  }

  lemma UidReadBack(t: Tags, rest: seq<byte>)
    ensures ReadPush(UidPush(t) + rest) == Some((UidPush(t)[1..], rest))
  {
    PushReadBack(UidPush(t), rest);
  }

  lemma TagsReadBack(t0: seq<byte>, secondary: seq<byte>, rest: seq<byte>)
    requires !TagsTooLong(|t0|, |secondary|) && !(|t0| == 84 && |secondary| == 1)
    ensures ReadPush(TagPush(t0, secondary) + rest) == Some((TagData(t0, secondary), rest))
  {
    PushLengthExact(|t0|, |secondary|);
    PayloadReadBack(TagPayload(t0, secondary[..KeptSecondary(|t0|, |secondary|)]), rest);
  }

  lemma PayloadReadBack(payload: seq<byte>, tail: seq<byte>)
    requires |payload| <= MAX_TAG_SPACE
    ensures payload != [] ==> ReadPush(PushOpcode(|payload|) + payload + tail) == Some((payload, tail))
    ensures ReadPush([0x01, 0x00] + tail) == Some(([0x00], tail))
  {
    var op := PushOpcode(|payload|);
    var s := op + payload + tail;
    assert s[|op|..] == payload + tail;
    TakeConcat(payload, tail);
    assert ([0x01, 0x00] + tail)[1..] == [0x00] + tail;
    TakeConcat([0x00], tail);
  }

  // ---------------------------------------------------------------- the code

  method PutOpcode(cb: Buffer, k: nat)
    requires cb.Valid() && k < 256 && cb.len + 2 <= cb.data.Length
    modifies cb, cb.data
    ensures cb.Valid() && cb.Contents == old(cb.Contents) + PushOpcode(k)
  {
    if k <= 75 {
      cb.Put(k);
    } else {
      cb.Put(0x4C);
      cb.Put(k);
    }
  }

  method PutTagAnd(cb: Buffer, tag: seq<byte>, separator: byte)
    requires cb.Valid() && cb.len + |tag| + 1 <= cb.data.Length
    modifies cb, cb.data
    ensures cb.Valid() && cb.Contents == old(cb.Contents) + (tag + [separator])
  {
    cb.PutAll(tag);
    cb.Put(separator);
  }

  method PutPayload(cb: Buffer, t0: seq<byte>, t1: seq<byte>)
    requires cb.Valid() && cb.len + |t0| + |t1| + 2 <= cb.data.Length
    requires t0 != [] || t1 != []
    modifies cb, cb.data
    ensures cb.Valid() && cb.Contents == old(cb.Contents) + TagPayload(t0, t1)
  {
    ghost var before := cb.Contents;
    if t0 != [] {
      PutTagAnd(cb, t0, if t1 == [] then 0x00 else 0x0F);
    } else if t1 != [] {
      PutTagAnd(cb, t0, 0x0F);
    }
    if t1 != [] {
      PutTagAnd(cb, t1, 0x00);
      ConcatAssoc(before, t0 + [0x0F], t1 + [0x00]);
    }
  }

  method PutTags(cb: Buffer, k: nat, t0: seq<byte>, secondary: seq<byte>, len1: nat)
    requires cb.Valid() && !TagsTooLong(|t0|, |secondary|) && cb.len + 89 <= cb.data.Length
    requires k == PushedLength(|t0|, |secondary|) && len1 == KeptSecondary(|t0|, |secondary|)
    modifies cb, cb.data
    ensures cb.Valid() && cb.Contents == old(cb.Contents) + TagPush(t0, secondary)
  {
    if k > 0 {
      PutOpcode(cb, k);
      PutPayload(cb, t0, secondary[..len1]);
      ConcatAssoc(old(cb.Contents), PushOpcode(k), TagPayload(t0, secondary[..len1]));
    } else {
      cb.PutAll([0x01, 0x00]);
    }
  }

  method PutUid(cb: Buffer, t: Tags) returns (target: nat)
    requires cb.Valid() && cb.len + 8 <= cb.data.Length
    modifies cb, cb.data
    ensures cb.Valid() && cb.Contents == old(cb.Contents) + UidPush(t)
    ensures target == old(cb.len) + 1
  {
    if t.primeId == 0 && !t.active {
      cb.Put(0x03);
      target := cb.len;
      cb.Put(0xFF);
      cb.PutLE(t.uniqueId, 2);
    } else {
      cb.Put(0x07);
      target := cb.len;
      cb.Put(0xFF);
      cb.PutLE(t.uniqueId, 2);
      cb.PutLE(t.primeId, 4);
    }
  }

  /** Lines 80 to 114: truncate the secondary tag. */
  method TagLengths(len0: nat, given: nat) returns (len1: nat, k: int)
    ensures k == PushedLength(len0, given) && len1 == KeptSecondary(len0, given)
  {
    len1, k := given, len0 + given + 2;
    if len1 == 0 {
      k := k - 1;
      if len0 == 0 {
        k := k - 1;
      }
    }
    if k > MAX_TAG_SPACE {
      var excess := k - MAX_TAG_SPACE;
      if len1 > excess {
        len1 := len1 - excess;
        k := MAX_TAG_SPACE;
      } else if len1 != 0 {
        len1 := 0;
        k := k - (len1 + 1);
      }
    }
  }

  /** Lines 70 and 116 to 178. */
  method PutScript(cb: Buffer, height: nat, t: Tags, k: nat, len1: nat) returns (target: nat)
    requires cb.Valid() && cb.len == 0 && cb.data.Length >= 149
    requires |Digits(height)| < 255 && |UNum(height)| <= 4
    requires !TagsTooLong(|t.Primary()|, |t.secondary|)
    requires k == PushedLength(|t.Primary()|, |t.secondary|) && len1 == KeptSecondary(|t.Primary()|, |t.secondary|)
    modifies cb, cb.data
    ensures cb.Valid() && cb.Contents == InputScript(height, t)
    ensures target == PotIndex(height, t)
  {
    PutUNum(cb, height);
    assert cb.Contents == UNum(height);
    PutTags(cb, k, t.Primary(), t.secondary, len1);
    target := PutUid(cb, t);
  }

  /** Write the script into cb. Returns its size and the index of the placeholder, or nothing where
      the code panics. */
  method GenerateCoinbaseInput(height: nat, t: Tags, cb: Buffer) returns (r: Option<(nat, nat)>)
    requires height < 0x80_0000 && cb.Valid() && cb.len == 0 && cb.data.Length >= 149
    modifies cb, cb.data
    ensures cb.Valid() && |Digits(height)| < 255
    ensures r.None? <==> TagsTooLong(|t.Primary()|, |t.secondary|)
    ensures r.Some? ==> cb.Contents == InputScript(height, t)
                        && r.value == (|InputScript(height, t)|, PotIndex(height, t))
  {
    HeightPushShort(height);
    var len1, k := TagLengths(|t.Primary()|, |t.secondary|);
    if k > MAX_TAG_SPACE {
      return None;
    }
    var target := PutScript(cb, height, t, k, len1);
    return Some((cb.len, target));
  }
}
