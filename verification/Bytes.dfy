/** Bytes, little-endian integers and Bitcoin variable-length integers (datum_utils.c, datum_utils.h). */
module Bytes {

  type byte = x: int | 0 <= x < 256

  datatype Option<+T> = None | Some(value: T)

  const TWO_64: nat := 0x1_0000_0000_0000_0000

  /** 256 to the power n. */
  function Pow256(n: nat): (r: nat)
    ensures r > 0
  {
    if n == 0 then 1 else 256 * Pow256(n - 1)
  }

  function Pow2(n: nat): (p: nat)
    ensures p > 0
  {
    if n == 0 then 1 else 2 * Pow2(n - 1)
  }

  /** Byte i of v, byte 0 being the least significant. */
  function ByteAt(v: nat, i: nat): byte {
    if i == 0 then v % 256 else ByteAt(v / 256, i - 1)
  }

  /** The n low bytes of v, least significant first. */
  function LE(v: nat, n: nat): (s: seq<byte>)
    ensures |s| == n
  {
    seq(n, i requires 0 <= i < n => ByteAt(v, i))
  }

  lemma LEUnfold(v: nat, n: nat)
    requires n > 0
    ensures LE(v, n) == [v % 256] + LE(v / 256, n - 1)
  {
  }

  function FromLE(s: seq<byte>): nat {
    if s == [] then 0 else s[0] + 256 * FromLE(s[1..])
  }

  lemma {:induction false} LERoundTrip(v: nat, n: nat)
    requires v < Pow256(n)
    ensures FromLE(LE(v, n)) == v
  {
    if n > 0 {
      LERoundTrip(v / 256, n - 1);
      LEUnfold(v, n);
      assert LE(v, n)[1..] == LE(v / 256, n - 1);
    }
  }

  lemma LowBytes(v: nat)
    ensures v % 256 + 256 * (v / 256 % 256) == v % 0x1_0000 && v / 256 / 256 == v / 0x1_0000
  {
  }

  lemma LowWords(v: nat)
    ensures v % 0x1_0000 + 0x1_0000 * (v / 0x1_0000 % 0x1_0000) == v % 0x1_0000_0000
  {
    var low, high := v % 0x1_0000, v / 0x1_0000;
    assert v == 0x1_0000 * high + low;
    var m, q := high % 0x1_0000, high / 0x1_0000;
    assert v == 0x1_0000_0000 * q + (0x1_0000 * m + low);
  }

  /** The two low bytes stand for the number modulo 2^16. */
  lemma LELow2(v: nat)
    ensures FromLE(LE(v, 2)) == v % 0x1_0000
  {
    FromLEOfLE(v, 2);
    FromLEOfLE(v / 256, 1);
    LowBytes(v);
    assert FromLE(LE(v / 256 / 256, 0)) == 0;
  }

  /** The four low bytes stand for the number modulo 2^32. */
  lemma LELow4(v: nat)
    ensures FromLE(LE(v, 4)) == v % 0x1_0000_0000
  {
    FromLEOfLE(v, 4);
    FromLEOfLE(v / 256, 3);
    LowBytes(v);
    LELow2(v / 0x1_0000);
    LowWords(v);
  }

  lemma FromLEOfLE(v: nat, n: nat)
    requires n > 0
    ensures FromLE(LE(v, n)) == v % 256 + 256 * FromLE(LE(v / 256, n - 1))
  {
    LEUnfold(v, n);
    assert LE(v, n)[1..] == LE(v / 256, n - 1);
  }

  lemma {:induction false} FromLERoundTrip(s: seq<byte>)
    ensures FromLE(s) < Pow256(|s|)
    ensures LE(FromLE(s), |s|) == s
  {
    if s != [] {
      FromLERoundTrip(s[1..]);
      LEUnfold(FromLE(s), |s|);
      assert s == [s[0]] + s[1..];
    }
  }

  lemma PowersOf256()
    ensures Pow256(1) == 0x100 && Pow256(2) == 0x1_0000 && Pow256(4) == 0x1_0000_0000 && Pow256(8) == TWO_64
  {
    assert Pow256(2) == 256 * Pow256(1);
    assert Pow256(4) == 256 * 256 * Pow256(2);
    assert Pow256(6) == 256 * 256 * Pow256(4);
    assert Pow256(8) == 256 * 256 * Pow256(6);
  }

  /** How many bytes follow the marker byte of a variable-length integer. */
  function VarintWidth(n: nat): (w: nat)
    ensures w == 0 || w == 2 || w == 4 || w == 8
    ensures w == 0 <==> n < 0xFD
  {
    if n < 0xFD then 0 else if n <= 0xFFFF then 2 else if n <= 0xFFFF_FFFF then 4 else 8
  }

  function VarintMarker(w: nat): byte {
    if w == 2 then 0xFD else if w == 4 then 0xFE else 0xFF
  }

  /** append_bitcoin_varint_hex, as bytes; its argument is a 64-bit number. */
  function Varint(n: nat): (s: seq<byte>)
    ensures |s| == 1 + VarintWidth(n)
  {
    var w := VarintWidth(n);
    if w == 0 then [n] else [VarintMarker(w)] + LE(n, w)
  }

  /** The first n bytes, and the rest. */
  function Take(b: seq<byte>, n: nat): Option<(seq<byte>, seq<byte>)> {
    if n <= |b| then Some((b[..n], b[n..])) else None
  }

  function ParseLE(b: seq<byte>, n: nat): Option<(nat, seq<byte>)> {
    if n <= |b| then Some((FromLE(b[..n]), b[n..])) else None
  }

  function ParseVarint(b: seq<byte>): (r: Option<(nat, seq<byte>)>)
    ensures r.Some? ==> |r.value.1| < |b|
  {
    if b == [] then None
    else if b[0] < 0xFD then Some((b[0], b[1..]))
    else ParseLE(b[1..], if b[0] == 0xFD then 2 else if b[0] == 0xFE then 4 else 8)
  }

  lemma ConcatAssoc(a: seq<byte>, b: seq<byte>, c: seq<byte>)
    ensures (a + b) + c == a + (b + c)
  {
  }

  /** The C string that starts at a. */
  function CString(s: seq<byte>, a: nat): (r: seq<byte>)
    ensures 0 !in r
    decreases |s| - a
  {
    if a >= |s| || s[a] == 0 then [] else [s[a]] + CString(s, a + 1)
  }

  lemma {:induction false} CStringEnds(s: seq<byte>, a: nat, n: nat)
    requires a + n <= |s| && 0 !in s[a..a + n] && (a + n == |s| || s[a + n] == 0)
    ensures CString(s, a) == s[a..a + n]
    decreases n
  {
    if n > 0 {
      assert s[a] in s[a..a + n];
      assert s[a..a + n] == [s[a]] + s[a + 1..a + n];
      CStringEnds(s, a + 1, n - 1);
    }
  }

  /** The encodings of all items, one after the other. */
  function EncodeAll<T>(encode: T -> seq<byte>, items: seq<T>): seq<byte> {
    if items == [] then [] else encode(items[0]) + EncodeAll(encode, items[1..])
  }

  lemma EncodeAllOne<T>(encode: T -> seq<byte>, item: T)
    ensures EncodeAll(encode, [item]) == encode(item)
  {
    assert [item][1..] == [];
    assert encode(item) + [] == encode(item);
  }

  lemma {:induction false} EncodeAllConcat<T>(encode: T -> seq<byte>, a: seq<T>, b: seq<T>)
    ensures EncodeAll(encode, a + b) == EncodeAll(encode, a) + EncodeAll(encode, b)
  {
    if a == [] {
      assert a + b == b;
    } else {
      EncodeAllConcat(encode, a[1..], b);
      assert (a + b)[1..] == a[1..] + b;
      ConcatAssoc(encode(a[0]), EncodeAll(encode, a[1..]), EncodeAll(encode, b));
    }
  }

  lemma EncodeAllSlice<T>(encode: T -> seq<byte>, items: seq<T>, p: nat, n: nat)
    requires p <= n < |items|
    ensures EncodeAll(encode, items[p..n + 1]) == EncodeAll(encode, items[p..n]) + encode(items[n])
  {
    assert items[p..n + 1] == items[p..n] + [items[n]];
    EncodeAllConcat(encode, items[p..n], [items[n]]);
    EncodeAllOne(encode, items[n]);
  }

  lemma TakeConcat(s: seq<byte>, rest: seq<byte>)
    ensures Take(s + rest, |s|) == Some((s, rest))
  {
    assert (s + rest)[..|s|] == s && (s + rest)[|s|..] == rest;
  }

  lemma ParseLEConcat(v: nat, n: nat, rest: seq<byte>)
    requires v < Pow256(n)
    ensures ParseLE(LE(v, n) + rest, n) == Some((v, rest))
  {
    LERoundTrip(v, n);
    TakeConcat(LE(v, n), rest);
  }

  /** The four forms of a variable-length integer. */
  lemma VarintForms(n: nat)
    requires n < TWO_64
    ensures n < 0xFD ==> Varint(n) == [n]
    ensures 0xFD <= n < 0x1_0000 ==> |Varint(n)| == 3 && Varint(n)[0] == 0xFD && FromLE(Varint(n)[1..]) == n
    ensures 0x1_0000 <= n < 0x1_0000_0000 ==> |Varint(n)| == 5 && Varint(n)[0] == 0xFE && FromLE(Varint(n)[1..]) == n
    ensures 0x1_0000_0000 <= n ==> |Varint(n)| == 9 && Varint(n)[0] == 0xFF && FromLE(Varint(n)[1..]) == n
  {
    PowersOf256();
    if n >= 0xFD {
      var w := VarintWidth(n);
      LERoundTrip(n, w);
      assert Varint(n)[1..] == LE(n, w);
    }
  }

  lemma VarintRoundTrip(n: nat, rest: seq<byte>)
    requires n < TWO_64
    ensures ParseVarint(Varint(n) + rest) == Some((n, rest))
  {
    PowersOf256();
    if n < 0xFD {
      assert (Varint(n) + rest)[1..] == rest;
    } else {
      var w := VarintWidth(n);
      ParseLEConcat(n, w, rest);
      assert (Varint(n) + rest)[1..] == LE(n, w) + rest;
    }
  }
}
