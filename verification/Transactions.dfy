/** The old (pre-segwit) transaction format, as in the "Serialization" section of BIP 144. */
module Transactions {
  import opened Bytes

  datatype TxIn = TxIn(prevHash: seq<byte>, prevIndex: nat, script: seq<byte>, sequence: nat)
  datatype TxOut = TxOut(value: nat, script: seq<byte>)
  datatype Tx = Tx(version: nat, ins: seq<TxIn>, outs: seq<TxOut>, lockTime: nat)

  ghost predicate ValidIn(i: TxIn) {
    |i.prevHash| == 32 && i.prevIndex < Pow256(4) && |i.script| < TWO_64 && i.sequence < Pow256(4)
  }

  ghost predicate ValidOut(o: TxOut) {
    o.value < TWO_64 && |o.script| < TWO_64
  }

  ghost predicate ValidTx(tx: Tx) {
    && tx.version < Pow256(4) && tx.lockTime < Pow256(4)
    && |tx.ins| < TWO_64 && |tx.outs| < TWO_64
    && (forall i :: 0 <= i < |tx.ins| ==> ValidIn(tx.ins[i]))
    && (forall i :: 0 <= i < |tx.outs| ==> ValidOut(tx.outs[i]))
  }

  function SerializeIn(i: TxIn): seq<byte>
  {
    i.prevHash + (LE(i.prevIndex, 4) + (Varint(|i.script|) + (i.script + LE(i.sequence, 4))))
  }

  function SerializeOut(o: TxOut): seq<byte>
  {
    LE(o.value, 8) + (Varint(|o.script|) + o.script)
  }

  function SerializeIns(ins: seq<TxIn>): seq<byte>
  {
    if ins == [] then [] else SerializeIn(ins[0]) + SerializeIns(ins[1..])
  }

  function SerializeOuts(outs: seq<TxOut>): seq<byte> {
    EncodeAll(SerializeOut, outs)
  }

  function Serialize(tx: Tx): seq<byte>
  {
    LE(tx.version, 4) + (Varint(|tx.ins|) + (SerializeIns(tx.ins)
    + (Varint(|tx.outs|) + (SerializeOuts(tx.outs) + LE(tx.lockTime, 4)))))
  }

  // ---------------------------------------------------------------- the deserializer

  function ParseIn(b: seq<byte>): Option<(TxIn, seq<byte>)> {
    var hash := Take(b, 32);
    if hash.None? then None else
    var index := ParseLE(hash.value.1, 4);
    if index.None? then None else
    var len := ParseVarint(index.value.1);
    if len.None? then None else
    var script := Take(len.value.1, len.value.0);
    if script.None? then None else
    var sequence := ParseLE(script.value.1, 4);
    if sequence.None? then None else
    Some((TxIn(hash.value.0, index.value.0, script.value.0, sequence.value.0), sequence.value.1))
  }

  function ParseOut(b: seq<byte>): Option<(TxOut, seq<byte>)> {
    var value := ParseLE(b, 8);
    if value.None? then None else
    var len := ParseVarint(value.value.1);
    if len.None? then None else
    var script := Take(len.value.1, len.value.0);
    if script.None? then None else
    Some((TxOut(value.value.0, script.value.0), script.value.1))
  }

  function ParseIns(b: seq<byte>, n: nat): Option<(seq<TxIn>, seq<byte>)> {
    if n == 0 then Some(([], b)) else
    var first := ParseIn(b);
    if first.None? then None else
    var others := ParseIns(first.value.1, n - 1);
    if others.None? then None else
    Some(([first.value.0] + others.value.0, others.value.1))
  }

  function ParseOuts(b: seq<byte>, n: nat): Option<(seq<TxOut>, seq<byte>)> {
    if n == 0 then Some(([], b)) else
    var first := ParseOut(b);
    if first.None? then None else
    var others := ParseOuts(first.value.1, n - 1);
    if others.None? then None else
    Some(([first.value.0] + others.value.0, others.value.1))
  }

  /** Read one transaction and return it with the bytes left over. */
  function Deserialize(b: seq<byte>): Option<(Tx, seq<byte>)> {
    var version := ParseLE(b, 4);
    if version.None? then None else
    var nIn := ParseVarint(version.value.1);
    if nIn.None? then None else
    var ins := ParseIns(nIn.value.1, nIn.value.0);
    if ins.None? then None else
    var nOut := ParseVarint(ins.value.1);
    if nOut.None? then None else
    var outs := ParseOuts(nOut.value.1, nOut.value.0);
    if outs.None? then None else
    var lockTime := ParseLE(outs.value.1, 4);
    if lockTime.None? then None else
    Some((Tx(version.value.0, ins.value.0, outs.value.0, lockTime.value.0), lockTime.value.1))
  }

  // ---------------------------------------------------------------- round trips

  lemma Nest5(a: seq<byte>, b: seq<byte>, c: seq<byte>, d: seq<byte>, e: seq<byte>, rest: seq<byte>)
    ensures (a + (b + (c + (d + e)))) + rest == a + (b + (c + (d + (e + rest))))
  {
    ConcatAssoc(d, e, rest);
    ConcatAssoc(c, d + e, rest);
    ConcatAssoc(b, c + (d + e), rest);
    ConcatAssoc(a, b + (c + (d + e)), rest);
  }

  lemma Nest6(a: seq<byte>, b: seq<byte>, c: seq<byte>, d: seq<byte>, e: seq<byte>, f: seq<byte>, rest: seq<byte>)
    ensures (a + (b + (c + (d + (e + f))))) + rest == a + (b + (c + (d + (e + (f + rest)))))
  {
    Nest5(b, c, d, e, f, rest);
    ConcatAssoc(a, b + (c + (d + (e + f))), rest);
  }

  lemma InRoundTrip(i: TxIn, rest: seq<byte>)
    requires ValidIn(i)
    ensures ParseIn(SerializeIn(i) + rest) == Some((i, rest))
  {
    var tail3 := LE(i.sequence, 4) + rest;
    var tail2 := i.script + tail3;
    var tail1 := Varint(|i.script|) + tail2;
    var tail0 := LE(i.prevIndex, 4) + tail1;
    Nest5(i.prevHash, LE(i.prevIndex, 4), Varint(|i.script|), i.script, LE(i.sequence, 4), rest);
    TakeConcat(i.prevHash, tail0);
    ParseLEConcat(i.prevIndex, 4, tail1);
    VarintRoundTrip(|i.script|, tail2);
    TakeConcat(i.script, tail3);
    ParseLEConcat(i.sequence, 4, rest);
  }

  lemma OutRoundTrip(o: TxOut, rest: seq<byte>)
    requires ValidOut(o)
    ensures ParseOut(SerializeOut(o) + rest) == Some((o, rest))
  {
    PowersOf256();
    var tail1 := o.script + rest;
    var tail0 := Varint(|o.script|) + tail1;
    assert SerializeOut(o) + rest == LE(o.value, 8) + tail0;
    ParseLEConcat(o.value, 8, tail0);
    VarintRoundTrip(|o.script|, tail1);
    TakeConcat(o.script, rest);
  }

  lemma {:induction false} InsRoundTrip(ins: seq<TxIn>, rest: seq<byte>)
    requires forall i :: 0 <= i < |ins| ==> ValidIn(ins[i])
    ensures ParseIns(SerializeIns(ins) + rest, |ins|) == Some((ins, rest))
  {
    if ins == [] {
      assert [] + rest == rest;
    } else {
      var first, others := SerializeIn(ins[0]), SerializeIns(ins[1..]);
      ConcatAssoc(first, others, rest);
      InRoundTrip(ins[0], others + rest);
      InsRoundTrip(ins[1..], rest);
      assert [ins[0]] + ins[1..] == ins;
    }
  }

  lemma {:induction false} OutsRoundTrip(outs: seq<TxOut>, rest: seq<byte>)
    requires forall i :: 0 <= i < |outs| ==> ValidOut(outs[i])
    ensures ParseOuts(SerializeOuts(outs) + rest, |outs|) == Some((outs, rest))
  {
    if outs == [] {
      assert [] + rest == rest;
    } else {
      var first, others := SerializeOut(outs[0]), SerializeOuts(outs[1..]);
      ConcatAssoc(first, others, rest);
      OutRoundTrip(outs[0], others + rest);
      OutsRoundTrip(outs[1..], rest);
      assert [outs[0]] + outs[1..] == outs;
    }
  }

  lemma TxRoundTrip(tx: Tx, rest: seq<byte>)
    requires ValidTx(tx)
    ensures Deserialize(Serialize(tx) + rest) == Some((tx, rest))
  {
    var tail4 := LE(tx.lockTime, 4) + rest;
    var tail3 := SerializeOuts(tx.outs) + tail4;
    var tail2 := Varint(|tx.outs|) + tail3;
    var tail1 := SerializeIns(tx.ins) + tail2;
    var tail0 := Varint(|tx.ins|) + tail1;
    Nest6(LE(tx.version, 4), Varint(|tx.ins|), SerializeIns(tx.ins), Varint(|tx.outs|), SerializeOuts(tx.outs),
          LE(tx.lockTime, 4), rest);
    ParseLEConcat(tx.version, 4, tail0);
    VarintRoundTrip(|tx.ins|, tail1);
    InsRoundTrip(tx.ins, tail2);
    VarintRoundTrip(|tx.outs|, tail3);
    OutsRoundTrip(tx.outs, tail4);
    ParseLEConcat(tx.lockTime, 4, rest);
  }

  lemma SerializeOne(o: TxOut)
    ensures SerializeOuts([o]) == SerializeOut(o)
  {
    EncodeAllOne(SerializeOut, o);
  }

  lemma SerializeOutsConcat(a: seq<TxOut>, b: seq<TxOut>)
    ensures SerializeOuts(a + b) == SerializeOuts(a) + SerializeOuts(b)
  {
    EncodeAllConcat(SerializeOut, a, b);
  }

  /** The sum of the output values. */
  function OutSum(outs: seq<TxOut>): nat {
    if outs == [] then 0 else outs[0].value + OutSum(outs[1..])
  }

  lemma {:induction false} OutSumConcat(a: seq<TxOut>, b: seq<TxOut>)
    ensures OutSum(a + b) == OutSum(a) + OutSum(b)
  {
    if a == [] {
      assert a + b == b;
    } else {
      OutSumConcat(a[1..], b);
      assert (a + b)[1..] == a[1..] + b;
    }
  }
}
