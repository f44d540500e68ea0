/** What the two halves of a generation transaction have to contain (datum_coinbaser.c), and that
    with any 12-byte extranonce between them they are exactly one transaction. */
module CoinbaseSpec {
  import opened Bytes
  import opened Transactions

  const EXTRANONCE_SIZE: nat := 12
  const FINAL_SEQUENCE: nat := 0xFFFF_FFFF

  /** How the outputs are laid out. The extranonce sits in the input script, or in an output of its
      own between first and rest. */
  datatype Plan = Plan(inScript: bool, first: seq<TxOut>, rest: seq<TxOut>) {
    function Count(): nat {
      |first| + |rest| + if inScript then 0 else 1
    }

    ghost predicate Valid() {
      && (inScript ==> first == [])
      && Count() < 0x1_0000
      && (forall i :: 0 <= i < |first| ==> ValidOut(first[i]))
      && (forall i :: 0 <= i < |rest| ==> ValidOut(rest[i]))
    }
  }

  /** "%04x" of the prefix. */
  function Prefix(enprefix: nat): (p: seq<byte>)
    requires enprefix < 0x1_0000
    ensures |p| == 2
  {
    [enprefix / 256, enprefix % 256]
  }

  function NullHash(): (h: seq<byte>)
    ensures |h| == 32
  {
    seq(32, _ => 0)
  }

  /** The zero-value output that carries the extranonce. */
  function ExtranonceOut(enprefix: nat, en: seq<byte>): TxOut
    requires enprefix < 0x1_0000
  {
    TxOut(0, [0x6a, 0x0e] + Prefix(enprefix) + en)
  }

  function InputScriptWith(script: seq<byte>, enprefix: nat, plan: Plan, en: seq<byte>): seq<byte>
    requires enprefix < 0x1_0000
  {
    if plan.inScript then script + [0x0e] + Prefix(enprefix) + en else script
  }

  /** The transaction a miner completes: one null outpoint, the final sequence number, all outputs. */
  function Intended(script: seq<byte>, enprefix: nat, plan: Plan, en: seq<byte>): Tx
    requires enprefix < 0x1_0000
  {
    Tx(1, [TxIn(NullHash(), 0xFFFF_FFFF, InputScriptWith(script, enprefix, plan, en), FINAL_SEQUENCE)],
       if plan.inScript then plan.rest else plan.first + [ExtranonceOut(enprefix, en)] + plan.rest, 0)
  }

  /** cbstart_hex: version, input count, null outpoint. */
  function Start(): seq<byte> {
    LE(1, 4) + Varint(1) + NullHash() + LE(0xFFFF_FFFF, 4)
  }

  /** The start of the extranonce output: value, length 16, OP_RETURN, push 14, prefix. */
  function ExtranonceHead(enprefix: nat): (h: seq<byte>)
    requires enprefix < 0x1_0000
    ensures |h| == 13
  {
    LE(0, 8) + [0x10, 0x6a, 0x0e] + Prefix(enprefix)
  }

  /** The first half up to where the type decides: the extranonce push, or the sequence number. */
  function Opening(script: seq<byte>, enprefix: nat, inScript: bool): (s: seq<byte>)
    requires enprefix < 0x1_0000 && |script| < 0xFD - 15
    ensures |s| == 42 + |script| + if inScript then 3 else 4
  {
    Start() + Varint(|script| + if inScript then 15 else 0) + script
    + if inScript then [0x0e] + Prefix(enprefix) else LE(FINAL_SEQUENCE, 4)
  }

  function Coinb1(script: seq<byte>, enprefix: nat, plan: Plan): seq<byte>
    requires enprefix < 0x1_0000 && |script| < 0xFD - 15
  {
    Opening(script, enprefix, plan.inScript)
    + if plan.inScript then [] else Varint(plan.Count()) + SerializeOuts(plan.first) + ExtranonceHead(enprefix)
  }

  function Coinb2(plan: Plan): seq<byte>
  {
    (if plan.inScript then LE(FINAL_SEQUENCE, 4) + Varint(plan.Count()) else [])
    + SerializeOuts(plan.rest) + LE(0, 4)
  }

  // ---------------------------------------------------------------- assembly

  lemma IntendedIsValid(script: seq<byte>, enprefix: nat, plan: Plan, en: seq<byte>)
    requires enprefix < 0x1_0000 && |script| < 0xFD - 15 && plan.Valid() && |en| == EXTRANONCE_SIZE
    ensures ValidTx(Intended(script, enprefix, plan, en))
    ensures |Intended(script, enprefix, plan, en).outs| == plan.Count()
  {
    PowersOf256();
  }

  lemma ExtranonceOutBytes(enprefix: nat, en: seq<byte>)
    requires enprefix < 0x1_0000 && |en| == EXTRANONCE_SIZE
    ensures ValidOut(ExtranonceOut(enprefix, en))
    ensures SerializeOut(ExtranonceOut(enprefix, en)) == ExtranonceHead(enprefix) + en
  {
    var o := ExtranonceOut(enprefix, en);
    assert Varint(|o.script|) == [0x10];
    var v := LE(0, 8);
    assert v + ([0x10] + ([0x6a, 0x0e] + Prefix(enprefix) + en)) == v + [0x10, 0x6a, 0x0e] + Prefix(enprefix) + en;
  }

  /** The extranonce output, in its place between the other outputs. */
  lemma OutsAroundExtranonce(enprefix: nat, plan: Plan, en: seq<byte>)
    requires enprefix < 0x1_0000 && plan.Valid() && |en| == EXTRANONCE_SIZE
    ensures ValidOut(ExtranonceOut(enprefix, en))
    ensures SerializeOuts(plan.first + [ExtranonceOut(enprefix, en)] + plan.rest)
         == SerializeOuts(plan.first) + ExtranonceHead(enprefix) + en + SerializeOuts(plan.rest)
  {
    var o := ExtranonceOut(enprefix, en);
    ExtranonceOutBytes(enprefix, en);
    SerializeOutsConcat(plan.first + [o], plan.rest);
    SerializeOutsConcat(plan.first, [o]);
    SerializeOne(o);
    ConcatAssoc(SerializeOuts(plan.first), ExtranonceHead(enprefix), en);
  }

  /** The serialization of one-input transactions, as a list of its fields. */
  lemma OneInput(tx: Tx)
    requires ValidTx(tx) && |tx.ins| == 1
    ensures var i := tx.ins[0];
            Serialize(tx) == LE(tx.version, 4) + Varint(1) + i.prevHash + LE(i.prevIndex, 4)
                             + Varint(|i.script|) + i.script + LE(i.sequence, 4)
                             + Varint(|tx.outs|) + SerializeOuts(tx.outs) + LE(tx.lockTime, 4)
  {
    var i := tx.ins[0];
    assert tx.ins[1..] == [];
    assert SerializeIns(tx.ins) == SerializeIn(i) + [] == SerializeIn(i);
    Regroup(LE(tx.version, 4), Varint(1), i.prevHash, LE(i.prevIndex, 4), Varint(|i.script|),
            i.script, LE(i.sequence, 4), Varint(|tx.outs|), SerializeOuts(tx.outs), LE(tx.lockTime, 4));
  }

  lemma Regroup(a: seq<byte>, b: seq<byte>, c: seq<byte>, d: seq<byte>, e: seq<byte>,
                f: seq<byte>, g: seq<byte>, h: seq<byte>, i: seq<byte>, j: seq<byte>)
    ensures a + (b + ((c + (d + (e + (f + g)))) + (h + (i + j)))) == a + b + c + d + e + f + g + h + i + j
  {
    assert c + (d + (e + (f + g))) == c + d + e + f + g;
    assert h + (i + j) == h + i + j;
    var x, y := c + d + e + f + g, h + i + j;
    assert a + (b + (x + y)) == a + b + x + y;
    assert a + b + x == a + b + c + d + e + f + g;
  }

  /** The serialization of an intended transaction, starting with the constant bytes. */
  lemma IntendedBytes(script: seq<byte>, enprefix: nat, plan: Plan, en: seq<byte>)
    requires enprefix < 0x1_0000 && |script| < 0xFD - 15 && plan.Valid() && |en| == EXTRANONCE_SIZE
    ensures var tx := Intended(script, enprefix, plan, en);
            && ValidTx(tx) && |tx.outs| == plan.Count()
            && var sig := tx.ins[0].script;
            && |sig| == |script| + (if plan.inScript then 15 else 0)
            && Serialize(tx) == Start() + Varint(|sig|) + sig + LE(FINAL_SEQUENCE, 4)
                                + Varint(plan.Count()) + SerializeOuts(tx.outs) + LE(0, 4)
  {
    IntendedIsValid(script, enprefix, plan, en);
    OneInput(Intended(script, enprefix, plan, en));
  }

  lemma AssembleInScript(script: seq<byte>, enprefix: nat, plan: Plan, en: seq<byte>)
    requires enprefix < 0x1_0000 && |script| < 0xFD - 15 && plan.Valid() && |en| == EXTRANONCE_SIZE
    requires plan.inScript
    ensures ValidTx(Intended(script, enprefix, plan, en))
    ensures Coinb1(script, enprefix, plan) + en + Coinb2(plan) == Serialize(Intended(script, enprefix, plan, en))
  {
    IntendedBytes(script, enprefix, plan, en);
    var x := Start() + Varint(|script| + 15);
    var push := [0x0e] + Prefix(enprefix);
    JoinSig(script, [0x0e], Prefix(enprefix), en);
    JoinInScript(x, script, push, en, LE(FINAL_SEQUENCE, 4), Varint(plan.Count()), SerializeOuts(plan.rest), LE(0, 4));
  }

  lemma JoinSig(script: seq<byte>, op: seq<byte>, prefix: seq<byte>, en: seq<byte>)
    ensures script + op + prefix + en == script + (op + prefix) + en
  {
  }

  lemma JoinInScript(x: seq<byte>, script: seq<byte>, push: seq<byte>, en: seq<byte>,
                     sq: seq<byte>, c: seq<byte>, o: seq<byte>, lock: seq<byte>)
    ensures x + script + push + [] + en + (sq + c + o + lock) == x + (script + push + en) + sq + c + o + lock
  {
    var s := script + push + en;
    assert x + script + push + [] + en == x + s;
    var y := x + s;
    assert y + (sq + c + o + lock) == y + sq + c + o + lock;
  }

  lemma AssembleInOutput(script: seq<byte>, enprefix: nat, plan: Plan, en: seq<byte>)
    requires enprefix < 0x1_0000 && |script| < 0xFD - 15 && plan.Valid() && |en| == EXTRANONCE_SIZE
    requires !plan.inScript
    ensures ValidTx(Intended(script, enprefix, plan, en))
    ensures Coinb1(script, enprefix, plan) + en + Coinb2(plan) == Serialize(Intended(script, enprefix, plan, en))
  {
    IntendedBytes(script, enprefix, plan, en);
    OutsAroundExtranonce(enprefix, plan, en);
    var x := Opening(script, enprefix, false);
    JoinInOutput(x, Varint(plan.Count()), SerializeOuts(plan.first), ExtranonceHead(enprefix), en,
                 SerializeOuts(plan.rest), LE(0, 4));
  }

  lemma JoinInOutput(x: seq<byte>, c: seq<byte>, f: seq<byte>, h: seq<byte>, en: seq<byte>, r: seq<byte>, lock: seq<byte>)
    ensures x + (c + f + h) + en + ([] + r + lock) == x + c + (f + h + en + r) + lock
  {
    assert [] + r + lock == r + lock;
    assert x + (c + f + h) == x + c + f + h;
    var y := f + h + en + r;
    assert x + c + f + h + en + (r + lock) == x + c + y + lock;
  }

  /** The two halves with an extranonce between them are the intended transaction, and reading them
      back gives that transaction with no byte left over. */
  lemma HalvesAssemble(script: seq<byte>, enprefix: nat, plan: Plan, en: seq<byte>)
    requires enprefix < 0x1_0000 && |script| < 0xFD - 15 && plan.Valid() && |en| == EXTRANONCE_SIZE
    ensures ValidTx(Intended(script, enprefix, plan, en))
    ensures Coinb1(script, enprefix, plan) + en + Coinb2(plan) == Serialize(Intended(script, enprefix, plan, en))
    ensures Deserialize(Coinb1(script, enprefix, plan) + en + Coinb2(plan))
         == Some((Intended(script, enprefix, plan, en), []))
  {
    if plan.inScript {
      AssembleInScript(script, enprefix, plan, en);
    } else {
      AssembleInOutput(script, enprefix, plan, en);
    }
    var b := Coinb1(script, enprefix, plan) + en + Coinb2(plan);
    TxRoundTrip(Intended(script, enprefix, plan, en), []);
    assert b + [] == b;
  }
}
