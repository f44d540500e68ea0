/** generate_coinbase_txns_for_stratum_job: all coinbases of a job, and what is true of each of them. */
module CoinbaseJob {
  import opened Bytes
  import opened Transactions
  import opened Buffers
  import opened CoinbaseSelection
  import opened CoinbaseScript
  import opened CoinbaseBudget
  import opened CoinbaseSpec
  import opened CoinbaseBuilder
  import opened CoinbaseWriter
  import opened CoinbaseOutputs

  datatype Coinbases = Coinbases(types: seq<Halves>, subsidyOnly: Option<Halves>, potIndex: nat)

  /** Without a pool, or without payouts from it, every type is the empty one. */
  predicate EmptyOnly(job: Job, given: bool) {
    given || !job.tags.active || job.outputs == []
  }

  /** Lines 543 to 599: the first half up to where the types differ. */
  method OpenCoinbase(job: Job, script: seq<byte>, inScript: bool) returns (c1: Buffer)
    requires job.Valid() && |script| <= 100
    ensures c1.Valid() && fresh(c1) && fresh(c1.data) && c1.data.Length == COINB1_BYTES
    ensures c1.Contents == Opening(script, job.enprefix, inScript)
  {
    c1 := new Buffer(COINB1_BYTES);
    c1.PutAll(Start());
    c1.PutVarint(|script| + if inScript then 15 else 0);
    c1.PutAll(script);
    assert c1.Contents == Start() + Varint(|script| + if inScript then 15 else 0) + script;
    PutEnd(c1, job.enprefix, inScript);
  }

  method PutEnd(c1: Buffer, enprefix: nat, inScript: bool)
    requires c1.Valid() && enprefix < 0x1_0000 && c1.len + 4 <= c1.data.Length
    modifies c1, c1.data
    ensures c1.Valid()
    ensures c1.Contents == old(c1.Contents) + if inScript then [0x0e] + Prefix(enprefix) else LE(FINAL_SEQUENCE, 4)
  {
    ghost var before := c1.Contents;
    if inScript {
      c1.Put(0x0e);
      c1.PutAll(Prefix(enprefix));
      ConcatAssoc(before, [0x0e], Prefix(enprefix));
    } else {
      c1.PutLE(FINAL_SEQUENCE, 4);
    }
  }

  /** The start of the second half of the empty type, and the end of its first half. */
  method CountEmpty(job: Job, c1: Buffer, c2: Buffer, space: bool)
    requires job.Valid() && c1.Valid() && c2.Valid() && c1 != c2 && c1.data != c2.data
    requires c1.len + 16 <= c1.data.Length && c2.Contents == [] && c2.data.Length >= 7
    modifies c1, c1.data, c2, c2.data
    ensures c1.Valid() && c2.Valid()
    ensures c1.Contents == old(c1.Contents) + AfterOpening(3, job.enprefix, space, false)
    ensures c2.Contents == SecondStart(2, space)
  {
    PutCount(job, c1, c2, if space then 2 else 3, space, false);
  }

  /** Lines 613 to 671, second half of the empty type; script runs from pos to end in it. */
  method EmptySecond(job: Job, c2: Buffer, ghost start: seq<byte>) returns (pos: nat, end: nat)
    requires job.Valid() && c2.Valid() && c2.len <= 7 && c2.data.Length >= 144 && c2.Contents == start
    modifies c2, c2.data
    ensures c2.Valid()
    ensures c2.Contents == start + SerializeOuts([TxOut(job.value, job.poolScript), WitnessOut(job)]) + LE(0, 4)
    ensures pos == |start| && pos + 8 <= end <= |c2.Contents|
    ensures c2.Contents[pos + 8..end] == Varint(|job.poolScript|) + job.poolScript
  {
    var o, w := TxOut(job.value, job.poolScript), WitnessOut(job);
    pos := c2.len;
    PutOut(c2, o);
    end := c2.len;
    PoolScriptAt(start, o);
    ghost var upto := c2.Contents;
    PutOut(c2, w);
    c2.PutLE(0, 4);
    TwoOuts(o, w);
    ConcatAssoc(start, SerializeOut(o), SerializeOut(w));
    assert c2.Contents[..end] == upto;
    assert c2.Contents[pos + 8..end] == upto[pos + 8..];
  }

  lemma PoolScriptAt(start: seq<byte>, o: TxOut)
    ensures (start + SerializeOut(o))[|start| + 8..] == Varint(|o.script|) + o.script
  {
  }

  /** Lines 619 to 640: the first half of the subsidy-only coinbase, copied from the empty one with the
      output count in it replaced. */
  method CopyFirst(job: Job, c1: Buffer, space: bool, ghost opening: seq<byte>, at: nat) returns (s1: Buffer)
    requires job.Valid() && c1.Valid() && c1.len <= 200
    requires c1.Contents == opening + AfterOpening(3, job.enprefix, space, false) && at == |opening|
    ensures s1.Valid() && fresh(s1) && fresh(s1.data)
    ensures s1.Contents == opening + AfterOpening(2, job.enprefix, space, false)
  {
    s1 := new Buffer(COINB1_BYTES);
    s1.PutAll(c1.data[..c1.len]);
    if !space {
      CountReplaced(opening, ExtranonceHead(job.enprefix));
      s1.Set(at, 2);
    }
  }

  lemma CountReplaced(opening: seq<byte>, head: seq<byte>)
    ensures var old1 := opening + (Varint(3) + head);
            |opening| < |old1| && old1[|opening| := 2] == opening + (Varint(2) + head)
  {
    assert Varint(3) == [3] && Varint(2) == [2];
    var old1 := opening + ([3] + head);
    assert old1[|opening| := 2] == opening + ([2] + head);
  }

  /** Lines 666 to 671: its second half, with the subsidy for the value and without the witness output. */
  method CopySecond(job: Job, c2: Buffer, space: bool, pos: nat, end: nat) returns (s2: Buffer)
    requires job.Valid() && c2.Valid()
    requires pos + 8 <= end <= c2.len && end - pos <= 80
    requires c2.Contents[pos + 8..end] == Varint(|job.poolScript|) + job.poolScript
    ensures s2.Valid() && fresh(s2) && fresh(s2.data)
    ensures s2.Contents == SecondStart(1, space) + SerializeOuts([TxOut(BlockReward(job.height), job.poolScript)]) + LE(0, 4)
  {
    var copied := c2.data[pos + 8..end];
    assert copied == c2.data[..c2.len][pos + 8..end];
    s2 := new Buffer(COINB2_BYTES);
    if space {
      s2.PutLE(FINAL_SEQUENCE, 4);
      assert s2.Contents == LE(FINAL_SEQUENCE, 4);
      s2.PutVarint(1);
    }
    ghost var o := TxOut(BlockReward(job.height), job.poolScript);
    s2.PutLE(BlockReward(job.height), 8);
    s2.PutAll(copied);
    ConcatAssoc(SecondStart(1, space), LE(o.value, 8), Varint(|o.script|) + o.script);
    SerializeOne(o);
    s2.PutLE(0, 4);
  }

  /** Type 0, and the subsidy-only coinbase where it is wanted. */
  method BuildEmpty(job: Job, script: seq<byte>, withSubsidy: bool) returns (h: Halves, subsidy: Option<Halves>)
    requires job.Valid() && |script| <= 100
    ensures h == HalvesOf(job, script, EmptyPlan(job, |script| <= 85))
    ensures subsidy == if withSubsidy then Some(HalvesOf(job, script, SubsidyPlan(job, |script| <= 85))) else None
  {
    var space := |script| <= 85;
    var c1 := OpenCoinbase(job, script, space);
    var c2 := new Buffer(COINB2_BYTES);
    var at := c1.len;
    ghost var opening := c1.Contents;
    CountEmpty(job, c1, c2, space);
    var pos, end := EmptySecond(job, c2, c2.Contents);
    h := Halves(c1.data[..c1.len], c2.data[..c2.len]);
    EmptyMatches(job, script, EmptyPlan(job, space), c1.Contents, c2.Contents);
    subsidy := None;
    if withSubsidy {
      var s1 := CopyFirst(job, c1, space, opening, at);
      var s2 := CopySecond(job, c2, space, pos, end);
      subsidy := Some(Halves(s1.data[..s1.len], s2.data[..s2.len]));
      EmptyMatches(job, script, SubsidyPlan(job, space), s1.Contents, s2.Contents);
    }
  }

  lemma EmptyMatches(job: Job, script: seq<byte>, plan: Plan, w1: seq<byte>, w2: seq<byte>)
    requires job.Valid() && |script| <= 100 && plan.first == []
    requires w1 == Opening(script, job.enprefix, plan.inScript)
                   + AfterOpening(plan.Count(), job.enprefix, plan.inScript, false)
    requires w2 == SecondStart(plan.Count(), plan.inScript) + SerializeOuts(plan.rest) + LE(0, 4)
    ensures Halves(w1, w2) == HalvesOf(job, script, plan)
  {
    assert SerializeOuts([]) == [];
    FirstComplete(Opening(script, job.enprefix, plan.inScript), Varint(plan.Count()), [], ExtranonceHead(job.enprefix));
  }

  /** One of the types with payouts. */
  method BuildFull(job: Job, script: seq<byte>, i: nat) returns (h: Halves)
    requires job.Valid() && |script| <= 100 && 1 <= i < MAX_TYPES
    ensures h == HalvesOf(job, script, PlanOf(job, |script|, i, false))
  {
    var space := |script| <= 85;
    var c1 := OpenCoinbase(job, script, space && i != 2);
    var c2 := new Buffer(COINB2_BYTES);
    FinishCoinbase(job, script, c1, c2, Remaining(job, |script|, i), space, i == 2);
    h := Halves(c1.data[..c1.len], c2.data[..c2.len]);
  }

  ghost predicate IsType(job: Job, script: seq<byte>, only: bool, i: nat, h: Halves)
    requires job.enprefix < 0x1_0000 && |script| <= 100
  {
    h == HalvesOf(job, script, PlanOf(job, |script|, i, only))
  }

  /** One type, a copy of the empty one where there are no payouts. */
  method BuildType(job: Job, script: seq<byte>, first: Halves, only: bool, i: nat) returns (h: Halves)
    requires job.Valid() && |script| <= 100 && 1 <= i < MAX_TYPES && IsType(job, script, only, 0, first)
    ensures IsType(job, script, only, i, h)
  {
    h := first;
    if !only {
      h := BuildFull(job, script, i);
    }
  }

  /** Lines 676 to 727: the other types. */
  method BuildTypes(job: Job, script: seq<byte>, first: Halves, only: bool) returns (types: seq<Halves>)
    requires job.Valid() && |script| <= 100 && IsType(job, script, only, 0, first)
    ensures |types| == MAX_TYPES && forall i :: 0 <= i < MAX_TYPES ==> IsType(job, script, only, i, types[i])
  {
    types := [first];
    while |types| < MAX_TYPES
      invariant 1 <= |types| <= MAX_TYPES && forall i :: 0 <= i < |types| ==> IsType(job, script, only, i, types[i])
    {
      var h := BuildType(job, script, first, only, |types|);
      types := types + [h];
    }
  }

  /** With any extranonce each of the types, and the subsidy-only coinbase, is one transaction that pays what it
      should. */
  ghost predicate AllPayRight(job: Job, script: seq<byte>, only: bool, c: Coinbases)
    requires job.enprefix < 0x1_0000 && |script| <= 100
  {
    && |c.types| == MAX_TYPES
    && (forall i, en :: 0 <= i < MAX_TYPES && |en| == EXTRANONCE_SIZE ==> PaysRight(job, script, only, i, c.types[i], en))
    && (c.subsidyOnly.Some? <==> only)
    && (only ==> forall en :: |en| == EXTRANONCE_SIZE ==> SubsidyRight(job, script, c.subsidyOnly.value, en))
  }

  lemma AllTypesPayRight(job: Job, script: seq<byte>, only: bool, types: seq<Halves>)
    requires job.Valid() && |script| <= 100 && |types| == MAX_TYPES
    requires forall i :: 0 <= i < MAX_TYPES ==> IsType(job, script, only, i, types[i])
    ensures forall i, en :: 0 <= i < MAX_TYPES && |en| == EXTRANONCE_SIZE ==> PaysRight(job, script, only, i, types[i], en)
  {
    forall i, en: seq<byte> | 0 <= i < MAX_TYPES && |en| == EXTRANONCE_SIZE
      ensures PaysRight(job, script, only, i, types[i], en)
    {
      PlanValid(job, |script|, i, only);
      TypePaysRight(job, script, only, i, en);
      assert IsType(job, script, only, i, types[i]);
    }
  }

  lemma AllSubsidiesPayRight(job: Job, script: seq<byte>)
    requires job.Valid() && |script| <= 100
    ensures forall en :: |en| == EXTRANONCE_SIZE ==>
              SubsidyRight(job, script, HalvesOf(job, script, SubsidyPlan(job, |script| <= 85)), en)
  {
    forall en: seq<byte> | |en| == EXTRANONCE_SIZE
      ensures SubsidyRight(job, script, HalvesOf(job, script, SubsidyPlan(job, |script| <= 85)), en)
    {
      SubsidyPaysRight(job, script, en);
    }
  }

  /** All coinbases of a job, or nothing where the tags make the code panic. */
  method GenerateCoinbases(job: Job, emptyOnly: bool) returns (r: Option<Coinbases>)
    requires job.Valid()
    ensures |Digits(job.height)| < 255
    ensures r.None? <==> TagsTooLong(|job.tags.Primary()|, |job.tags.secondary|)
    ensures r.Some? ==>
              var script := InputScript(job.height, job.tags);
              && |script| <= 100 && |r.value.types| == MAX_TYPES
              && (forall i :: 0 <= i < MAX_TYPES ==>
                    r.value.types[i] == HalvesOf(job, script, PlanOf(job, |script|, i, EmptyOnly(job, emptyOnly))))
              && (r.value.subsidyOnly == if EmptyOnly(job, emptyOnly)
                    then Some(HalvesOf(job, script, SubsidyPlan(job, |script| <= 85))) else None)
              && r.value.potIndex == 42 + PotIndex(job.height, job.tags)
              && AllPayRight(job, script, emptyOnly || !job.tags.active || job.outputs == [], r.value)
  {
    var cb := new Buffer(149);
    var input := GenerateCoinbaseInput(job.height, job.tags, cb);
    if input.None? {
      return None;
    }
    InputScriptFits(job.height, job.tags);
    var script := cb.data[..input.value.0];
    var only := emptyOnly || !job.tags.active || |job.outputs| == 0;
    var first, subsidy := BuildEmpty(job, script, only);
    var types := BuildTypes(job, script, first, only);
    AllTypesPayRight(job, script, only, types);
    AllSubsidiesPayRight(job, script);
    r := Some(Coinbases(types, subsidy, input.value.1 + 42));
  }

  // ---------------------------------------------------------------- theorems

  /** The transaction that type i of a job stands for, once a miner fills in the extranonce. */
  function CoinbaseTx(job: Job, emptyOnly: bool, i: nat, en: seq<byte>): Tx
    requires job.enprefix < 0x1_0000 && |Digits(job.height)| < 255
    requires !TagsTooLong(|job.tags.Primary()|, |job.tags.secondary|)
  {
    var script := InputScript(job.height, job.tags);
    Intended(script, job.enprefix, PlanOf(job, |script|, i, emptyOnly), en)
  }

  lemma PlanValid(job: Job, scriptLen: nat, i: nat, emptyOnly: bool)
    requires job.Valid()
    ensures PlanOf(job, scriptLen, i, emptyOnly).Valid()
  {
    if !(emptyOnly || i == 0) {
      FullPlanValid(job, scriptLen, Remaining(job, scriptLen, i), scriptLen <= 85, i == 2);
    }
  }

  /** A generation transaction: one null outpoint with the final sequence number, and a script of at
      most 100 bytes that starts with the given one. */
  ghost predicate IsGeneration(tx: Tx, script: seq<byte>) {
    && tx.version == 1 && tx.lockTime == 0 && |tx.ins| == 1
    && |tx.ins[0].prevHash| == 32 && (forall k :: 0 <= k < 32 ==> tx.ins[0].prevHash[k] == 0)
    && tx.ins[0].prevIndex == 0xFFFF_FFFF && tx.ins[0].sequence == 0xFFFF_FFFF
    && script <= tx.ins[0].script && |tx.ins[0].script| <= 100
  }

  lemma IntendedIsGeneration(script: seq<byte>, enprefix: nat, plan: Plan, en: seq<byte>)
    requires enprefix < 0x1_0000 && |script| <= 100 && |en| == EXTRANONCE_SIZE && (plan.inScript ==> |script| <= 85)
    ensures IsGeneration(Intended(script, enprefix, plan, en), script)
  {
  }

  /** For every job, every type and every extranonce the two halves with the extranonce between them
      are one complete transaction and nothing more, and its outputs give away the coinbase value. */
  lemma EveryTypeIsOneTransaction(job: Job, emptyOnly: bool, i: nat, en: seq<byte>)
    requires job.Valid() && !TagsTooLong(|job.tags.Primary()|, |job.tags.secondary|)
    requires i < MAX_TYPES && |en| == EXTRANONCE_SIZE
    ensures |Digits(job.height)| < 255
    ensures var script, tx := InputScript(job.height, job.tags), CoinbaseTx(job, emptyOnly, i, en);
            && |script| <= 100
            && var h := HalvesOf(job, script, PlanOf(job, |script|, i, emptyOnly));
            && Deserialize(h.coinb1 + en + h.coinb2) == Some((tx, []))
            && IsGeneration(tx, script)
            && OutSum(tx.outs) == job.value
            && PaysRight(job, script, emptyOnly, i, h, en)
  {
    InputScriptFits(job.height, job.tags);
    TypeIsOneTransaction(job, InputScript(job.height, job.tags), emptyOnly, i, en);
    PlanValid(job, |InputScript(job.height, job.tags)|, i, emptyOnly);
    TypePaysRight(job, InputScript(job.height, job.tags), emptyOnly, i, en);
  }

  lemma TypeIsOneTransaction(job: Job, script: seq<byte>, emptyOnly: bool, i: nat, en: seq<byte>)
    requires job.Valid() && |script| <= 100 && i < MAX_TYPES && |en| == EXTRANONCE_SIZE
    ensures var plan := PlanOf(job, |script|, i, emptyOnly);
            var h, tx := HalvesOf(job, script, plan), Intended(script, job.enprefix, plan, en);
            && Deserialize(h.coinb1 + en + h.coinb2) == Some((tx, []))
            && IsGeneration(tx, script) && OutSum(tx.outs) == job.value
  {
    var plan := PlanOf(job, |script|, i, emptyOnly);
    PlanValid(job, |script|, i, emptyOnly);
    HalvesAssemble(script, job.enprefix, plan, en);
    IntendedIsGeneration(script, job.enprefix, plan, en);
    ValueConserved(job, script, i, emptyOnly, en);
  }

  /** The same of the subsidy-only coinbase, which gives away the block subsidy. */
  lemma SubsidyIsOneTransaction(job: Job, en: seq<byte>)
    requires job.Valid() && !TagsTooLong(|job.tags.Primary()|, |job.tags.secondary|) && |en| == EXTRANONCE_SIZE
    ensures |Digits(job.height)| < 255
    ensures var script := InputScript(job.height, job.tags);
            && |script| <= 100
            && var plan := SubsidyPlan(job, |script| <= 85);
            && var h, tx := HalvesOf(job, script, plan), Intended(script, job.enprefix, plan, en);
            && Deserialize(h.coinb1 + en + h.coinb2) == Some((tx, []))
            && IsGeneration(tx, script)
            && IsSubsidy(OutSum(tx.outs), job.height)
            && SubsidyRight(job, script, h, en)
  {
    InputScriptFits(job.height, job.tags);
    SubsidyPaysRight(job, InputScript(job.height, job.tags), en);
    SubsidyHalvesAssemble(job, InputScript(job.height, job.tags), en);
  }

  lemma SubsidyHalvesAssemble(job: Job, script: seq<byte>, en: seq<byte>)
    requires job.Valid() && |script| <= 100 && |en| == EXTRANONCE_SIZE
    ensures var plan := SubsidyPlan(job, |script| <= 85);
            var h, tx := HalvesOf(job, script, plan), Intended(script, job.enprefix, plan, en);
            && Deserialize(h.coinb1 + en + h.coinb2) == Some((tx, []))
            && IsGeneration(tx, script) && IsSubsidy(OutSum(tx.outs), job.height)
  {
    var plan := SubsidyPlan(job, |script| <= 85);
    HalvesAssemble(script, job.enprefix, plan, en);
    IntendedIsGeneration(script, job.enprefix, plan, en);
    SubsidyConserved(job, script, en);
  }

  /** The index for the per-miner target points at the placeholder in the first half of every type. */
  lemma PotIndexIsRight(job: Job, emptyOnly: bool, i: nat)
    requires job.Valid() && !TagsTooLong(|job.tags.Primary()|, |job.tags.secondary|)
    ensures |Digits(job.height)| < 255
    ensures var script, pot := InputScript(job.height, job.tags), 42 + PotIndex(job.height, job.tags);
            && |script| <= 100
            && var coinb1 := HalvesOf(job, script, PlanOf(job, |script|, i, emptyOnly)).coinb1;
            && pot < |coinb1| && coinb1[pot] == 0xFF
            && coinb1[42..42 + |script|] == script && HoldsEntropy(script[pot - 42..], job.tags)
  {
    InputScriptFits(job.height, job.tags);
    var script := InputScript(job.height, job.tags);
    var plan := PlanOf(job, |script|, i, emptyOnly);
    OpeningAt(script, job.enprefix, plan.inScript, PotIndex(job.height, job.tags));
    OpeningHolds(script, job.enprefix, plan.inScript);
    EntropyAtPotIndex(job.height, job.tags);
    assert HalvesOf(job, script, plan).coinb1[..42 + |script|] == Opening(script, job.enprefix, plan.inScript)[..42 + |script|];
  }

  lemma OpeningHolds(script: seq<byte>, enprefix: nat, inScript: bool)
    requires enprefix < 0x1_0000 && |script| <= 100
    ensures Opening(script, enprefix, inScript)[..42 + |script|][42..] == script
  {
    var start := Start() + Varint(|script| + if inScript then 15 else 0);
    assert |start| == 42;
    assert Opening(script, enprefix, inScript)[..42 + |script|] == start + script;
  }

  lemma OpeningAt(script: seq<byte>, enprefix: nat, inScript: bool, k: nat)
    requires enprefix < 0x1_0000 && |script| <= 100 && k < |script|
    ensures Opening(script, enprefix, inScript)[42 + k] == script[k]
  {
    var start := Start() + Varint(|script| + if inScript then 15 else 0);
    assert |start| == 42;
    assert (start + script)[42 + k] == script[k];
  }

  /** In the split variant the first half, up to the output count and the extranonce output, keeps to
      150 bytes, also when outputs were skipped in the selection. */
  lemma SplitFirstHalfFits(job: Job, script: seq<byte>)
    requires job.Valid() && |script| <= 100
    ensures var plan := PlanOf(job, |script|, 2, false);
            && |Opening(script, job.enprefix, false)| + |SerializeOuts(plan.first)| <= 150
            && |HalvesOf(job, script, plan).coinb1| <= 150 + 3 + 13
  {
    var remaining := Remaining(job, |script|, 2);
    var plan := PlanOf(job, |script|, 2, false);
    PayoutsFit(job, remaining);
    FullPlanValid(job, |script|, remaining, |script| <= 85, true);
    FirstFits(job, remaining, FirstHalfRoom(46 + |script|), true,
              LeadCount(Payouts(job, remaining), FirstHalfRoom(46 + |script|)));
    CostIsSize(plan.first);
  }

  /** The bytes of a coinbase with payouts. */
  lemma FullSize(job: Job, script: seq<byte>, i: nat)
    requires job.Valid() && |script| <= 100 && 1 <= i < MAX_TYPES
    ensures var remaining := Remaining(job, |script|, i);
            var paid, inScript := Payouts(job, remaining), |script| <= 85 && i != 2;
            var h := HalvesOf(job, script, PlanOf(job, |script|, i, false));
            |h.coinb1| + |h.coinb2| == 46 + |script| + (if inScript then 7 else 17)
                                       + |Varint(|paid| + if inScript then 2 else 3)| + CostSum(paid)
                                       + Cost(PoolOut(job, OutSum(paid))) + Cost(WitnessOut(job))
  {
    var remaining := Remaining(job, |script|, i);
    var plan, paid := PlanOf(job, |script|, i, false), Payouts(job, remaining);
    FullPlanLayout(job, |script|, remaining, |script| <= 85, i == 2);
    FullOutsSize(job, plan, remaining);
    HalvesSize(job, script, plan);
  }

  /** The outputs of a full plan, in order, whether or not some are in the first half. */
  lemma FullPlanLayout(job: Job, scriptLen: nat, remaining: int, space: bool, split: bool)
    ensures var plan, paid := FullPlan(job, scriptLen, remaining, space, split), Payouts(job, remaining);
            && plan.inScript == (space && !split) && (plan.inScript ==> plan.first == [])
            && plan.first + plan.rest == paid + [PoolOut(job, OutSum(paid)), WitnessOut(job)]
            && plan.Count() == |paid| + if plan.inScript then 2 else 3
  {
  }

  lemma HalvesSize(job: Job, script: seq<byte>, plan: Plan)
    requires job.Valid() && |script| <= 100 && (plan.inScript ==> plan.first == [])
    ensures var h := HalvesOf(job, script, plan);
            |h.coinb1| + |h.coinb2| == 46 + |script| + (if plan.inScript then 7 else 17) + |Varint(plan.Count())|
                                       + |SerializeOuts(plan.first)| + |SerializeOuts(plan.rest)|
  {
  }

  lemma FullOutsSize(job: Job, plan: Plan, remaining: int)
    requires job.Valid()
    requires plan.first + plan.rest
          == Payouts(job, remaining) + [PoolOut(job, OutSum(Payouts(job, remaining))), WitnessOut(job)]
    ensures var paid := Payouts(job, remaining);
            |SerializeOuts(plan.first)| + |SerializeOuts(plan.rest)|
              == CostSum(paid) + Cost(PoolOut(job, OutSum(paid))) + Cost(WitnessOut(job))
  {
    var paid := Payouts(job, remaining);
    PayoutsFit(job, remaining);
    CostIsSize(paid);
    var pool, w := PoolOut(job, OutSum(paid)), WitnessOut(job);
    SerializeOutsConcat(plan.first, plan.rest);
    SerializeOutsConcat(paid, [pool, w]);
    TwoOuts(pool, w);
  }

  /** The code charges 119 bytes where up to 124 are needed, so a coinbase may exceed the size of its
      class, by at most five bytes. */
  lemma SizeClassKept(job: Job, script: seq<byte>, i: nat, en: seq<byte>)
    requires job.Valid() && |script| <= 100 && 1 <= i < MAX_TYPES && |en| == EXTRANONCE_SIZE
    requires |job.commitment| == 38 && |job.poolScript| >= 3
    ensures var h := HalvesOf(job, script, PlanOf(job, |script|, i, false));
            |h.coinb1 + en + h.coinb2| <= MaxSize(i) + 5
  {
    PayoutsFit(job, Remaining(job, |script|, i));
    FullSize(job, script, i);
  }
}
