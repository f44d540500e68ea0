/** What the coinbases pay, said of the transaction that is read back from their bytes
    (datum_coinbaser.c, lines 241 to 310, 354 to 459 and 601 to 671). */
module CoinbaseOutputs {
  import opened Bytes
  import opened Transactions
  import opened CoinbaseSelection
  import opened CoinbaseBudget
  import opened CoinbaseSpec
  import opened CoinbaseBuilder

  // ---------------------------------------------------------------- the selection

  /** Output j of the job is paid exactly when the selection had not stopped before it and it fits what the
      outputs selected before it, the first n, left over. */
  lemma SelectedIsGreedy(job: Job, remaining: int, j: nat) returns (n: nat)
    requires job.Valid() && j < |job.outputs|
    ensures GreedyAt(job.outputs, Selected(job, remaining), n, remaining, 0, job.value, j)
  {
    n := ChooseIsGreedy(job.outputs, 0, remaining, 0, job.value, j);
  }

  /** The budget of the selection is the largest that keeps the coinbase, as charged, within the size of its
      type and the block within both limits of the template, or nothing. */
  lemma BudgetIsLargest(job: Job, scriptLen: nat, i: nat)
    requires job.Valid() && scriptLen <= 100 && 1 <= i < MAX_TYPES
    requires job.template.txnWeight >= job.template.txnSize && job.template.weightLimit <= job.template.sizeLimit
    ensures var r, limit := Remaining(job, scriptLen, i), [0, 500, 755, 6500, 16000, 2250][i];
            var charged := 119 + |job.poolScript| + scriptLen + if scriptLen > 85 || i == 2 then 10 else 0;
            && r >= 0
            && (r > 0 ==> WithinLimits(charged, r, job.template) && charged + r <= limit)
            && forall q :: r < q && charged + q <= limit ==> !WithinLimits(charged, q, job.template)
  {
    FitIsLargest(MaxSize(i), RequiredSize(job, scriptLen, i), job.template);
  }

  // ---------------------------------------------------------------- where the extranonce output is

  /** The first n of the outputs, and no more, fit in this many bytes. */
  ghost predicate Leads(outs: seq<TxOut>, room: nat, n: nat) {
    n <= |outs| && CostSum(outs[..n]) <= room && (n < |outs| ==> CostSum(outs[..n + 1]) > room)
  }

  /** Of the first 150 bytes the script and its header leave room for lead of the payouts, and the first e have
      an index below that. */
  ghost predicate SplitsAt(job: Job, scriptLen: nat, c: seq<nat>, e: nat, lead: nat)
    requires Increasing(c, 0, |job.outputs|) && scriptLen <= 100
  {
    && Leads(Picked(job.outputs, c), 150 - (46 + scriptLen), lead) && e <= |c|
    && (forall j :: 0 <= j < e ==> c[j] < lead) && (forall j :: e <= j < |c| ==> lead <= c[j])
  }

  /** The extranonce output follows those payouts in the split variant; in the other types it comes first. */
  ghost predicate InPlace(job: Job, scriptLen: nat, split: bool, c: seq<nat>, e: nat)
    requires Increasing(c, 0, |job.outputs|) && scriptLen <= 100
  {
    if split then exists lead :: SplitsAt(job, scriptLen, c, e, lead) else e == 0
  }

  lemma FirstCountInPlace(job: Job, remaining: int, scriptLen: nat)
    requires scriptLen <= 100
    ensures InPlace(job, scriptLen, true, Selected(job, remaining), FirstCount(job, remaining, FirstHalfRoom(46 + scriptLen)))
  {
    var c, room := Selected(job, remaining), 150 - (46 + scriptLen);
    var lead := LeadCount(Payouts(job, remaining), room);
    LeadIsLargest(Payouts(job, remaining), room);
    SplitPointSeparates(c, lead, 0, |job.outputs|);
    assert SplitsAt(job, scriptLen, c, FirstCount(job, remaining, room), lead);
  }

  // ---------------------------------------------------------------- one transaction

  /** One null outpoint with the final sequence number; the script is the given one, followed by a push of
      prefix and extranonce if those are not in an output. */
  ghost predicate Spends(tx: Tx, script: seq<byte>, enprefix: nat, inScript: bool, en: seq<byte>)
    requires enprefix < 0x1_0000
  {
    && tx.version == 1 && tx.lockTime == 0 && |tx.ins| == 1
    && var i := tx.ins[0];
    && |i.prevHash| == 32 && (forall k :: 0 <= k < 32 ==> i.prevHash[k] == 0) && i.prevIndex == 0xFFFF_FFFF
    && i.sequence == 0xFFFF_FFFF
    && i.script == script + (if inScript then [0x0e, enprefix / 256, enprefix % 256] + en else [])
    && |i.script| <= 100
  }

  /** The payouts with the indices c, in order, with the extranonce output at place e if there is one. */
  ghost predicate PaysMiners(job: Job, c: seq<nat>, inScript: bool, e: nat, en: seq<byte>, outs: seq<TxOut>)
    requires job.enprefix < 0x1_0000
  {
    && |outs| == |c| + (if inScript then 2 else 3) && e <= |c|
    && (forall j :: 0 <= j < |c| ==> c[j] < |job.outputs|
                                     && outs[if inScript || j < e then j else j + 1] == job.outputs[c[j]])
    && (!inScript ==> outs[e] == TxOut(0, [0x6a, 0x0e, job.enprefix / 256, job.enprefix % 256] + en))
  }

  /** The last two outputs: all that the miners leave goes to the pool, or there is a filler; and the witness
      commitment. Without payouts the pool gets everything. */
  ghost predicate PaysPool(job: Job, empty: bool, paid: nat, outs: seq<TxOut>)
    requires |outs| >= 2
  {
    && outs[|outs| - 1] == TxOut(0, job.commitment)
    && outs[|outs| - 2] == (if empty then TxOut(job.value, job.poolScript)
                            else if job.value > paid then TxOut(job.value - paid, job.poolScript)
                            else TxOut(0, [0x6a, 0x01, 0x00]))
  }

  /** Which outputs of the job type i pays. */
  function PaidBy(job: Job, scriptLen: nat, empty: bool, i: nat): (c: seq<nat>)
    ensures Increasing(c, 0, |job.outputs|)
  {
    if empty then [] else Selected(job, Remaining(job, scriptLen, i))
  }

  ghost predicate IsRight(job: Job, script: seq<byte>, emptyOnly: bool, i: nat, en: seq<byte>, e: nat, tx: Tx)
    requires job.enprefix < 0x1_0000 && |script| <= 100
  {
    var empty := emptyOnly || i == 0;
    var inScript := |script| <= 85 && (empty || i != 2);
    var c := PaidBy(job, |script|, empty, i);
    && Spends(tx, script, job.enprefix, inScript, en)
    && InPlace(job, |script|, !empty && i == 2, c, e)
    && PaysMiners(job, c, inScript, e, en, tx.outs)
    && PaysPool(job, empty, OutSum(Picked(job.outputs, c)), tx.outs)
  }

  /** Two halves with this extranonce between them are one transaction, and it pays what it should. */
  ghost predicate PaysRight(job: Job, script: seq<byte>, emptyOnly: bool, i: nat, h: Halves, en: seq<byte>)
    requires job.enprefix < 0x1_0000 && |script| <= 100
  {
    var r := Deserialize(h.coinb1 + en + h.coinb2);
    r.Some? && r.value.1 == [] && exists e :: IsRight(job, script, emptyOnly, i, en, e, r.value.0)
  }

  lemma IntendedSpends(script: seq<byte>, enprefix: nat, plan: Plan, en: seq<byte>)
    requires enprefix < 0x1_0000 && |script| <= 100 && |en| == EXTRANONCE_SIZE && (plan.inScript ==> |script| <= 85)
    ensures Spends(Intended(script, enprefix, plan, en), script, enprefix, plan.inScript, en)
  {
    if plan.inScript {
      assert [0x0e] + Prefix(enprefix) == [0x0e, enprefix / 256, enprefix % 256];
      JoinSig(script, [0x0e], Prefix(enprefix), en);
      ConcatAssoc(script, [0x0e] + Prefix(enprefix), en);
    }
  }

  lemma ExtranonceOutIs(enprefix: nat, en: seq<byte>)
    requires enprefix < 0x1_0000
    ensures ExtranonceOut(enprefix, en) == TxOut(0, [0x6a, 0x0e, enprefix / 256, enprefix % 256] + en)
  {
    assert [0x6a, 0x0e] + Prefix(enprefix) == [0x6a, 0x0e, enprefix / 256, enprefix % 256];
  }

  /** Where the outputs of a transaction with payouts are. */
  function Arranged(paid: seq<TxOut>, inScript: bool, e: nat, o: TxOut, last: seq<TxOut>): seq<TxOut>
    requires e <= |paid|
  {
    if inScript then paid + last else paid[..e] + [o] + (paid[e..] + last)
  }

  lemma ArrangedAt(paid: seq<TxOut>, inScript: bool, e: nat, o: TxOut, last: seq<TxOut>)
    requires e <= |paid| && |last| == 2
    ensures var outs := Arranged(paid, inScript, e, o, last);
            && |outs| == |paid| + (if inScript then 2 else 3) && (!inScript ==> outs[e] == o)
            && (forall j :: 0 <= j < |paid| ==> outs[if inScript || j < e then j else j + 1] == paid[j])
            && outs[|outs| - 2] == last[0] && outs[|outs| - 1] == last[1]
  {
  }

  lemma FullArranged(job: Job, script: seq<byte>, i: nat, en: seq<byte>, e: nat)
    requires job.Valid() && |script| <= 100 && 1 <= i < MAX_TYPES && |en| == EXTRANONCE_SIZE
    requires e == if i == 2 then FirstCount(job, Remaining(job, |script|, i), FirstHalfRoom(46 + |script|)) else 0
    ensures var paid := Payouts(job, Remaining(job, |script|, i));
            e <= |paid| && Intended(script, job.enprefix, PlanOf(job, |script|, i, false), en).outs
            == Arranged(paid, |script| <= 85 && i != 2, e, ExtranonceOut(job.enprefix, en),
                        [PoolOut(job, OutSum(paid)), WitnessOut(job)])
  {
  }

  lemma FullPays(job: Job, script: seq<byte>, i: nat, en: seq<byte>, e: nat)
    requires job.Valid() && |script| <= 100 && 1 <= i < MAX_TYPES && |en| == EXTRANONCE_SIZE
    requires e == if i == 2 then FirstCount(job, Remaining(job, |script|, i), FirstHalfRoom(46 + |script|)) else 0
    ensures var tx := Intended(script, job.enprefix, PlanOf(job, |script|, i, false), en);
            var c, inScript := PaidBy(job, |script|, false, i), |script| <= 85 && i != 2;
            && PaysMiners(job, c, inScript, e, en, tx.outs)
            && PaysPool(job, false, OutSum(Picked(job.outputs, c)), tx.outs)
  {
    FullArranged(job, script, i, en, e);
    var paid := Payouts(job, Remaining(job, |script|, i));
    ExtranonceOutIs(job.enprefix, en);
    ArrangedAt(paid, |script| <= 85 && i != 2, e, ExtranonceOut(job.enprefix, en),
               [PoolOut(job, OutSum(paid)), WitnessOut(job)]);
  }

  lemma FullRight(job: Job, script: seq<byte>, i: nat, en: seq<byte>, e: nat)
    requires job.Valid() && |script| <= 100 && 1 <= i < MAX_TYPES && |en| == EXTRANONCE_SIZE
    requires e == if i == 2 then FirstCount(job, Remaining(job, |script|, i), FirstHalfRoom(46 + |script|)) else 0
    ensures IsRight(job, script, false, i, en, e, Intended(script, job.enprefix, PlanOf(job, |script|, i, false), en))
  {
    IntendedSpends(script, job.enprefix, PlanOf(job, |script|, i, false), en);
    if i == 2 {
      FirstCountInPlace(job, Remaining(job, |script|, i), |script|);
    }
    FullPays(job, script, i, en, e);
  }

  lemma EmptyRight(job: Job, script: seq<byte>, emptyOnly: bool, i: nat, en: seq<byte>)
    requires job.Valid() && |script| <= 100 && (emptyOnly || i == 0) && |en| == EXTRANONCE_SIZE
    ensures IsRight(job, script, emptyOnly, i, en, 0, Intended(script, job.enprefix, EmptyPlan(job, |script| <= 85), en))
  {
    IntendedSpends(script, job.enprefix, EmptyPlan(job, |script| <= 85), en);
    ExtranonceOutIs(job.enprefix, en);
  }

  lemma TypePaysRight(job: Job, script: seq<byte>, emptyOnly: bool, i: nat, en: seq<byte>)
    requires job.Valid() && |script| <= 100 && i < MAX_TYPES && |en| == EXTRANONCE_SIZE
    requires PlanOf(job, |script|, i, emptyOnly).Valid()
    ensures PaysRight(job, script, emptyOnly, i, HalvesOf(job, script, PlanOf(job, |script|, i, emptyOnly)), en)
  {
    HalvesAssemble(script, job.enprefix, PlanOf(job, |script|, i, emptyOnly), en);
    if emptyOnly || i == 0 {
      EmptyRight(job, script, emptyOnly, i, en);
    } else {
      FullRight(job, script, i, en,
                if i == 2 then FirstCount(job, Remaining(job, |script|, i), FirstHalfRoom(46 + |script|)) else 0);
    }
  }

  // ---------------------------------------------------------------- the subsidy-only coinbase

  /** One output to the pool of the block subsidy, after the extranonce output if there is one. */
  ghost predicate SubsidyRight(job: Job, script: seq<byte>, h: Halves, en: seq<byte>)
    requires job.enprefix < 0x1_0000 && |script| <= 100
  {
    var r, inScript := Deserialize(h.coinb1 + en + h.coinb2), |script| <= 85;
    r.Some? && r.value.1 == []
    && var outs := r.value.0.outs;
    && Spends(r.value.0, script, job.enprefix, inScript, en)
    && |outs| == (if inScript then 1 else 2)
    && outs[|outs| - 1].script == job.poolScript && IsSubsidy(outs[|outs| - 1].value, job.height)
    && (!inScript ==> outs[0] == TxOut(0, [0x6a, 0x0e, job.enprefix / 256, job.enprefix % 256] + en))
  }

  lemma SubsidyPaysRight(job: Job, script: seq<byte>, en: seq<byte>)
    requires job.Valid() && |script| <= 100 && |en| == EXTRANONCE_SIZE
    ensures SubsidyRight(job, script, HalvesOf(job, script, SubsidyPlan(job, |script| <= 85)), en)
  {
    var plan := SubsidyPlan(job, |script| <= 85);
    HalvesAssemble(script, job.enprefix, plan, en);
    IntendedSpends(script, job.enprefix, plan, en);
    ExtranonceOutIs(job.enprefix, en);
    RewardIsSubsidy(job.height);
  }
}
