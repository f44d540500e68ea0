/** generate_coinbase_txns_for_stratum_job and the pass that selects and writes the miner payouts. */
module CoinbaseBuilder {
  import opened Bytes
  import opened Transactions
  import opened CoinbaseSelection
  import opened CoinbaseScript
  import opened CoinbaseBudget
  import opened CoinbaseSpec

  /** What a job gives to the coinbase: T_DATUM_STRATUM_JOB, its template and the settings. */
  datatype Job = Job(height: nat, enprefix: nat, value: nat, poolScript: seq<byte>, outputs: seq<TxOut>,
                     commitment: seq<byte>, template: Template, tags: Tags) {
    /** The bounds of the fields' types and arrays, and no 64-bit wrap when payouts are added up. */
    ghost predicate Valid() {
      && height < 0x80_0000 && enprefix < 0x1_0000 && value < TWO_64
      && 1 <= |poolScript| <= 64 && |commitment| <= 47
      && |outputs| <= 512 && (forall i :: 0 <= i < |outputs| ==> |outputs[i].script| <= 64)
      && NoWrap(outputs, value)
      && template.Valid()
    }
  }

  datatype Halves = Halves(coinb1: seq<byte>, coinb2: seq<byte>)

  const COINB1_BYTES: nat := 511    // half of STRATUM_COINBASE1_MAX_LEN, less the terminator
  const COINB2_BYTES: nat := 16383  // half of STRATUM_COINBASE2_MAX_LEN, less the terminator
  const MAX_TYPES: nat := 6

  // ---------------------------------------------------------------- what each type must contain

  function WitnessOut(job: Job): TxOut {
    TxOut(0, job.commitment)
  }

  /** The pool's remainder, or an unspendable filler when every satoshi went to miners. */
  function PoolOut(job: Job, paid: nat): TxOut {
    if job.value > paid then TxOut(job.value - paid, job.poolScript) else TxOut(0, [0x6a, 0x01, 0x00])
  }

  function EmptyPlan(job: Job, space: bool): Plan {
    Plan(space, [], [TxOut(job.value, job.poolScript), WitnessOut(job)])
  }

  function BlockReward(height: nat): nat {
    Halved(5_000_000_000, height / 210_000)
  }

  function Halved(reward: nat, halvings: nat): (r: nat)
    ensures r <= reward
  {
    if halvings == 0 then reward else Halved(reward / 2, halvings - 1)
  }

  /** The subsidy, rounded down after as many halvings as there were spans of 210000 blocks. */
  ghost predicate IsSubsidy(reward: nat, height: nat) {
    var k := height / 210_000;
    reward * Pow2(k) <= 5_000_000_000 < (reward + 1) * Pow2(k)
  }

  lemma {:induction false} HalvedBounds(reward: nat, k: nat)
    ensures Halved(reward, k) * Pow2(k) <= reward < (Halved(reward, k) + 1) * Pow2(k)
  {
    if k > 0 {
      HalvedBounds(reward / 2, k - 1);
      HalfBounds(reward, Halved(reward / 2, k - 1), Pow2(k - 1));
    }
  }

  lemma HalfBounds(reward: nat, h: nat, p: nat)
    requires h * p <= reward / 2 < (h + 1) * p
    ensures h * (2 * p) <= reward < (h + 1) * (2 * p)
  {
    assert h * (2 * p) == 2 * (h * p);
    assert (h + 1) * (2 * p) == 2 * ((h + 1) * p);
  }

  lemma RewardIsSubsidy(height: nat)
    ensures IsSubsidy(BlockReward(height), height)
  {
    HalvedBounds(5_000_000_000, height / 210_000);
  }

  /** From the 33rd halving on there is no subsidy left, well before the shift is by 64. */
  lemma SubsidyEnds(height: nat)
    ensures BlockReward(height) == 0 <==> height / 210_000 >= 33
  {
    RewardIsSubsidy(height);
    var k, r := height / 210_000, BlockReward(height);
    Pow2Of33();
    if k >= 33 {
      Pow2Monotone(33, k);
      TimesAtLeast(r, Pow2(k));
    } else {
      Pow2Monotone(k, 32);
    }
  }

  lemma TimesAtLeast(n: nat, x: nat)
    ensures n == 0 || n * x >= x
  {
  }

  lemma Pow2Of33()
    ensures Pow2(32) == 0x1_0000_0000 && Pow2(33) == 0x2_0000_0000
  {
    assert Pow2(8) == 256;
    assert Pow2(16) == 256 * Pow2(8);
    assert Pow2(24) == 256 * Pow2(16);
    assert Pow2(32) == 256 * Pow2(24);
  }

  lemma {:induction false} Pow2Monotone(a: nat, b: nat)
    requires a <= b
    ensures Pow2(a) <= Pow2(b)
  {
    if a < b {
      Pow2Monotone(a, b - 1);
    }
  }

  function SubsidyPlan(job: Job, space: bool): Plan {
    Plan(space, [], [TxOut(BlockReward(job.height), job.poolScript)])
  }

  function Selected(job: Job, remaining: int): (c: seq<nat>)
    ensures Increasing(c, 0, |job.outputs|)
  {
    ChooseIncreases(job.outputs, 0, remaining, 0, job.value);
    Choose(job.outputs, 0, remaining, 0, job.value)
  }

  /** The selected payouts. */
  function Payouts(job: Job, remaining: int): seq<TxOut> {
    Picked(job.outputs, Selected(job, remaining))
  }

  /** Bytes left for payouts in a first half of len1 bytes that should stay below 150. */
  function FirstHalfRoom(len1: nat): nat {
    if len1 > 150 then 0 else 150 - len1
  }

  /** How many of the selected payouts the split variant puts in the first half. */
  function FirstCount(job: Job, remaining: int, room: nat): (p: nat)
    ensures p <= |Payouts(job, remaining)|
  {
    SplitPoint(Selected(job, remaining), LeadCount(Payouts(job, remaining), room))
  }

  /** The outputs of a coinbase with payouts; split says that it is the variant for old Antminers. */
  function FullPlan(job: Job, scriptLen: nat, remaining: int, space: bool, split: bool): Plan {
    var paid := Payouts(job, remaining);
    var last := [PoolOut(job, OutSum(paid)), WitnessOut(job)];
    if split then
      var p := FirstCount(job, remaining, FirstHalfRoom(46 + scriptLen));
      Plan(false, paid[..p], paid[p..] + last)
    else
      Plan(space, [], paid + last)
  }

  function MaxSize(i: nat): nat {
    if i == 1 then 500 else if i == 2 then 755 else if i == 3 then 6500 else if i == 4 then 16000 else 2250
  }

  /** cb_req_sz: what the code charges for everything but the payouts. */
  function RequiredSize(job: Job, scriptLen: nat, i: nat): nat {
    119 + |job.poolScript| + scriptLen + if scriptLen > 85 || i == 2 then 10 else 0
  }

  function Remaining(job: Job, scriptLen: nat, i: nat): int {
    FitToTemplate(MaxSize(i), RequiredSize(job, scriptLen, i), job.template)
  }

  /** The outputs of coinbase type i. */
  function PlanOf(job: Job, scriptLen: nat, i: nat, emptyOnly: bool): Plan {
    var space := scriptLen <= 85;
    if emptyOnly || i == 0 then EmptyPlan(job, space)
    else FullPlan(job, scriptLen, Remaining(job, scriptLen, i), space, i == 2)
  }

  function HalvesOf(job: Job, script: seq<byte>, plan: Plan): Halves
    requires job.enprefix < 0x1_0000 && |script| <= 100
  {
    Halves(Coinb1(script, job.enprefix, plan), Coinb2(plan))
  }

  // ---------------------------------------------------------------- facts about the plans

  lemma PayoutsFit(job: Job, remaining: int)
    requires job.Valid()
    ensures OutSum(Payouts(job, remaining)) <= job.value
    ensures |Payouts(job, remaining)| <= 512
    ensures Payouts(job, remaining) != [] ==> CostSum(Payouts(job, remaining)) <= remaining
    ensures forall i :: 0 <= i < |Payouts(job, remaining)| ==>
              ValidOut(Payouts(job, remaining)[i]) && |Payouts(job, remaining)[i].script| <= 64
  {
    ChooseFits(job.outputs, 0, remaining, 0, job.value);
    var c := Selected(job, remaining);
    if |c| > 0 {
      assert c[|c| - 1] >= |c| - 1;
    }
    forall i | 0 <= i < |c| ensures ValidOut(job.outputs[c[i]]) {
      assert job.outputs[c[i]].value + job.value < TWO_64;
    }
  }

  lemma FullPlanValid(job: Job, scriptLen: nat, remaining: int, space: bool, split: bool)
    requires job.Valid()
    ensures FullPlan(job, scriptLen, remaining, space, split).Valid()
  {
    PayoutsFit(job, remaining);
  }

  /** Small scripts have one length byte, so an output takes exactly the bytes charged for it. */
  lemma {:induction false} CostIsSize(outs: seq<TxOut>)
    requires forall i :: 0 <= i < |outs| ==> ValidOut(outs[i]) && |outs[i].script| <= 64
    ensures |SerializeOuts(outs)| == CostSum(outs)
  {
    if outs != [] {
      CostIsSize(outs[1..]);
    }
  }

  lemma RemainderSum(job: Job, paid: seq<TxOut>)
    requires OutSum(paid) <= job.value
    ensures OutSum(paid + [PoolOut(job, OutSum(paid)), WitnessOut(job)]) == job.value
  {
    var pool, w := PoolOut(job, OutSum(paid)), WitnessOut(job);
    OutSumConcat(paid, [pool, w]);
    assert [pool, w][1..] == [w] && [w][1..] == [];
    assert OutSum([pool, w]) == pool.value + OutSum([w]) && OutSum([w]) == 0;
  }

  /** Every type gives away exactly what it may: the coinbase value. */
  lemma ValueConserved(job: Job, script: seq<byte>, i: nat, emptyOnly: bool, en: seq<byte>)
    requires job.Valid() && i < MAX_TYPES && |script| <= 100
    ensures OutSum(Intended(script, job.enprefix, PlanOf(job, |script|, i, emptyOnly), en).outs) == job.value
  {
    var plan := PlanOf(job, |script|, i, emptyOnly);
    if emptyOnly || i == 0 {
      assert plan.rest[1..] == [WitnessOut(job)] && [WitnessOut(job)][1..] == [];
      assert plan.first + plan.rest == plan.rest;
    } else {
      var paid := Payouts(job, Remaining(job, |script|, i));
      PayoutsFit(job, Remaining(job, |script|, i));
      RemainderSum(job, paid);
      assert plan.first + plan.rest == paid + [PoolOut(job, OutSum(paid)), WitnessOut(job)];
    }
    OutSumAround(plan.first, ExtranonceOut(job.enprefix, en), plan.rest);
  }

  lemma OutSumAround(a: seq<TxOut>, o: TxOut, b: seq<TxOut>)
    ensures OutSum(a + [o] + b) == OutSum(a) + o.value + OutSum(b)
    ensures OutSum(a + b) == OutSum(a) + OutSum(b)
  {
    OutSumConcat(a + [o], b);
    OutSumConcat(a, [o]);
    OutSumConcat(a, b);
    assert [o][1..] == [];
  }

  /** The subsidy-only coinbase pays the block subsidy. */
  lemma SubsidyConserved(job: Job, script: seq<byte>, en: seq<byte>)
    requires job.Valid() && |script| <= 100
    ensures IsSubsidy(OutSum(Intended(script, job.enprefix, SubsidyPlan(job, |script| <= 85), en).outs), job.height)
  {
    RewardIsSubsidy(job.height);
    var plan := SubsidyPlan(job, |script| <= 85);
    assert plan.rest[1..] == [];
    if !plan.inScript {
      OutSumAround([], ExtranonceOut(job.enprefix, en), plan.rest);
    }
  }
}
