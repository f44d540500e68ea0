/** How large a coinbase with payouts gets, against the size class it was made for and against the
    limits of the block template (datum_coinbaser.c, lines 313 to 340 and 686 to 726). */
module CoinbaseSize {
  import opened Bytes
  import opened Transactions
  import opened CoinbaseSelection
  import opened CoinbaseScript
  import opened CoinbaseBudget
  import opened CoinbaseSpec
  import opened CoinbaseBuilder
  import opened CoinbaseWriter
  import opened CoinbaseJob

  // ---------------------------------------------------------------- the exact size

  function Paid(job: Job, scriptLen: nat, i: nat): seq<TxOut> {
    Payouts(job, Remaining(job, scriptLen, i))
  }

  /** The complete coinbase of type i. */
  function Complete(job: Job, script: seq<byte>, i: nat, en: seq<byte>): seq<byte>
    requires job.enprefix < 0x1_0000 && |script| <= 100
  {
    var h := HalvesOf(job, script, PlanOf(job, |script|, i, false));
    h.coinb1 + en + h.coinb2
  }

  function CountWidth(job: Job, scriptLen: nat, i: nat): nat {
    |Varint(|Paid(job, scriptLen, i)| + if scriptLen <= 85 && i != 2 then 2 else 3)|
  }

  /** The bytes that the code does not charge for: two, and the output count; where every satoshi went to
      miners, it charges for a pool script and writes a filler of three bytes. */
  function Uncharged(job: Job, scriptLen: nat, i: nat): int {
    2 + CountWidth(job, scriptLen, i) + |job.commitment| - 38
    + if job.value > OutSum(Paid(job, scriptLen, i)) then 0 else 3 - |job.poolScript|
  }

  /** The size of a coinbase: what is charged for it, its payouts, and the bytes not charged. */
  lemma ExactSize(job: Job, script: seq<byte>, i: nat, en: seq<byte>)
    requires job.Valid() && |script| <= 100 && 1 <= i < MAX_TYPES && |en| == EXTRANONCE_SIZE
    ensures |Complete(job, script, i, en)|
         == RequiredSize(job, |script|, i) + CostSum(Paid(job, |script|, i)) + Uncharged(job, |script|, i)
  {
    FullSize(job, script, i);
  }

  /** A coinbase keeps to its size class exactly when the payouts leave room for the bytes not charged. */
  lemma SizeClassKeptIff(job: Job, script: seq<byte>, i: nat, en: seq<byte>)
    requires job.Valid() && |script| <= 100 && 1 <= i < MAX_TYPES && |en| == EXTRANONCE_SIZE
    ensures |Complete(job, script, i, en)| <= MaxSize(i)
       <==> CostSum(Paid(job, |script|, i)) <= MaxSize(i) - RequiredSize(job, |script|, i) - Uncharged(job, |script|, i)
  {
    ExactSize(job, script, i, en);
  }

  /** The halves of every type fit the buffers of the job, which hold 511 and 16383 bytes in hexadecimal. */
  lemma HalvesFitBuffers(job: Job, script: seq<byte>, emptyOnly: bool, i: nat)
    requires job.Valid() && |script| <= 100 && i < MAX_TYPES
    ensures var h := HalvesOf(job, script, PlanOf(job, |script|, i, emptyOnly));
            |h.coinb1| <= 511 && |h.coinb2| <= 16383
  {
    if emptyOnly || i == 0 {
      EmptyHalves(job, script);
    } else {
      FullSize(job, script, i);
      PayoutsFit(job, Remaining(job, |script|, i));
      FirstHalfSmall(job, script, i);
    }
  }

  lemma EmptyHalves(job: Job, script: seq<byte>)
    requires job.Valid() && |script| <= 100
    ensures var h := HalvesOf(job, script, EmptyPlan(job, |script| <= 85));
            |h.coinb1| <= 511 && |h.coinb2| <= 16383
  {
    var pool, w := TxOut(job.value, job.poolScript), WitnessOut(job);
    assert SerializeOuts([]) == [];
    TwoOuts(pool, w);
  }

  lemma FirstHalfSmall(job: Job, script: seq<byte>, i: nat)
    requires job.Valid() && |script| <= 100 && 1 <= i < MAX_TYPES
    ensures |HalvesOf(job, script, PlanOf(job, |script|, i, false)).coinb1| <= 511
  {
    if i == 2 {
      SplitFirstHalfFits(job, script);
    } else {
      PayoutsFit(job, Remaining(job, |script|, i));
      assert SerializeOuts([]) == [];
    }
  }

  lemma {:induction false} CostAtLeast(outs: seq<TxOut>)
    ensures CostSum(outs) >= 9 * |outs|
  {
    if outs != [] {
      CostAtLeast(outs[1..]);
    }
  }

  /** What is not charged: three or five bytes where the pool keeps a remainder and the witness commitment
      has its 38 bytes; five only in the types with room for 250 payouts. */
  lemma UnchargedBytes(job: Job, scriptLen: nat, i: nat)
    requires job.Valid() && scriptLen <= 100 && 1 <= i < MAX_TYPES
    requires |job.commitment| == 38 && job.value > OutSum(Paid(job, scriptLen, i))
    ensures Uncharged(job, scriptLen, i)
         == if |Paid(job, scriptLen, i)| + (if scriptLen <= 85 && i != 2 then 2 else 3) < 0xFD then 3 else 5
    ensures i != 3 && i != 4 ==> Uncharged(job, scriptLen, i) == 3
  {
    PayoutsFit(job, Remaining(job, scriptLen, i));
    CostAtLeast(Paid(job, scriptLen, i));
  }

  // ---------------------------------------------------------------- payouts that fill a class

  /** n outputs of the same value and script length. */
  function Equal(n: nat, value: nat, scriptLen: nat): (outs: seq<TxOut>)
    ensures |outs| == n
  {
    seq(n, _ => TxOut(value, seq(scriptLen, _ => 0)))
  }

  function From(k: nat, n: nat): (c: seq<nat>)
    requires k <= n
    ensures |c| == n - k && forall i :: 0 <= i < n - k ==> c[i] == k + i
    decreases n - k
  {
    if k == n then [] else [k] + From(k + 1, n)
  }

  lemma ChooseHere(outs: seq<TxOut>, k: nat, left: nat, paid: nat, total: nat)
    requires k < |outs| && paid + outs[k].value < total < TWO_64
    requires left >= 30 || (left == 0 && k + 1 == |outs|)
    ensures Choose(outs, k, left + Cost(outs[k]), paid, total)
         == [k] + Choose(outs, k + 1, left, paid + outs[k].value, total)
  {
    assert AddU64(paid, outs[k].value) == paid + outs[k].value;
  }

  /** Outputs of equal cost that together take the whole budget are all selected. */
  lemma {:induction false} ChooseAll(outs: seq<TxOut>, k: nat, cost: nat, value: nat, budget: nat, paid: nat, total: nat)
    requires k <= |outs| && cost >= 30 && total < TWO_64
    requires forall j :: 0 <= j < |outs| ==> Cost(outs[j]) == cost && outs[j].value == value
    requires budget == (|outs| - k) * cost && paid + (|outs| - k) * value < total
    ensures Choose(outs, k, budget, paid, total) == From(k, |outs|)
    decreases |outs| - k
  {
    if k < |outs| {
      var rest := |outs| - (k + 1);
      OneMore(rest, cost);
      OneMore(rest, value);
      TimesAtLeast(rest, cost);
      ChooseAll(outs, k + 1, cost, value, budget - cost, paid + value, total);
      ChooseHere(outs, k, budget - cost, paid, total);
    }
  }

  lemma OneMore(n: nat, x: nat)
    ensures (n + 1) * x == n * x + x && n * x >= 0
  {
  }

  lemma {:induction false} EqualSums(n: nat, value: nat, scriptLen: nat)
    ensures CostSum(Equal(n, value, scriptLen)) == n * (scriptLen + 9)
    ensures OutSum(Equal(n, value, scriptLen)) == n * value
  {
    var outs := Equal(n, value, scriptLen);
    if n > 0 {
      EqualSums(n - 1, value, scriptLen);
      assert outs[1..] == Equal(n - 1, value, scriptLen);
      OneMore(n - 1, scriptLen + 9);
      OneMore(n - 1, value);
    }
  }

  const POOL_VALUE: nat := 312_500_000

  /** A job of a pool with the tag "DATUM" at height 840000: a script of 19 bytes, a P2WPKH script for the
      pool, and n payouts of this value and script length. */
  function PoolJob(n: nat, value: nat, scriptLen: nat, t: Template): Job {
    Job(840_000, 1, POOL_VALUE, seq(22, _ => 0), Equal(n, value, scriptLen), seq(38, _ => 0), t,
        Tags(true, [], [68, 65, 84, 85, 77], [], 1, 1))
  }

  ghost predicate Payable(n: nat, value: nat, scriptLen: nat) {
    n <= 512 && 21 <= scriptLen <= 64 && n * value < POOL_VALUE
  }

  lemma PoolScript(job: Job)
    requires job.height == 840_000 && |job.tags.Primary()| == 5 && job.tags.secondary == [] && job.tags.active
    ensures |Digits(job.height)| < 255 && !TagsTooLong(|job.tags.Primary()|, |job.tags.secondary|)
    ensures |InputScript(job.height, job.tags)| == 19
  {
    assert Digits(12) == [12];
    assert Digits(3281) == [209] + Digits(12);
    assert Digits(840_000) == [64] + Digits(3281);
    assert UNum(840_000) == [3, 64, 209, 12];
  }

  lemma PoolJobValid(n: nat, value: nat, scriptLen: nat, t: Template)
    requires Payable(n, value, scriptLen) && value < POOL_VALUE && t.Valid()
    ensures PoolJob(n, value, scriptLen, t).Valid()
  {
  }

  /** Payouts that fill what remains of the class are all selected. */
  lemma PoolPays(n: nat, value: nat, scriptLen: nat, t: Template, i: nat)
    requires Payable(n, value, scriptLen) && 1 <= i < MAX_TYPES
    requires Remaining(PoolJob(n, value, scriptLen, t), 19, i) == n * (scriptLen + 9)
    ensures var paid := Paid(PoolJob(n, value, scriptLen, t), 19, i);
            |paid| == n && CostSum(paid) == n * (scriptLen + 9) && OutSum(paid) == n * value
  {
    var outs := Equal(n, value, scriptLen);
    ChooseAll(outs, 0, scriptLen + 9, value, n * (scriptLen + 9), 0, POOL_VALUE);
    assert Picked(outs, From(0, n)) == outs;
    EqualSums(n, value, scriptLen);
  }

  /** Then the coinbase exceeds by exactly the bytes not charged. */
  lemma PoolExceeds(n: nat, value: nat, scriptLen: nat, t: Template, i: nat, en: seq<byte>)
    requires Payable(n, value, scriptLen) && value < POOL_VALUE && t.Valid()
    requires 1 <= i < MAX_TYPES && i != 2 && |en| == EXTRANONCE_SIZE
    requires Remaining(PoolJob(n, value, scriptLen, t), 19, i) == n * (scriptLen + 9)
    ensures var job := PoolJob(n, value, scriptLen, t);
            && job.Valid() && |Digits(job.height)| < 255 && !TagsTooLong(|job.tags.Primary()|, |job.tags.secondary|)
            && var script := InputScript(job.height, job.tags);
            && |script| == 19 && |Paid(job, 19, i)| == n
            && |Complete(job, script, i, en)| == 160 + n * (scriptLen + 9) + if n + 2 < 0xFD then 3 else 5
  {
    var job := PoolJob(n, value, scriptLen, t);
    PoolJobValid(n, value, scriptLen, t);
    PoolScript(job);
    PoolPays(n, value, scriptLen, t, i);
    UnchargedBytes(job, 19, i);
    ExactSize(job, InputScript(job.height, job.tags), i, en);
  }

  /** What remains for payouts is decided by the class, or by the weight where that is tighter. */
  lemma FitValue(maxSz: int, fixedBytes: int, t: Template)
    requires t.Valid() && 0 <= fixedBytes <= maxSz < 0x10_0000
    requires t.txnWeight >= t.txnSize && t.weightLimit <= t.sizeLimit
    requires (t.weightLimit - t.txnWeight - 376) / 4 >= fixedBytes
    ensures var byWeight := (t.weightLimit - t.txnWeight - 376) / 4;
            FitToTemplate(maxSz, fixedBytes, t) == (if byWeight < maxSz then byWeight else maxSz) - fixedBytes
  {
    var i := fixedBytes + maxSz;
    WrapsAway(fixedBytes, t);
    SmallU32(i + t.txnSize + 85 + 36);
    SmallU32(i * 4 + t.txnWeight + 340 + 36);
  }

  const ROOMY: Template := Template(4_000_000, 4_000_000, 0, 0)

  /** Ten payouts to P2PKH scripts: a coinbase of type 1 has 503 bytes, three more than its class. */
  lemma {:induction false} NicehashTypeExceeds(en: seq<byte>)
    requires |en| == EXTRANONCE_SIZE
    ensures var job := PoolJob(10, 1000, 25, ROOMY);
            && job.Valid() && |Digits(job.height)| < 255 && !TagsTooLong(|job.tags.Primary()|, |job.tags.secondary|)
            && |InputScript(job.height, job.tags)| <= 100
            && |Complete(job, InputScript(job.height, job.tags), 1, en)| == MaxSize(1) + 3
  {
    FitValue(500, 160, ROOMY);
    PoolExceeds(10, 1000, 25, ROOMY, 1, en);
  }

  /** 495 payouts to P2SH scripts: one of type 4 has 16005 bytes, five more than its class. */
  lemma {:induction false} LargeTypeExceeds(en: seq<byte>)
    requires |en| == EXTRANONCE_SIZE
    ensures var job := PoolJob(495, 1000, 23, ROOMY);
            && job.Valid() && |Digits(job.height)| < 255 && !TagsTooLong(|job.tags.Primary()|, |job.tags.secondary|)
            && |InputScript(job.height, job.tags)| <= 100
            && |Complete(job, InputScript(job.height, job.tags), 4, en)| == MaxSize(4) + 5
  {
    FitValue(16000, 160, ROOMY);
    PoolExceeds(495, 1000, 23, ROOMY, 4, en);
  }

  // ---------------------------------------------------------------- the block

  /** The header, the number of transactions, the coinbase with its 36 bytes of witness data (BIP 141,
      "Commitment structure", and BIP 144), and the other transactions of the template. */
  function BlockSize(cb: nat, t: Template, others: nat): nat {
    80 + |Varint(others + 1)| + cb + 36 + t.txnSize
  }

  /** BIP 141, "Block size": what is not witness data counts four times. */
  function BlockWeight(cb: nat, t: Template, others: nat): nat {
    4 * (80 + |Varint(others + 1)| + cb) + 36 + t.txnWeight
  }

  predicate KeepsLimits(cb: nat, t: Template, others: nat) {
    BlockSize(cb, t, others) <= t.sizeLimit && BlockWeight(cb, t, others) <= t.weightLimit
  }

  /** The bytes by which a block is larger than what the code allows for. It allows five bytes for the
      number of transactions. */
  function Overrun(job: Job, scriptLen: nat, i: nat, others: nat): int {
    Uncharged(job, scriptLen, i) + |Varint(others + 1)| - 5
  }

  /** With a remainder for the pool the overrun is minus one where both the coinbase's outputs and the other
      transactions are few, three where both are many, else one. */
  lemma OverrunBytes(job: Job, scriptLen: nat, i: nat, others: nat)
    requires job.Valid() && scriptLen <= 100 && 1 <= i < MAX_TYPES && others < 0xFFFF
    requires |job.commitment| == 38 && job.value > OutSum(Paid(job, scriptLen, i))
    ensures var manyOutputs := |Paid(job, scriptLen, i)| + (if scriptLen <= 85 && i != 2 then 2 else 3) >= 0xFD;
            Overrun(job, scriptLen, i, others)
            == if manyOutputs && others >= 252 then 3 else if manyOutputs || others >= 252 then 1 else -1
  {
    UnchargedBytes(job, scriptLen, i);
  }

  /** A block with this coinbase keeps the template's limits exactly when payouts and overrun fit into the
      weight left over. */
  lemma BlockFitsIff(job: Job, script: seq<byte>, i: nat, en: seq<byte>, others: nat)
    requires job.Valid() && |script| <= 100 && 1 <= i < MAX_TYPES && |en| == EXTRANONCE_SIZE
    requires job.template.txnWeight >= job.template.txnSize && job.template.weightLimit <= job.template.sizeLimit
    ensures KeepsLimits(|Complete(job, script, i, en)|, job.template, others)
       <==> CostSum(Paid(job, |script|, i)) + Overrun(job, |script|, i, others)
            <= (job.template.weightLimit - job.template.txnWeight - 376) / 4 - RequiredSize(job, |script|, i)
  {
    ExactSize(job, script, i, en);
  }

  /** Where the fitting leaves any space for payouts, a block exceeds the limits by no more than its
      overrun, and keeps them where that is not positive. */
  lemma BlockNearLimits(job: Job, script: seq<byte>, i: nat, en: seq<byte>, others: nat)
    requires job.Valid() && |script| <= 100 && 1 <= i < MAX_TYPES && |en| == EXTRANONCE_SIZE
    requires job.template.txnWeight >= job.template.txnSize && job.template.weightLimit <= job.template.sizeLimit
    requires Remaining(job, |script|, i) > 0
    ensures var cb, t, over := |Complete(job, script, i, en)|, job.template, Overrun(job, |script|, i, others);
            && BlockSize(cb, t, others) <= t.sizeLimit + over
            && BlockWeight(cb, t, others) <= t.weightLimit + 4 * over
            && (over <= 0 ==> KeepsLimits(cb, t, others))
  {
    FitIsLargest(MaxSize(i), RequiredSize(job, |script|, i), job.template);
    PayoutsFit(job, Remaining(job, |script|, i));
    ExactSize(job, script, i, en);
  }

  const FULL_BLOCK: Template := Template(4_000_000, 4_000_000, 1_000_000, 3_990_824)

  /** A full template with a thousand transactions: the coinbase of type 4 with 60 P2PKH payouts takes the block
      to a weight of 4000004, four above the limit. */
  lemma {:induction false} BlockTooHeavy(en: seq<byte>)
    requires |en| == EXTRANONCE_SIZE
    ensures var job := PoolJob(60, 1000, 25, FULL_BLOCK);
            && job.Valid() && |Digits(job.height)| < 255 && !TagsTooLong(|job.tags.Primary()|, |job.tags.secondary|)
            && |InputScript(job.height, job.tags)| <= 100
            && BlockWeight(|Complete(job, InputScript(job.height, job.tags), 4, en)|, FULL_BLOCK, 1000)
               == FULL_BLOCK.weightLimit + 4
  {
    FitValue(16000, 160, FULL_BLOCK);
    PoolExceeds(60, 1000, 25, FULL_BLOCK, 4, en);
  }
}
