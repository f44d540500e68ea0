/** The code that selects payouts and writes the two halves (datum_coinbaser.c). */
module CoinbaseWriter {
  import opened Bytes
  import opened Transactions
  import opened Buffers
  import opened CoinbaseSelection
  import opened CoinbaseBudget
  import opened CoinbaseSpec
  import opened CoinbaseBuilder

  /** Value, script length, script. */
  method PutOut(buf: Buffer, o: TxOut)
    requires buf.Valid() && |o.script| <= 64 && buf.len + Cost(o) <= buf.data.Length
    modifies buf, buf.data
    ensures buf.Valid() && buf.Contents == old(buf.Contents) + SerializeOut(o)
  {
    ghost var before := buf.Contents;
    buf.PutLE(o.value, 8);
    buf.PutVarint(|o.script|);
    buf.PutAll(o.script);
    ConcatAssoc(before, LE(o.value, 8), Varint(|o.script|));
    ConcatAssoc(before, LE(o.value, 8) + Varint(|o.script|), o.script);
    ConcatAssoc(LE(o.value, 8), Varint(|o.script|), o.script);
  }

  // ---------------------------------------------------------------- the counting pass

  /** Taking or skipping output k, as the selection does. */
  lemma ChooseNext(outs: seq<TxOut>, k: nat, budget: int, paid: nat, total: nat)
    requires k < |outs|
    ensures var c := Choose(outs, k, budget, paid, total);
            if Fits(outs[k], budget, paid, total) then
              var left, sum := budget - Cost(outs[k]), AddU64(paid, outs[k].value);
              && c != [] && c[0] == k
              && c[1..] == if left < 30 || sum >= total then [] else Choose(outs, k + 1, left, sum, total)
            else c == Choose(outs, k + 1, budget, paid, total)
  {
  }

  /** Payouts paid are the outputs with the indices all. */
  ghost predicate Pays(outs: seq<TxOut>, all: seq<nat>, paid: seq<TxOut>) {
    |paid| == |all| && forall i :: 0 <= i < |all| ==> all[i] < |outs| && paid[i] == outs[all[i]]
  }

  /** The counters before index k, with m outputs counted of the selection all. */
  ghost predicate Counting(outs: seq<TxOut>, total: nat, all: seq<nat>, m: nat, k: nat, i: int, mval: nat) {
    k <= |outs| && m <= |all| && all[m..] == Choose(outs, k, i, mval, total)
  }

  lemma CountStep(outs: seq<TxOut>, total: nat, all: seq<nat>, paid: seq<TxOut>, m: nat, k: nat, i: int, mval: nat)
    requires Pays(outs, all, paid) && Counting(outs, total, all, m, k, i, mval) && k < |outs|
    ensures if Fits(outs[k], i, mval, total) then
              var left, sum := i - Cost(outs[k]), AddU64(mval, outs[k].value);
              && m < |all| && paid[m] == outs[k]
              && if left < 30 || sum >= total then m + 1 == |all|
                 else Counting(outs, total, all, m + 1, k + 1, left, sum)
            else Counting(outs, total, all, m, k + 1, i, mval)
  {
    ChooseNext(outs, k, i, mval, total);
    if Fits(outs[k], i, mval, total) {
      assert all[m..][0] == all[m] && all[m..][1..] == all[m + 1..];
    }
  }

  /** The split counter: with what the rest will add it comes to lead, unless the first half was full. */
  ghost predicate Leading(paid: seq<TxOut>, lead: nat, split: bool, m: nat, i2: int, c1cnt: nat, full: bool)
    requires m <= |paid|
  {
    if split then c1cnt + (if full then 0 else LeadCount(paid[m..], i2)) == lead else c1cnt == 0
  }

  lemma LeadStep(paid: seq<TxOut>, lead: nat, split: bool, m: nat, i2: int, c1cnt: nat, full: bool)
    requires m < |paid| && Leading(paid, lead, split, m, i2, c1cnt, full)
    ensures var cost := Cost(paid[m]);
            if split && !full && cost <= i2 then Leading(paid, lead, split, m + 1, i2 - cost, c1cnt + 1, full)
            else Leading(paid, lead, split, m + 1, i2, c1cnt, true)
  {
    assert paid[m..][1..] == paid[m + 1..];
  }

  /** Lines 191 to 221: how many outputs fit, and how many of them may go in the first half. */
  method CountPass(job: Job, remaining: int, split: bool, room: nat) returns (m: nat, c1cnt: nat)
    ensures m == |Selected(job, remaining)|
    ensures c1cnt == if split then LeadCount(Payouts(job, remaining), room) else 0
  {
    var outs := job.outputs;
    ghost var all, paid := Selected(job, remaining), Payouts(job, remaining);
    m, c1cnt := CountLoop(outs, job.value, remaining, split, room, all, paid);
  }

  method CountLoop(outs: seq<TxOut>, total: nat, remaining: int, split: bool, room: nat,
                   ghost all: seq<nat>, ghost paid: seq<TxOut>)
    returns (m: nat, c1cnt: nat)
    requires Pays(outs, all, paid) && all == Choose(outs, 0, remaining, 0, total)
    ensures m == |all| && c1cnt == if split then LeadCount(paid, room) else 0
  {
    ghost var lead := LeadCount(paid, room);
    assert all[0..] == all && paid[0..] == paid;
    var i, i2: int, c1full := remaining, room, false;
    var mval: nat, k: nat := 0, 0;
    m, c1cnt := 0, 0;
    while k < |outs|
      invariant Counting(outs, total, all, m, k, i, mval)
      invariant Leading(paid, lead, split, m, i2, c1cnt, c1full)
    {
      CountStep(outs, total, all, paid, m, k, i, mval);
      if Cost(outs[k]) <= i && AddU64(mval, outs[k].value) <= total {
        LeadStep(paid, lead, split, m, i2, c1cnt, c1full);
        if split && !c1full && Cost(outs[k]) <= i2 {
          i2 := i2 - Cost(outs[k]);
          c1cnt := c1cnt + 1;
        } else {
          c1full := true;
        }
        i := i - Cost(outs[k]);
        m := m + 1;
        mval := AddU64(mval, outs[k].value);
        if i < 30 || mval >= total {
          break;
        }
      }
      k := k + 1;
    }
    assert m == |all| && paid[m..] == [];
  }

  // ---------------------------------------------------------------- the writing pass

  lemma NextBytes(outs: seq<TxOut>, n: nat)
    requires n < |outs|
    ensures SerializeOuts(outs[..n + 1]) == SerializeOuts(outs[..n]) + SerializeOut(outs[n])
  {
    EncodeAllSlice(SerializeOut, outs, 0, n);
  }

  lemma NextSums(outs: seq<TxOut>, n: nat)
    requires n < |outs|
    ensures CostSum(outs[..n + 1]) == CostSum(outs[..n]) + Cost(outs[n])
    ensures OutSum(outs[..n + 1]) == OutSum(outs[..n]) + outs[n].value
  {
    assert outs[..n + 1] == outs[..n] + [outs[n]];
    CostSumConcat(outs[..n], [outs[n]]);
    OutSumConcat(outs[..n], [outs[n]]);
    assert [outs[n]][1..] == [];
    assert CostSum([outs[n]]) == Cost(outs[n]) && OutSum([outs[n]]) == outs[n].value;
  }

  lemma {:induction false} CostPrefix(outs: seq<TxOut>, m: nat, n: nat)
    requires m <= n <= |outs|
    ensures CostSum(outs[..m]) <= CostSum(outs[..n])
    decreases n - m
  {
    if m < n {
      NextSums(outs, m);
      CostPrefix(outs, m + 1, n);
    }
  }

  /** The place of the extranonce output in the first half. */
  method PutExtranonceHead(buf: Buffer, enprefix: nat)
    requires buf.Valid() && enprefix < 0x1_0000 && buf.len + 13 <= buf.data.Length
    modifies buf, buf.data
    ensures buf.Valid() && buf.Contents == old(buf.Contents) + ExtranonceHead(enprefix)
  {
    ghost var before := buf.Contents;
    buf.PutLE(0, 8);
    buf.PutAll([0x10, 0x6a, 0x0e]);
    buf.PutAll(Prefix(enprefix));
    ConcatAssoc(before, LE(0, 8), [0x10, 0x6a, 0x0e]);
    ConcatAssoc(before, LE(0, 8) + [0x10, 0x6a, 0x0e], Prefix(enprefix));
  }

  /** After n of the payouts, the first half has those of the first p, then tail. */
  ghost predicate FirstWritten(written: seq<byte>, before: seq<byte>, paid: seq<TxOut>, n: nat, p: nat, tail: seq<byte>)
    requires n <= |paid| && p <= |paid|
  {
    written == before + SerializeOuts(paid[..if n < p then n else p]) + tail
  }

  /** After n of the payouts, the second half has those from p on. */
  ghost predicate SecondWritten(written: seq<byte>, before: seq<byte>, paid: seq<TxOut>, n: nat, p: nat)
    requires n <= |paid| && p <= |paid|
  {
    written == before + SerializeOuts(paid[p..if n < p then p else n])
  }

  ghost predicate SmallOuts(outs: seq<TxOut>) {
    forall i :: 0 <= i < |outs| ==> ValidOut(outs[i]) && |outs[i].script| <= 64
  }

  method PutFirst(c1: Buffer, o: TxOut, ghost before: seq<byte>, ghost paid: seq<TxOut>, ghost n: nat, ghost p: nat)
    requires c1.Valid() && n < p <= |paid| && paid[n] == o && SmallOuts(paid)
    requires FirstWritten(c1.Contents, before, paid, n, p, [])
    requires |before| + CostSum(paid[..p]) <= c1.data.Length
    modifies c1, c1.data
    ensures c1.Valid() && FirstWritten(c1.Contents, before, paid, n + 1, p, [])
  {
    CostIsSize(paid[..n]);
    NextBytes(paid, n);
    NextSums(paid, n);
    CostPrefix(paid, n + 1, p);
    ConcatAssoc(before, SerializeOuts(paid[..n]), SerializeOut(o));
    ghost var head := before + SerializeOuts(paid[..n]);
    assert head + [] == head;
    PutOut(c1, o);
    ghost var head' := before + SerializeOuts(paid[..n + 1]);
    assert head' + [] == head';
  }

  method PutSecond(c2: Buffer, o: TxOut, ghost before: seq<byte>, ghost paid: seq<TxOut>, ghost n: nat, ghost p: nat)
    requires c2.Valid() && p <= n < |paid| && paid[n] == o && SmallOuts(paid)
    requires SecondWritten(c2.Contents, before, paid, n, p)
    requires |before| + CostSum(paid) <= c2.data.Length
    modifies c2, c2.data
    ensures c2.Valid() && SecondWritten(c2.Contents, before, paid, n + 1, p)
  {
    SecondNext(before, paid, n, p);
    SecondRoom(paid, n, p);
    PutOut(c2, o);
  }

  lemma SecondNext(before: seq<byte>, paid: seq<TxOut>, n: nat, p: nat)
    requires p <= n < |paid| && SmallOuts(paid)
    ensures (before + SerializeOuts(paid[p..n])) + SerializeOut(paid[n]) == before + SerializeOuts(paid[p..n + 1])
  {
    EncodeAllSlice(SerializeOut, paid, p, n);
    ConcatAssoc(before, SerializeOuts(paid[p..n]), SerializeOut(paid[n]));
  }

  lemma MiddleNext(paid: seq<TxOut>, p: nat, n: nat)
    requires p <= n < |paid|
    ensures CostSum(paid[p..n + 1]) == CostSum(paid[p..n]) + Cost(paid[n])
  {
    assert paid[p..n + 1] == paid[p..n] + [paid[n]];
    CostSumConcat(paid[p..n], [paid[n]]);
    assert [paid[n]][1..] == [];
  }

  lemma SecondRoom(paid: seq<TxOut>, n: nat, p: nat)
    requires p <= n < |paid| && SmallOuts(paid)
    ensures |SerializeOuts(paid[p..n])| + Cost(paid[n]) <= CostSum(paid)
  {
    CostIsSize(paid[p..n]);
    MiddleNext(paid, p, n);
    MiddleCost(paid, p, n + 1);
  }

  lemma MiddleCost(paid: seq<TxOut>, p: nat, n: nat)
    requires p <= n <= |paid|
    ensures CostSum(paid[p..n]) <= CostSum(paid)
  {
    assert paid == paid[..n] + paid[n..] && paid[..n] == paid[..p] + paid[p..n];
    CostSumConcat(paid[..n], paid[n..]);
    CostSumConcat(paid[..p], paid[p..n]);
  }

  /** Both halves after n of the payouts. */
  ghost predicate Written(w1: seq<byte>, w2: seq<byte>, b1: seq<byte>, b2: seq<byte>, paid: seq<TxOut>,
                          n: nat, p: nat, tail: seq<byte>) {
    n <= |paid| && p <= |paid| && FirstWritten(w1, b1, paid, n, p, tail) && SecondWritten(w2, b2, paid, n, p)
  }

  /** Write payout n, which has index k in the job's list. */
  method WriteOne(o: TxOut, enprefix: nat, c1: Buffer, c2: Buffer, k: nat, split: bool, c1cnt: nat, wasDone: bool,
                  ghost b1: seq<byte>, ghost b2: seq<byte>, ghost paid: seq<TxOut>, ghost n: nat, ghost p: nat)
    returns (enDone: bool)
    requires enprefix < 0x1_0000 && c1.Valid() && c2.Valid() && c1 != c2 && c1.data != c2.data
    requires n < |paid| && p <= |paid| && paid[n] == o && SmallOuts(paid)
    requires (split && k < c1cnt <==> n < p) && (split && k == c1cnt ==> n == p)
    requires |b1| + CostSum(paid[..p]) + 13 <= c1.data.Length && |b2| + CostSum(paid) <= c2.data.Length
    requires wasDone ==> split && p < n
    requires Written(c1.Contents, c2.Contents, b1, b2, paid, n, p, if wasDone then ExtranonceHead(enprefix) else [])
    modifies c1, c1.data, c2, c2.data
    ensures c1.Valid() && c2.Valid() && (enDone ==> split && p < n + 1)
    ensures Written(c1.Contents, c2.Contents, b1, b2, paid, n + 1, p, if enDone then ExtranonceHead(enprefix) else [])
  {
    enDone := wasDone;
    if split && k < c1cnt {
      PutFirst(c1, o, b1, paid, n, p);
    } else {
      if split && k == c1cnt {
        CostIsSize(paid[..p]);
        ghost var head := b1 + SerializeOuts(paid[..p]);
        assert head + [] == head;
        PutExtranonceHead(c1, enprefix);
        enDone := true;
      }
      PutSecond(c2, o, b2, paid, n, p);
    }
  }

  /** The selection all of the outputs, the payouts it selects, and how they split at c1cnt. */
  ghost predicate IsSelection(outs: seq<TxOut>, total: nat, all: seq<nat>, paid: seq<TxOut>, c1cnt: nat, p: nat) {
    && Increasing(all, 0, |outs|) && p <= |all|
    && Pays(outs, all, paid)
    && (forall i :: 0 <= i < p ==> all[i] < c1cnt) && (forall i :: p <= i < |all| ==> c1cnt <= all[i])
    && SmallOuts(paid) && NoWrap(outs, total) && total < TWO_64
  }

  /** The counters after n of the payouts, before index k. */
  ghost predicate Counted(outs: seq<TxOut>, total: nat, all: seq<nat>, paid: seq<TxOut>, n: nat, k: nat, j: int, mval: nat) {
    && k <= |outs| && n <= |all| && |paid| == |all|
    && all[n..] == Choose(outs, k, j, mval, total)
    && mval == OutSum(paid[..n]) && mval <= total
  }

  /** The step of the selection at index k: the counters afterwards, and whether it is the last one. */
  lemma CountNext(outs: seq<TxOut>, total: nat, all: seq<nat>, paid: seq<TxOut>, c1cnt: nat, p: nat,
                  n: nat, k: nat, j: int, mval: nat)
    requires IsSelection(outs, total, all, paid, c1cnt, p)
    requires Counted(outs, total, all, paid, n, k, j, mval) && k < |outs|
    ensures if Fits(outs[k], j, mval, total) then
              var left, sum := j - Cost(outs[k]), AddU64(mval, outs[k].value);
              && n < |all| && all[n] == k && paid[n] == outs[k]
              && (k < c1cnt <==> n < p) && (k == c1cnt ==> n == p)
              && sum == OutSum(paid[..n + 1])
              && if left < 30 || sum >= total then n + 1 == |all|
                 else Counted(outs, total, all, paid, n + 1, k + 1, left, sum)
            else Counted(outs, total, all, paid, n, k + 1, j, mval)
  {
    ChooseNext(outs, k, j, mval, total);
    if Fits(outs[k], j, mval, total) {
      assert all[n..][0] == all[n] && all[n..][1..] == all[n + 1..];
      SumNext(outs, paid, n, k, total);
      OnlyOnce(all, |outs|, c1cnt, n, p);
    }
  }

  /** Write the output at index k, which the selection takes as payout n. */
  method WriteTaken(outs: seq<TxOut>, total: nat, enprefix: nat, c1: Buffer, c2: Buffer, split: bool, c1cnt: nat,
                    wasDone: bool, k: nat, j: int, mval: nat, ghost all: seq<nat>, ghost paid: seq<TxOut>, ghost p: nat,
                    ghost b1: seq<byte>, ghost b2: seq<byte>, ghost n: nat)
    returns (enDone: bool)
    requires enprefix < 0x1_0000 && c1.Valid() && c2.Valid() && c1 != c2 && c1.data != c2.data
    requires IsSelection(outs, total, all, paid, c1cnt, p) && Counted(outs, total, all, paid, n, k, j, mval)
    requires k < |outs| && Fits(outs[k], j, mval, total) && (!split ==> c1cnt == 0)
    requires |b1| + CostSum(paid[..p]) + 13 <= c1.data.Length && |b2| + CostSum(paid) <= c2.data.Length
    requires wasDone ==> split && p < n
    requires Written(c1.Contents, c2.Contents, b1, b2, paid, n, p, if wasDone then ExtranonceHead(enprefix) else [])
    modifies c1, c1.data, c2, c2.data
    ensures c1.Valid() && c2.Valid() && n < |all| && (enDone ==> split && p < n + 1)
    ensures Written(c1.Contents, c2.Contents, b1, b2, paid, n + 1, p, if enDone then ExtranonceHead(enprefix) else [])
    ensures var left, sum := j - Cost(outs[k]), AddU64(mval, outs[k].value);
            && sum == OutSum(paid[..n + 1])
            && if left < 30 || sum >= total then n + 1 == |all|
               else Counted(outs, total, all, paid, n + 1, k + 1, left, sum)
  {
    CountNext(outs, total, all, paid, c1cnt, p, n, k, j, mval);
    enDone := WriteOne(outs[k], enprefix, c1, c2, k, split, c1cnt, wasDone, b1, b2, paid, n, p);
  }

  /** The writing loop, for the selection all with payouts paid. */
  method WriteLoop(outs: seq<TxOut>, total: nat, enprefix: nat, c1: Buffer, c2: Buffer, remaining: int, split: bool,
                   c1cnt: nat, given: nat, ghost all: seq<nat>, ghost paid: seq<TxOut>, ghost p: nat)
    returns (mval: nat, enDone: bool)
    requires enprefix < 0x1_0000 && c1.Valid() && c2.Valid() && c1 != c2 && c1.data != c2.data
    requires IsSelection(outs, total, all, paid, c1cnt, p) && Counted(outs, total, all, paid, 0, 0, remaining, 0)
    requires given > |paid| && (!split ==> c1cnt == 0)
    requires c1.len + CostSum(paid[..p]) + 13 <= c1.data.Length && c2.len + CostSum(paid) <= c2.data.Length
    modifies c1, c1.data, c2, c2.data
    ensures c1.Valid() && c2.Valid() && mval == OutSum(paid[..|paid|])
    ensures Written(c1.Contents, c2.Contents, old(c1.Contents), old(c2.Contents), paid, |paid|, p,
                    if enDone then ExtranonceHead(enprefix) else [])
    ensures !split ==> !enDone
  {
    ghost var n, b1, b2 := 0, c1.Contents, c2.Contents;
    StartWritten(c1.Contents, c2.Contents, paid, p);
    var j, m: int, k: nat := remaining, given, 0;
    mval, enDone := 0, false;
    while k < |outs|
      invariant Counted(outs, total, all, paid, n, k, j, mval)
      invariant c1.Valid() && c2.Valid() && m == given - n
      invariant enDone ==> split && p < n
      invariant Written(c1.Contents, c2.Contents, b1, b2, paid, n, p, if enDone then ExtranonceHead(enprefix) else [])
    {
      var o := outs[k];
      if Cost(o) <= j && AddU64(mval, o.value) <= total {
        enDone := WriteTaken(outs, total, enprefix, c1, c2, split, c1cnt, enDone, k, j, mval, all, paid, p, b1, b2, n);
        j := j - Cost(o);
        m := m - 1;
        mval := AddU64(mval, o.value);
        n := n + 1;
        if m == 0 || j < 30 || mval >= total {
          break;
        }
      } else {
        CountNext(outs, total, all, paid, c1cnt, p, n, k, j, mval);
      }
      k := k + 1;
    }
    assert n == |all|;
  }

  lemma SumNext(outs: seq<TxOut>, paid: seq<TxOut>, n: nat, k: nat, total: nat)
    requires n < |paid| && k < |outs| && paid[n] == outs[k] && NoWrap(outs, total) && OutSum(paid[..n]) <= total
    ensures AddU64(OutSum(paid[..n]), outs[k].value) == OutSum(paid[..n + 1])
  {
    NextSums(paid, n);
    assert outs[k].value + total < TWO_64;
  }

  /** Lines 242 to 277. The selected payouts with an index below c1cnt go to the first half, the others
      to the second; in the split variant the extranonce output follows the former, if a selected
      payout has exactly the index c1cnt. */
  method WritePass(job: Job, c1: Buffer, c2: Buffer, remaining: int, split: bool, c1cnt: nat, given: nat)
    returns (mval: nat, enDone: bool)
    requires job.Valid() && c1.Valid() && c2.Valid() && c1 != c2 && c1.data != c2.data
    requires given > |Payouts(job, remaining)|
    requires !split ==> c1cnt == 0
    requires c1.len + CostSum(Payouts(job, remaining)[..SplitPoint(Selected(job, remaining), c1cnt)]) + 13 <= c1.data.Length
    requires c2.len + CostSum(Payouts(job, remaining)) <= c2.data.Length
    modifies c1, c1.data, c2, c2.data
    ensures c1.Valid() && c2.Valid()
    ensures var paid, p := Payouts(job, remaining), SplitPoint(Selected(job, remaining), c1cnt);
            && mval == OutSum(paid)
            && Written(c1.Contents, c2.Contents, old(c1.Contents), old(c2.Contents), paid, |paid|, p,
                       if enDone then ExtranonceHead(job.enprefix) else [])
    ensures !split ==> !enDone
  {
    ghost var all, paid := Selected(job, remaining), Payouts(job, remaining);
    ghost var p := SplitPoint(all, c1cnt);
    SplitPointSeparates(all, c1cnt, 0, |job.outputs|);
    PayoutsFit(job, remaining);
    mval, enDone := WriteLoop(job.outputs, job.value, job.enprefix, c1, c2, remaining, split, c1cnt, given, all, paid, p);
    assert paid[..|paid|] == paid;
  }

  lemma StartWritten(c1: seq<byte>, c2: seq<byte>, paid: seq<TxOut>, p: nat)
    requires p <= |paid|
    ensures FirstWritten(c1, c1, paid, 0, p, []) && SecondWritten(c2, c2, paid, 0, p)
  {
    assert paid[..0] == [] && paid[p..p] == [];
    assert c1 + [] + [] == c1 && c2 + [] == c2;
  }

  /** The payout with index c1cnt is the first one that goes to the second half. */
  lemma OnlyOnce(all: seq<nat>, bound: nat, c1cnt: nat, n: nat, p: nat)
    requires Increasing(all, 0, bound)
    requires n < |all| && p <= |all|
    requires (forall i :: 0 <= i < p ==> all[i] < c1cnt) && (forall i :: p <= i < |all| ==> c1cnt <= all[i])
    ensures (all[n] < c1cnt <==> n < p) && (all[n] == c1cnt ==> n == p)
  {
    assert n >= p ==> all[p] <= all[n];
  }

  // ---------------------------------------------------------------- finishing the halves

  /** Lines 289 to 310: the pool's output or the filler, the witness commitment, the lock time. */
  method PutEnding(c2: Buffer, job: Job, mval: nat)
    requires job.Valid() && c2.Valid() && c2.len + 133 <= c2.data.Length
    modifies c2, c2.data
    ensures c2.Valid()
    ensures c2.Contents == old(c2.Contents) + SerializeOuts([PoolOut(job, mval), WitnessOut(job)]) + LE(0, 4)
  {
    ghost var before, pool, w := c2.Contents, PoolOut(job, mval), WitnessOut(job);
    if job.value > mval {
      PutOut(c2, TxOut(job.value - mval, job.poolScript));
    } else {
      PutOut(c2, TxOut(0, [0x6a, 0x01, 0x00]));
    }
    PutOut(c2, WitnessOut(job));
    ConcatAssoc(before, SerializeOut(pool), SerializeOut(w));
    TwoOuts(pool, w);
    c2.PutLE(0, 4);
  }

  lemma TwoOuts(a: TxOut, b: TxOut)
    ensures SerializeOuts([a, b]) == SerializeOut(a) + SerializeOut(b)
  {
    assert [a, b] == [a] + [b];
    EncodeAllConcat(SerializeOut, [a], [b]);
    EncodeAllOne(SerializeOut, a);
    EncodeAllOne(SerializeOut, b);
  }

  /** The second half is complete once the ending follows the payouts. */
  lemma SecondComplete(start: seq<byte>, rest: seq<TxOut>, last: seq<TxOut>, lock: seq<byte>)
    ensures start + SerializeOuts(rest) + SerializeOuts(last) + lock == start + SerializeOuts(rest + last) + lock
  {
    EncodeAllConcat(SerializeOut, rest, last);
    ConcatAssoc(start, EncodeAll(SerializeOut, rest), EncodeAll(SerializeOut, last));
  }

  function AfterOpening(count: nat, enprefix: nat, inScript: bool, split: bool): seq<byte>
    requires enprefix < 0x1_0000
  {
    if inScript then [] else Varint(count) + if split then [] else ExtranonceHead(enprefix)
  }

  function AfterPayouts(enprefix: nat, split: bool): seq<byte>
    requires enprefix < 0x1_0000
  {
    if split then ExtranonceHead(enprefix) else []
  }

  function SecondStart(count: nat, inScript: bool): seq<byte> {
    if inScript then LE(FINAL_SEQUENCE, 4) + Varint(count) else []
  }

  /** Lines 224 to 239: the output count, after the sequence number or at the end of the first half,
      where the extranonce output follows at once unless payouts come first. */
  method PutCount(job: Job, c1: Buffer, c2: Buffer, count: nat, inScript: bool, split: bool)
    requires job.Valid() && c1.Valid() && c2.Valid() && c1 != c2 && c1.data != c2.data
    requires count < 0x1_0000 && (split ==> !inScript)
    requires c1.len + 16 <= c1.data.Length && c2.len + 7 <= c2.data.Length
    modifies c1, c1.data, c2, c2.data
    ensures c1.Valid() && c2.Valid()
    ensures c1.Contents == old(c1.Contents) + AfterOpening(count, job.enprefix, inScript, split)
    ensures c2.Contents == old(c2.Contents) + SecondStart(count, inScript)
  {
    ghost var b1, b2 := c1.Contents, c2.Contents;
    if inScript {
      c2.PutLE(FINAL_SEQUENCE, 4);
      c2.PutVarint(count);
      ConcatAssoc(b2, LE(FINAL_SEQUENCE, 4), Varint(count));
    } else {
      c1.PutVarint(count);
      if !split {
        PutExtranonceHead(c1, job.enprefix);
        ConcatAssoc(b1, Varint(count), ExtranonceHead(job.enprefix));
      }
    }
  }

  /** Lines 241 to 287: the payouts, and the extranonce output where the loop did not write it. */
  method PutPayouts(job: Job, c1: Buffer, c2: Buffer, remaining: int, split: bool, c1cnt: nat, m: nat, ghost p: nat)
    returns (mval: nat)
    requires job.Valid() && c1.Valid() && c2.Valid() && c1 != c2 && c1.data != c2.data
    requires m > |Payouts(job, remaining)| && p == SplitPoint(Selected(job, remaining), c1cnt)
    requires p <= |Payouts(job, remaining)| && (!split ==> c1cnt == 0 && p == 0)
    requires c1.len + CostSum(Payouts(job, remaining)[..p]) + 13 <= c1.data.Length
    requires c2.len + CostSum(Payouts(job, remaining)) <= c2.data.Length
    modifies c1, c1.data, c2, c2.data
    ensures c1.Valid() && c2.Valid() && mval == OutSum(Payouts(job, remaining))
    ensures c1.Contents == old(c1.Contents) + SerializeOuts(Payouts(job, remaining)[..p])
                           + AfterPayouts(job.enprefix, split)
    ensures c2.Contents == old(c2.Contents) + SerializeOuts(Payouts(job, remaining)[p..])
    ensures c2.len <= old(c2.len) + CostSum(Payouts(job, remaining))
  {
    ghost var b1, paid := c1.Contents, Payouts(job, remaining);
    var enDone: bool;
    mval, enDone := WritePass(job, c1, c2, remaining, split, c1cnt, m);
    assert paid[p..|paid|] == paid[p..];
    PayoutsFit(job, remaining);
    CostIsSize(paid[p..]);
    CostIsSize(paid[..p]);
    MiddleCost(paid, p, |paid|);
    if split && !enDone {
      ghost var head := b1 + SerializeOuts(paid[..p]);
      assert head + [] == head;
      PutExtranonceHead(c1, job.enprefix);
    }
  }

  /** Lines 223 to 287. */
  method PutBody(job: Job, c1: Buffer, c2: Buffer, remaining: int, inScript: bool, split: bool, c1cnt: nat, m: nat,
                 ghost p: nat)
    returns (mval: nat)
    requires job.Valid() && c1.Valid() && c2.Valid() && c1 != c2 && c1.data != c2.data
    requires |Payouts(job, remaining)| < m < 0x1_0000 && p == SplitPoint(Selected(job, remaining), c1cnt)
    requires p <= |Payouts(job, remaining)| && (!split ==> c1cnt == 0 && p == 0) && (split ==> !inScript)
    requires c1.len + 29 + CostSum(Payouts(job, remaining)[..p]) <= c1.data.Length
    requires c2.Contents == [] && 7 + CostSum(Payouts(job, remaining)) <= c2.data.Length
    modifies c1, c1.data, c2, c2.data
    ensures c1.Valid() && c2.Valid() && mval == OutSum(Payouts(job, remaining))
    ensures c1.Contents == old(c1.Contents)
                           + AfterOpening(m, job.enprefix, inScript, split)
                           + SerializeOuts(Payouts(job, remaining)[..p]) + AfterPayouts(job.enprefix, split)
    ensures c2.Contents == SecondStart(m, inScript) + SerializeOuts(Payouts(job, remaining)[p..])
    ensures c2.len <= 7 + CostSum(Payouts(job, remaining))
  {
    PutCount(job, c1, c2, m, inScript, split);
    assert c2.Contents == SecondStart(m, inScript);
    mval := PutPayouts(job, c1, c2, remaining, split, c1cnt, m, p);
  }

  /** Lines 223 to 310. */
  method PutOutputs(job: Job, c1: Buffer, c2: Buffer, remaining: int, inScript: bool, split: bool, c1cnt: nat, m: nat,
                    ghost p: nat)
    requires job.Valid() && c1.Valid() && c2.Valid() && c1 != c2 && c1.data != c2.data
    requires |Payouts(job, remaining)| < m < 0x1_0000 && p == SplitPoint(Selected(job, remaining), c1cnt)
    requires p <= |Payouts(job, remaining)| && (!split ==> c1cnt == 0 && p == 0) && (split ==> !inScript)
    requires c1.len + 29 + CostSum(Payouts(job, remaining)[..p]) <= c1.data.Length
    requires c2.Contents == [] && CostSum(Payouts(job, remaining)) + 140 <= c2.data.Length
    modifies c1, c1.data, c2, c2.data
    ensures c1.Valid() && c2.Valid()
    ensures c1.Contents == old(c1.Contents)
                           + AfterOpening(m, job.enprefix, inScript, split)
                           + SerializeOuts(Payouts(job, remaining)[..p]) + AfterPayouts(job.enprefix, split)
    ensures var paid := Payouts(job, remaining);
            c2.Contents == SecondStart(m, inScript)
                           + SerializeOuts(paid[p..] + [PoolOut(job, OutSum(paid)), WitnessOut(job)]) + LE(0, 4)
  {
    var mval := PutBody(job, c1, c2, remaining, inScript, split, c1cnt, m, p);
    PutEndingAfter(job, c2, mval, SecondStart(m, inScript), Payouts(job, remaining)[p..]);
  }

  /** The second half is complete once the ending follows the payouts. */
  method PutEndingAfter(job: Job, c2: Buffer, mval: nat, ghost start: seq<byte>, ghost rest: seq<TxOut>)
    requires job.Valid() && c2.Valid() && c2.len + 133 <= c2.data.Length
    requires c2.Contents == start + SerializeOuts(rest)
    modifies c2, c2.data
    ensures c2.Valid()
    ensures c2.Contents == start + SerializeOuts(rest + [PoolOut(job, mval), WitnessOut(job)]) + LE(0, 4)
  {
    PutEnding(c2, job, mval);
    SecondComplete(start, rest, [PoolOut(job, mval), WitnessOut(job)], LE(0, 4));
  }

  /** generate_coinbase_txns_for_stratum_job_subtypebysize: complete the halves of one type. */
  method FinishCoinbase(job: Job, script: seq<byte>, c1: Buffer, c2: Buffer, remaining: int, space: bool, split: bool)
    requires job.Valid() && |script| <= 100 && remaining <= 16000
    requires c1.Valid() && c2.Valid() && c1 != c2 && c1.data != c2.data
    requires c1.data.Length >= COINB1_BYTES && c2.data.Length >= COINB2_BYTES
    requires c1.Contents == Opening(script, job.enprefix, space && !split) && c2.Contents == []
    modifies c1, c1.data, c2, c2.data
    ensures c1.Valid() && c2.Valid()
    ensures var plan := FullPlan(job, |script|, remaining, space, split);
            && c1.Contents == Coinb1(script, job.enprefix, plan) && c2.Contents == Coinb2(plan)
  {
    var room := FirstHalfRoom(c1.len);
    var m, c1cnt := CountPass(job, remaining, split, room);
    ghost var p := SplitPoint(Selected(job, remaining), c1cnt);
    PayoutsFit(job, remaining);
    FirstFits(job, remaining, room, split, c1cnt);
    m := m + if space && !split then 2 else 3;
    PutOutputs(job, c1, c2, remaining, space && !split, split, c1cnt, m, p);
    FirstMatches(job, script, remaining, space, split, p, c1.Contents);
    SecondMatches(job, |script|, remaining, space, split, p, c2.Contents);
  }

  lemma FirstMatches(job: Job, script: seq<byte>, remaining: int, space: bool, split: bool, p: nat, written: seq<byte>)
    requires job.Valid() && |script| <= 100 && p <= |Payouts(job, remaining)|
    requires p == if split then FirstCount(job, remaining, FirstHalfRoom(46 + |script|)) else 0
    requires var paid, inScript, head := Payouts(job, remaining), space && !split, ExtranonceHead(job.enprefix);
             var count := Varint(|paid| + if inScript then 2 else 3);
             written == Opening(script, job.enprefix, inScript)
                        + (if inScript then [] else count + if split then [] else head)
                        + SerializeOuts(paid[..p]) + if split then head else []
    ensures written == Coinb1(script, job.enprefix, FullPlan(job, |script|, remaining, space, split))
  {
    var plan, paid := FullPlan(job, |script|, remaining, space, split), Payouts(job, remaining);
    assert plan.Count() == |paid| + if plan.inScript then 2 else 3;
    assert SerializeOuts([]) == [] && (!split ==> paid[..p] == []);
    FirstComplete(Opening(script, job.enprefix, plan.inScript), Varint(plan.Count()), SerializeOuts(paid[..p]),
                  ExtranonceHead(job.enprefix));
  }

  lemma SecondMatches(job: Job, scriptLen: nat, remaining: int, space: bool, split: bool, p: nat, written: seq<byte>)
    requires p <= |Payouts(job, remaining)|
    requires p == if split then FirstCount(job, remaining, FirstHalfRoom(46 + scriptLen)) else 0
    requires var paid, inScript := Payouts(job, remaining), space && !split;
             written == (if inScript then LE(FINAL_SEQUENCE, 4) + Varint(|paid| + 2) else [])
                        + SerializeOuts(paid[p..] + [PoolOut(job, OutSum(paid)), WitnessOut(job)]) + LE(0, 4)
    ensures written == Coinb2(FullPlan(job, scriptLen, remaining, space, split))
  {
    var plan, paid := FullPlan(job, scriptLen, remaining, space, split), Payouts(job, remaining);
    assert !split ==> paid[p..] == paid;
  }

  lemma FirstComplete(opening: seq<byte>, count: seq<byte>, first: seq<byte>, head: seq<byte>)
    ensures (opening + (count + [])) + first + head == opening + (count + first + head)
    ensures first == [] ==> (opening + (count + head)) + first + [] == opening + (count + first + head)
    ensures first == [] ==> (opening + []) + first + [] == opening + []
  {
  }

  /** What the split variant puts in the first half fits there. */
  lemma FirstFits(job: Job, remaining: int, room: nat, split: bool, c1cnt: nat)
    requires job.Valid()
    requires c1cnt == if split then LeadCount(Payouts(job, remaining), room) else 0
    ensures var p := SplitPoint(Selected(job, remaining), c1cnt);
            && p <= |Payouts(job, remaining)| && CostSum(Payouts(job, remaining)[..p]) <= room
            && (!split ==> p == 0) && (split ==> p == FirstCount(job, remaining, room))
  {
    if split {
      SplitStaysInRoom(job.outputs, Selected(job, remaining), room);
    }
  }
}
