/** Which miner payouts go into a coinbase of a given size (datum_coinbaser.c), as mathematics.
    Indices refer to the job's list of available outputs. */
module CoinbaseSelection {
  import opened Bytes
  import opened Transactions

  /** Unsigned 64-bit addition. */
  function AddU64(a: nat, b: nat): nat {
    (a + b) % TWO_64
  }

  /** Bytes charged for an output: value, one length byte and the script. */
  function Cost(o: TxOut): nat {
    |o.script| + 9
  }

  predicate Fits(o: TxOut, budget: int, paid: nat, total: nat) {
    Cost(o) <= budget && AddU64(paid, o.value) <= total
  }

  /** The selection from output k on, with budget bytes left and paid satoshis given out. */
  function Choose(outs: seq<TxOut>, k: nat, budget: int, paid: nat, total: nat): seq<nat>
    requires k <= |outs|
    decreases |outs| - k
  {
    if k == |outs| then []
    else if Fits(outs[k], budget, paid, total) then
      var left, sum := budget - Cost(outs[k]), AddU64(paid, outs[k].value);
      if left < 30 || sum >= total then [k] else [k] + Choose(outs, k + 1, left, sum, total)
    else Choose(outs, k + 1, budget, paid, total)
  }

  /** Strictly increasing indices into a list of n outputs, none below k. */
  predicate Increasing(c: seq<nat>, k: nat, n: nat) {
    && (forall i :: 0 <= i < |c| ==> k + i <= c[i] < n)
    && (forall i, j :: 0 <= i < j < |c| ==> c[i] < c[j])
  }

  function Picked(outs: seq<TxOut>, c: seq<nat>): (p: seq<TxOut>)
    requires forall i :: 0 <= i < |c| ==> c[i] < |outs|
    ensures |p| == |c| && forall i :: 0 <= i < |c| ==> p[i] == outs[c[i]]
  {
    if c == [] then [] else [outs[c[0]]] + Picked(outs, c[1..])
  }

  function CostSum(outs: seq<TxOut>): nat {
    if outs == [] then 0 else Cost(outs[0]) + CostSum(outs[1..])
  }

  lemma {:induction false} CostSumConcat(a: seq<TxOut>, b: seq<TxOut>)
    ensures CostSum(a + b) == CostSum(a) + CostSum(b)
  {
    if a == [] {
      assert a + b == b;
    } else {
      CostSumConcat(a[1..], b);
      assert (a + b)[1..] == a[1..] + b;
    }
  }

  lemma PickedConcat(outs: seq<TxOut>, a: seq<nat>, b: seq<nat>)
    requires forall i :: 0 <= i < |a| ==> a[i] < |outs|
    requires forall i :: 0 <= i < |b| ==> b[i] < |outs|
    ensures Picked(outs, a + b) == Picked(outs, a) + Picked(outs, b)
  {
    var c := a + b;
    assert forall i :: 0 <= i < |c| ==> c[i] < |outs|;
    assert forall i :: 0 <= i < |c| ==> Picked(outs, c)[i] == (Picked(outs, a) + Picked(outs, b))[i];
  }

  lemma {:induction false} ChooseIncreases(outs: seq<TxOut>, k: nat, budget: int, paid: nat, total: nat)
    requires k <= |outs|
    ensures Increasing(Choose(outs, k, budget, paid, total), k, |outs|)
    decreases |outs| - k
  {
    if k < |outs| {
      if Fits(outs[k], budget, paid, total) {
        ChooseIncreases(outs, k + 1, budget - Cost(outs[k]), AddU64(paid, outs[k].value), total);
      } else {
        ChooseIncreases(outs, k + 1, budget, paid, total);
      }
    }
  }

  /** No sum of a value and an amount within the total wraps around. */
  predicate NoWrap(outs: seq<TxOut>, total: nat) {
    forall i :: 0 <= i < |outs| ==> outs[i].value + total < TWO_64
  }

  /** The selected outputs fit the byte budget, and pay out no more than the total. */
  lemma {:induction false} ChooseFits(outs: seq<TxOut>, k: nat, budget: int, paid: nat, total: nat)
    requires k <= |outs| && paid <= total && NoWrap(outs, total)
    ensures var c := Choose(outs, k, budget, paid, total);
            && Increasing(c, k, |outs|)
            && (c != [] ==> CostSum(Picked(outs, c)) <= budget)
            && paid + OutSum(Picked(outs, c)) <= total
    decreases |outs| - k
  {
    ChooseIncreases(outs, k, budget, paid, total);
    if k < |outs| {
      if Fits(outs[k], budget, paid, total) {
        var left, sum := budget - Cost(outs[k]), AddU64(paid, outs[k].value);
        ChooseFits(outs, k + 1, left, sum, total);
        var c := Choose(outs, k, budget, paid, total);
        assert Picked(outs, c)[1..] == Picked(outs, c[1..]);
      } else {
        ChooseFits(outs, k + 1, budget, paid, total);
      }
    }
  }

  /** The selection stops after an output that leaves less than 30 bytes or nothing to pay. */
  predicate Stopped(picked: seq<TxOut>, budget: int, paid: nat, total: nat) {
    picked != [] && (budget - CostSum(picked) < 30 || paid + OutSum(picked) >= total)
  }

  /** Index j is in the selection c exactly when the selection has not stopped before j and output j
      fits what the outputs selected before it (the first n) left over. */
  ghost predicate GreedyAt(outs: seq<TxOut>, c: seq<nat>, n: nat, budget: int, paid: nat, total: nat, j: nat) {
    && j < |outs| && n <= |c|
    && (forall i :: 0 <= i < |c| ==> c[i] < |outs|)
    && (forall i :: 0 <= i < n ==> c[i] < j) && (forall i :: n <= i < |c| ==> j <= c[i])
    && var before := Picked(outs, c[..n]);
    && (j in c <==> (!Stopped(before, budget, paid, total)
                     && Cost(outs[j]) <= budget - CostSum(before)
                     && paid + OutSum(before) + outs[j].value <= total))
  }

  lemma {:induction false} ChooseIsGreedy(outs: seq<TxOut>, k: nat, budget: int, paid: nat, total: nat, j: nat)
    returns (n: nat)
    requires k <= j < |outs| && paid <= total && NoWrap(outs, total)
    ensures GreedyAt(outs, Choose(outs, k, budget, paid, total), n, budget, paid, total, j)
    decreases |outs| - k
  {
    var left, sum := budget - Cost(outs[k]), AddU64(paid, outs[k].value);
    if k == j {
      n := 0;
      GreedyHere(outs, k, budget, paid, total);
    } else if !Fits(outs[k], budget, paid, total) {
      n := ChooseIsGreedy(outs, k + 1, budget, paid, total, j);
    } else if left < 30 || sum >= total {
      n := 1;
      GreedyAfterStop(outs, k, budget, paid, total, j);
    } else {
      var c := Choose(outs, k + 1, left, sum, total);
      var m := ChooseIsGreedy(outs, k + 1, left, sum, total, j);
      n := m + 1;
      GreedyAfterPick(outs, k, c, m, budget, paid, total, j);
    }
  }

  lemma GreedyHere(outs: seq<TxOut>, k: nat, budget: int, paid: nat, total: nat)
    requires k < |outs| && paid <= total && NoWrap(outs, total)
    ensures GreedyAt(outs, Choose(outs, k, budget, paid, total), 0, budget, paid, total, k)
  {
    var c := Choose(outs, k, budget, paid, total);
    ChooseIncreases(outs, k, budget, paid, total);
    assert Picked(outs, c[..0]) == [];
    assert outs[k].value + total < TWO_64;
    if Fits(outs[k], budget, paid, total) {
      assert c[0] == k;
    } else {
      ChooseIncreases(outs, k + 1, budget, paid, total);
    }
  }

  lemma GreedyAfterStop(outs: seq<TxOut>, k: nat, budget: int, paid: nat, total: nat, j: nat)
    requires k < j < |outs|
    requires budget - Cost(outs[k]) < 30 || paid + outs[k].value >= total
    ensures GreedyAt(outs, [k], 1, budget, paid, total, j)
  {
    assert [k][..1] == [k];
    GreedyPrefix(outs, k, []);
    assert [k] + [] == [k];
  }

  lemma GreedyAfterPick(outs: seq<TxOut>, k: nat, c: seq<nat>, m: nat, budget: int, paid: nat, total: nat, j: nat)
    requires k < j < |outs| && m <= |c|
    requires budget - Cost(outs[k]) >= 30 && paid + outs[k].value < total
    requires GreedyAt(outs, c, m, budget - Cost(outs[k]), paid + outs[k].value, total, j)
    ensures GreedyAt(outs, [k] + c, m + 1, budget, paid, total, j)
  {
    assert ([k] + c)[..m + 1] == [k] + c[..m];
    GreedyPrefix(outs, k, c[..m]);
    assert j in [k] + c <==> j in c;
  }

  lemma GreedyPrefix(outs: seq<TxOut>, k: nat, c: seq<nat>)
    requires k < |outs| && forall i :: 0 <= i < |c| ==> c[i] < |outs|
    ensures forall i :: 0 <= i < |c| + 1 ==> ([k] + c)[i] < |outs|
    ensures Picked(outs, [k] + c) == [outs[k]] + Picked(outs, c)
    ensures CostSum(Picked(outs, [k] + c)) == Cost(outs[k]) + CostSum(Picked(outs, c))
    ensures OutSum(Picked(outs, [k] + c)) == outs[k].value + OutSum(Picked(outs, c))
  {
    var d := [k] + c;
    assert d[1..] == c;
    assert forall i :: 0 <= i < |d| ==> d[i] < |outs|;
  }

  // ---------------------------------------------------------------- splitting over the two halves

  /** How many of the first selected outputs fit into room bytes, one after the other. */
  function LeadCount(picked: seq<TxOut>, room: int): (n: nat)
    ensures n <= |picked|
  {
    if picked == [] || Cost(picked[0]) > room then 0
    else 1 + LeadCount(picked[1..], room - Cost(picked[0]))
  }

  /** How many of the first selected indices are below n. */
  function SplitPoint(c: seq<nat>, n: nat): (p: nat)
    ensures p <= |c|
  {
    if c == [] || c[0] >= n then 0 else 1 + SplitPoint(c[1..], n)
  }

  lemma {:induction false} SplitPointSeparates(c: seq<nat>, n: nat, k: nat, bound: nat)
    requires Increasing(c, k, bound)
    ensures var p := SplitPoint(c, n);
            && (forall i :: 0 <= i < p ==> c[i] < n) && (forall i :: p <= i < |c| ==> n <= c[i])
            && p + k <= (if n < k then k else n)
  {
    if c != [] && c[0] < n {
      SplitPointSeparates(c[1..], n, k + 1, bound);
      assert forall i :: 0 < i < |c| ==> c[i] == c[1..][i - 1];
    }
  }

  lemma {:induction false} LeadFits(picked: seq<TxOut>, room: nat, p: nat)
    requires p <= LeadCount(picked, room)
    ensures CostSum(picked[..p]) <= room
  {
    if p > 0 {
      LeadFits(picked[1..], room - Cost(picked[0]), p - 1);
      assert picked[..p][1..] == picked[1..][..p - 1];
    }
  }

  /** And no more of them fit. */
  lemma {:induction false} LeadIsLargest(picked: seq<TxOut>, room: nat)
    ensures var n := LeadCount(picked, room);
            CostSum(picked[..n]) <= room && (n < |picked| ==> CostSum(picked[..n + 1]) > room)
  {
    var n := LeadCount(picked, room);
    if picked == [] {
    } else if Cost(picked[0]) > room {
      assert picked[..1][1..] == [] && picked[..0] == [];
    } else {
      LeadIsLargest(picked[1..], room - Cost(picked[0]));
      assert picked[..n][1..] == picked[1..][..n - 1];
      if n < |picked| {
        assert picked[..n + 1][1..] == picked[1..][..n];
      }
    }
  }

  /** Although the writer compares an index with a count of selected outputs, what it puts in the
      first half is a prefix of the outputs that were counted to fit there, so it fits. */
  lemma SplitStaysInRoom(outs: seq<TxOut>, c: seq<nat>, room: nat)
    requires Increasing(c, 0, |outs|)
    ensures var p := SplitPoint(c, LeadCount(Picked(outs, c), room));
            && p <= LeadCount(Picked(outs, c), room)
            && Picked(outs, c[..p]) == Picked(outs, c)[..p]
            && CostSum(Picked(outs, c[..p])) <= room
  {
    var n := LeadCount(Picked(outs, c), room);
    SplitPointSeparates(c, n, 0, |outs|);
    var p := SplitPoint(c, n);
    LeadFits(Picked(outs, c), room, p);
    assert Picked(outs, c[..p]) == Picked(outs, c)[..p];
  }
}
