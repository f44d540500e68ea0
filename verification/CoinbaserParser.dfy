/** datum_coinbaser_v2_parse: the payout list a pool sends, read back into a job. */
module CoinbaserParser {
  import opened Bytes
  import opened Transactions
  import opened CoinbaseSelection

  const MAX_OUTPUTS: nat := 512

  /** The wire encoding of one payout: value, script length, script. */
  function EncodeRecord(o: TxOut): (s: seq<byte>)
    requires |o.script| < 256
    ensures |s| == 9 + |o.script|
  {
    LE(o.value, 8) + [|o.script|] + o.script
  }

  function EncodeRecords(outs: seq<TxOut>): seq<byte>
    requires forall i :: 0 <= i < |outs| ==> |outs[i].script| < 256
  {
    if outs == [] then [] else EncodeRecord(outs[0]) + EncodeRecords(outs[1..])
  }

  /** The payout list as the pool sends it: the coinbaser's id, then the records. */
  function Encode(id: byte, outs: seq<TxOut>): seq<byte>
    requires forall i :: 0 <= i < |outs| ==> |outs[i].script| < 256
  {
    [id] + EncodeRecords(outs)
  }

  /** What a sender can encode, with no 64-bit wrap when a value is added to an amount within the total. */
  predicate Encodable(outs: seq<TxOut>, total: nat) {
    && total < TWO_64
    && NoWrap(outs, total)
    && forall i :: 0 <= i < |outs| ==> |outs[i].script| < 256
  }

  /** The first n outputs can all be used. */
  predicate Acceptable(outs: seq<TxOut>, n: nat, total: nat)
    requires n <= |outs|
  {
    && n <= 512
    && (forall i :: 0 <= i < n ==> 2 <= |outs[i].script| <= 64)
    && OutSum(outs[..n]) <= total
  }

  lemma EncodeRecordsNonempty(outs: seq<TxOut>)
    requires forall i :: 0 <= i < |outs| ==> |outs[i].script| < 256
    ensures |EncodeRecords(outs)| >= 9 * |outs|
  {
  }

  /** Reading a record at the front of an encoding. */
  lemma RecordFields(outs: seq<TxOut>)
    requires outs != [] && forall i :: 0 <= i < |outs| ==> |outs[i].script| < 256 && outs[i].value < TWO_64
    ensures var b, n := EncodeRecords(outs), |outs[0].script|;
            && |b| >= 9 + n
            && FromLE(b[..8]) == outs[0].value && b[8] == n
            && b[9..9 + n] == outs[0].script
            && b[9 + n..] == EncodeRecords(outs[1..])
  {
    PowersOf256();
    LERoundTrip(outs[0].value, 8);
    var b, n := EncodeRecords(outs), |outs[0].script|;
    assert b == LE(outs[0].value, 8) + [n] + outs[0].script + EncodeRecords(outs[1..]);
    assert b[..8] == LE(outs[0].value, 8);
  }

  /** Reading record n at position at. */
  lemma RecordAt(b: seq<byte>, at: nat, outs: seq<TxOut>, n: nat)
    requires at < |b| && n <= |outs|
    requires forall i :: 0 <= i < |outs| ==> |outs[i].script| < 256 && outs[i].value < TWO_64
    requires b[at..] == EncodeRecords(outs[n..])
    ensures n < |outs| && at + 9 + |outs[n].script| <= |b|
    ensures FromLE(b[at..at + 8]) == outs[n].value && b[at + 8] == |outs[n].script|
    ensures b[at + 9..at + 9 + |outs[n].script|] == outs[n].script
    ensures b[at + 9 + |outs[n].script|..] == EncodeRecords(outs[n + 1..])
  {
    assert n < |outs|;
    var tail, len := b[at..], |outs[n].script|;
    RecordFields(outs[n..]);
    assert outs[n..][0] == outs[n] && outs[n..][1..] == outs[n + 1..];
    assert tail[..8] == b[at..at + 8] && tail[9..9 + len] == b[at + 9..at + 9 + len];
    assert tail[9 + len..] == b[at + 9 + len..];
  }

  lemma OutSumPrefix(outs: seq<TxOut>, n: nat)
    requires n < |outs|
    ensures OutSum(outs[..n + 1]) == OutSum(outs[..n]) + outs[n].value
  {
    assert outs[..n + 1] == outs[..n] + [outs[n]];
    OutSumConcat(outs[..n], [outs[n]]);
    assert [outs[n]][1..] == [];
  }

  /** outs[..n] is the longest acceptable prefix. */
  predicate Longest(outs: seq<TxOut>, n: nat, total: nat) {
    && n <= |outs| && Acceptable(outs, n, total)
    && (n < |outs| ==> !Acceptable(outs, n + 1, total))
  }

  lemma AcceptNext(outs: seq<TxOut>, n: nat, total: nat)
    requires Encodable(outs, total) && n < |outs| && Acceptable(outs, n, total)
    ensures var sum := AddU64(outs[n].value, OutSum(outs[..n]));
            && sum == OutSum(outs[..n + 1])
            && (Acceptable(outs, n + 1, total) <==>
                n + 1 <= MAX_OUTPUTS && sum <= total && 2 <= |outs[n].script| <= 64)
  {
    OutSumPrefix(outs, n);
    assert outs[n].value + total < TWO_64;
  }

  /** The first n records were read and kept, and the next one is at position at. */
  ghost predicate ReadSoFar(b: seq<byte>, outs: seq<TxOut>, total: nat, at: nat, n: nat, tally: nat)
    requires Encodable(outs, total)
  {
    && 1 <= at <= |b| && n <= |outs| && n < MAX_OUTPUTS
    && Acceptable(outs, n, total) && tally == OutSum(outs[..n])
    && b[at..] == EncodeRecords(outs[n..])
  }

  /** What the next record says, and whether it is kept. */
  lemma ReadNext(b: seq<byte>, outs: seq<TxOut>, total: nat, at: nat, n: nat, tally: nat)
    requires Encodable(outs, total) && ReadSoFar(b, outs, total, at, n, tally) && at < |b|
    ensures n < |outs| && at + 9 + |outs[n].script| <= |b|
    ensures var o, sum := outs[n], AddU64(outs[n].value, tally);
            && FromLE(b[at..at + 8]) == o.value && b[at + 8] == |o.script| && b[at + 9..at + 9 + |o.script|] == o.script
            && outs[..n + 1] == outs[..n] + [o]
            && if sum > total || |o.script| < 2 || |o.script| > 64 then Longest(outs, n, total)
               else if n + 1 >= MAX_OUTPUTS then Longest(outs, n + 1, total)
               else ReadSoFar(b, outs, total, at + 9 + |o.script|, n + 1, sum)
  {
    RecordAt(b, at, outs, n);
    AcceptNext(outs, n, total);
  }

  lemma ReadEnd(b: seq<byte>, outs: seq<TxOut>, total: nat, n: nat, tally: nat)
    requires Encodable(outs, total) && ReadSoFar(b, outs, total, |b|, n, tally)
    ensures Longest(outs, n, total)
  {
    EncodeRecordsNonempty(outs[n..]);
  }

  /** One record and where the next one is, or nothing where the list ends with it. */
  method ReadRecord(b: seq<byte>, total: nat, at: nat, tally: nat, ghost outs: seq<TxOut>, ghost n: nat)
    returns (o: Option<TxOut>, next: nat)
    requires Encodable(outs, total) && ReadSoFar(b, outs, total, at, n, tally) && at < |b|
    ensures o.None? ==> Longest(outs, n, total)
    ensures o.Some? ==>
              && n < |outs| && o.value == outs[n] && outs[..n + 1] == outs[..n] + [o.value] && at < next <= |b|
              && if n + 1 >= MAX_OUTPUTS then Longest(outs, n + 1, total)
                 else ReadSoFar(b, outs, total, next, n + 1, AddU64(tally, o.value.value))
  {
    ReadNext(b, outs, total, at, n, tally);
    next := at;
    var outval := FromLE(b[next..next + 8]);
    next := next + 8;
    if AddU64(outval, tally) > total {
      return None, next;
    }
    var slen := b[next];
    next := next + 1;
    if slen < 2 || slen > 64 {
      return None, next;
    }
    o := Some(TxOut(outval, b[next..next + slen]));
    next := next + slen;
  }

  /** The record loop, lines 787 to 815. */
  method ReadRecords(b: seq<byte>, total: nat, ghost outs: seq<TxOut>) returns (kept: seq<TxOut>)
    requires Encodable(outs, total)
    requires b != [] && b[1..] == EncodeRecords(outs)
    ensures Longest(outs, |kept|, total) && kept == outs[..|kept|]
  {
    var tally, cidx := 0, 1;
    kept := [];
    while cidx < |b|
      invariant ReadSoFar(b, outs, total, cidx, |kept|, tally) && kept == outs[..|kept|]
      decreases |b| - cidx
    {
      var o, next := ReadRecord(b, total, cidx, tally, outs, |kept|);
      if o.None? {
        return;
      }
      cidx, tally := next, AddU64(tally, o.value.value);
      kept := kept + [o.value];
      if |kept| >= MAX_OUTPUTS {
        return;
      }
    }
    ReadEnd(b, outs, total, |kept|, tally);
  }

  /** The fields of T_DATUM_STRATUM_JOB that the parser fills. */
  class PayoutJob {
    const coinbaseValue: nat
    var available: seq<TxOut>
    var coinbaserId: byte

    constructor (value: nat)
      ensures coinbaseValue == value && available == []
    {
      coinbaseValue, available, coinbaserId := value, [], 0;
    }

    /** Returns the number of outputs kept. For the encoding of a payout list these are its longest
        acceptable prefix; an absent or too short message leaves none. */
    method Parse(coinbaser: Option<seq<byte>>, ghost outs: seq<TxOut>, ghost id: byte) returns (count: nat)
      requires Encodable(outs, coinbaseValue)
      requires coinbaser.Some? ==> coinbaser.value == Encode(id, outs)
      modifies this
      ensures count == |available|
      ensures coinbaser.None? ==> count == 0 && coinbaserId == old(coinbaserId)
      ensures coinbaser.Some? ==> Longest(outs, count, coinbaseValue) && available == outs[..count]
      ensures coinbaser.Some? ==> coinbaserId == if outs == [] then old(coinbaserId) else id
    {
      EncodeRecordsNonempty(outs);
      if coinbaser.None? || |coinbaser.value| < 9 {
        available := [];
        return 0;
      }
      var b := coinbaser.value;
      assert b[1..] == EncodeRecords(outs);
      available := ReadRecords(b, coinbaseValue, outs);
      coinbaserId := b[0];
      return |available|;
    }
  }

  lemma {:induction false} OutSumMonotone(outs: seq<TxOut>, m: nat, n: nat)
    requires m <= n <= |outs|
    ensures OutSum(outs[..m]) <= OutSum(outs[..n])
    decreases n - m
  {
    if m < n {
      OutSumPrefix(outs, m);
      OutSumMonotone(outs, m + 1, n);
    }
  }

  /** No acceptable prefix is longer than the one kept. */
  lemma LongestPrefix(outs: seq<TxOut>, n: nat, m: nat, total: nat)
    requires Longest(outs, n, total) && n < m <= |outs|
    ensures !Acceptable(outs, m, total)
  {
    OutSumMonotone(outs, n + 1, m);
  }

  /** Once parsed, the value test of the selection never rejects an output: only the byte budget decides. */
  lemma ValueTestNeverRejects(outs: seq<TxOut>, k: nat, c: seq<nat>, total: nat)
    requires OutSum(outs) <= total && total < TWO_64 && k < |outs|
    requires Increasing(c, 0, k)
    ensures AddU64(OutSum(Picked(outs, c)), outs[k].value) <= total
  {
    PickedSumBelow(outs, c, k);
    assert outs == outs[..k + 1] + outs[k + 1..];
    OutSumConcat(outs[..k + 1], outs[k + 1..]);
    OutSumPrefix(outs, k);
  }

  lemma {:induction false} PickedLast(outs: seq<TxOut>, front: seq<nat>, i: nat)
    requires i < |outs| && forall j :: 0 <= j < |front| ==> front[j] < |outs|
    ensures OutSum(Picked(outs, front + [i])) == OutSum(Picked(outs, front)) + outs[i].value
  {
    PickedConcat(outs, front, [i]);
    OutSumConcat(Picked(outs, front), Picked(outs, [i]));
    assert Picked(outs, [i]) == [outs[i]];
    assert OutSum([outs[i]]) == outs[i].value + OutSum([outs[i]][1..]) && [outs[i]][1..] == [];
  }

  /** Different outputs below k sum to no more than all of them. */
  lemma {:induction false} PickedSumBelow(outs: seq<TxOut>, c: seq<nat>, k: nat)
    requires k <= |outs| && Increasing(c, 0, k)
    ensures OutSum(Picked(outs, c)) <= OutSum(outs[..k])
    decreases |c|
  {
    if c != [] {
      var front, i := SplitLast(c, k);
      PickedSumBelow(outs, front, i);
      PickedLast(outs, front, i);
      OutSumPrefix(outs, i);
      OutSumMonotone(outs, i + 1, k);
    }
  }

  lemma SplitLast(c: seq<nat>, k: nat) returns (front: seq<nat>, i: nat)
    requires c != [] && Increasing(c, 0, k)
    ensures c == front + [i] && i < k && Increasing(front, 0, i)
  {
    front, i := c[..|c| - 1], c[|c| - 1];
  }
}
