/** datum_stratum_coinbase_fit_to_template: how many bytes of miner payouts a coinbase may take, in
    the code's mixture of int, uint32_t and uint64_t. */
module CoinbaseBudget {
  import opened Bytes

  const TWO_32: nat := 0x1_0000_0000

  datatype Template = Template(sizeLimit: nat, weightLimit: nat, txnSize: nat, txnWeight: nat) {
    /** Block templates are far below these bounds (four million for a full block). */
    ghost predicate Valid() {
      sizeLimit < 0x4000_0000 && weightLimit < 0x4000_0000 && txnSize < 0x4000_0000 && txnWeight < 0x4000_0000
    }
  }

  function U32(x: int): nat {
    x % TWO_32
  }

  function U64(x: int): nat {
    x % TWO_64
  }

  /** Conversion of a 64-bit value to int. */
  function Int32(x: nat): int {
    var low := x % TWO_32;
    if low < 0x8000_0000 then low else low - TWO_32
  }

  /** j in the first branch. */
  function BySize(fixedBytes: int, t: Template): int {
    Int32(U64(U64(t.sizeLimit - U32(t.txnSize + 85 + 36)) - fixedBytes))
  }

  /** j in the second branch. */
  function ByWeight(fixedBytes: int, t: Template): int {
    Int32(U64(U64(t.weightLimit - U32(t.txnWeight + 340 + 36)) / 4 - fixedBytes))
  }

  function FitToTemplate(maxSz: int, fixedBytes: int, t: Template): int {
    var i := fixedBytes + maxSz;
    var overSize := U32(i + t.txnSize + 85 + 36) > t.sizeLimit;
    var bySize := BySize(fixedBytes, t);
    var overWeight := U32(i * 4 + t.txnWeight + 340 + 36) > t.weightLimit;
    var byWeight := ByWeight(fixedBytes, t);
    if overSize && bySize < 0 then 0
    else if overWeight && byWeight < 0 then 0
    else
      var msz := if overWeight then byWeight else if overSize then bySize else i;
      var msz1 := if msz < 0 then 0 else msz;
      if msz1 < maxSz - fixedBytes then msz1 else maxSz - fixedBytes
  }

  /** A coinbase of fixed + r bytes keeps the block within both limits. */
  predicate WithinLimits(fixedBytes: int, r: int, t: Template) {
    && fixedBytes + r + 121 + t.txnSize <= t.sizeLimit
    && 4 * (fixedBytes + r) + 376 + t.txnWeight <= t.weightLimit
  }

  /** A small number, carried as a 64-bit value, comes back as an int. */
  lemma Int32OfU64(e: int)
    requires -0x8000_0000 <= e < 0x8000_0000
    ensures Int32(U64(e)) == e
  {
    if e < 0 {
      assert e + TWO_64 == U64(e);
      assert (e + TWO_32) + (TWO_32 - 1) * TWO_32 == e + TWO_64;
      assert U64(e) % TWO_32 == e + TWO_32;
    } else {
      assert U64(e) == e;
    }
  }

  lemma U64Again(x: int, f: int)
    ensures U64(U64(x) - f) == U64(x - f)
  {
    var q := x / TWO_64;
    assert U64(x) - f == x - f + (-q) * TWO_64;
  }

  /** The wrapping arithmetic gives the mathematical budget, also where a difference is negative. */
  lemma WrapsAway(fixedBytes: int, t: Template)
    requires t.Valid() && 0 <= fixedBytes < 0x10_0000
    ensures BySize(fixedBytes, t) == t.sizeLimit - t.txnSize - 121 - fixedBytes
    ensures ByWeight(fixedBytes, t) == (t.weightLimit - t.txnWeight - 376) / 4 - fixedBytes
  {
    SmallU32(t.txnSize + 121);
    SmallU32(t.txnWeight + 376);
    var d := t.sizeLimit - t.txnSize - 121;
    U64Again(d, fixedBytes);
    Int32OfU64(d - fixedBytes);
    QuarterWraps(t.weightLimit - t.txnWeight - 376, fixedBytes);
  }

  lemma SmallU32(x: int)
    requires 0 <= x < TWO_32
    ensures U32(x) == x
  {
  }

  /** The shift by two is logical, yet its low 32 bits are those of the rounded-down quarter. */
  lemma QuarterWraps(w: int, fixedBytes: int)
    requires -0x5000_0000 <= w < 0x5000_0000 && 0 <= fixedBytes < 0x10_0000
    ensures Int32(U64(U64(w) / 4 - fixedBytes)) == w / 4 - fixedBytes
  {
    var e := w / 4 - fixedBytes;
    if w < 0 {
      assert U64(w) == w + TWO_64;
      assert (w + TWO_64) / 4 == w / 4 + TWO_64 / 4;
      assert 0 <= e + TWO_64 / 4 < TWO_64;
      assert U64(U64(w) / 4 - fixedBytes) == e + TWO_64 / 4;
      assert e + TWO_64 / 4 == (e + TWO_32) + (TWO_64 / 4 / TWO_32 - 1) * TWO_32;
      assert (e + TWO_64 / 4) % TWO_32 == e + TWO_32;
    } else {
      assert U64(w) == w;
      Int32OfU64(e);
    }
  }

  /** The space returned is the largest that fits: within the size class and both limits, or zero
      where no positive amount fits. The weight branch overwrites the size branch, which is right
      because weight is never below size and the weight limit never above the size limit. */
  lemma FitIsLargest(maxSz: int, fixedBytes: int, t: Template)
    requires t.Valid() && 0 <= maxSz < 0x10_0000 && 0 <= fixedBytes < 0x10_0000
    requires t.txnWeight >= t.txnSize && t.weightLimit <= t.sizeLimit
    ensures var r := FitToTemplate(maxSz, fixedBytes, t);
            && (r == 0 || (WithinLimits(fixedBytes, r, t) && fixedBytes + r <= maxSz))
            && (r >= 0 ==> forall q :: r < q && fixedBytes + q <= maxSz ==> !WithinLimits(fixedBytes, q, t))
            && (r < 0 ==> fixedBytes > maxSz)
  {
    var i := fixedBytes + maxSz;
    WrapsAway(fixedBytes, t);
    SmallU32(i + t.txnSize + 85 + 36);
    SmallU32(i * 4 + t.txnWeight + 340 + 36);
    LimitsAsBounds(fixedBytes, t);
  }

  /** With weight not below size, and the weight limit not above the size limit, weight decides. */
  lemma LimitsAsBounds(fixedBytes: int, t: Template)
    requires t.txnWeight >= t.txnSize && t.weightLimit <= t.sizeLimit && 0 <= fixedBytes
    ensures forall q :: fixedBytes + q >= 0 ==>
              (WithinLimits(fixedBytes, q, t) <==> q <= (t.weightLimit - t.txnWeight - 376) / 4 - fixedBytes)
    ensures t.sizeLimit - t.txnSize - 121 - fixedBytes < 0 ==> (t.weightLimit - t.txnWeight - 376) / 4 - fixedBytes < 0
  {
  }
}
