/** The rolling state of a DATUM session: the 32-bit header key with its feedback function, and the
    24-byte nonce (datum_protocol.c). */
module SessionKeys {
  import opened Bytes

  const TWO_32: nat := 0x1_0000_0000

  /** A uint32_t. */
  type word = x: int | 0 <= x < TWO_32

  // ---------------------------------------------------------------- 32-bit words

  /** Exclusive or, bit by bit. */
  function Xor(a: nat, b: nat): nat
    decreases a + b
  {
    if a == 0 && b == 0 then 0 else Differ(a % 2, b % 2) + 2 * Xor(a / 2, b / 2)
  }

  function Differ(x: nat, y: nat): (d: nat)
    ensures d < 2
  {
    if x == y then 0 else 1
  }

  lemma XorBits(a: nat, b: nat)
    ensures Xor(a, b) % 2 == Differ(a % 2, b % 2) && Xor(a, b) / 2 == Xor(a / 2, b / 2)
  {
  }

  /** Applying the same key twice gives the word back. */
  lemma {:induction false} XorTwice(a: nat, key: nat)
    ensures Xor(Xor(a, key), key) == a
    decreases a + key
  {
    if a + key > 0 {
      XorTwice(a / 2, key / 2);
      XorBits(a, key);
      XorBits(Xor(a, key), key);
      SameBits(Xor(Xor(a, key), key), a);
    }
  }

  lemma SameBits(x: nat, y: nat)
    requires x % 2 == y % 2 && x / 2 == y / 2
    ensures x == y
  {
  }

  lemma {:induction false} XorBelow(a: nat, b: nat, n: nat)
    requires a < Pow2(n) && b < Pow2(n)
    ensures Xor(a, b) < Pow2(n)
  {
    if n > 0 {
      XorBelow(a / 2, b / 2, n - 1);
    }
  }

  lemma Pow2Of32()
    ensures Pow2(32) == TWO_32
  {
    assert Pow2(8) == 256;
    assert Pow2(16) == 256 * Pow2(8);
    assert Pow2(24) == 256 * Pow2(16);
    assert Pow2(32) == 256 * Pow2(24);
  }

  function Xor32(a: word, b: word): word {
    Pow2Of32();
    XorBelow(a, b, 32);
    Xor(a, b)
  }

  function Times32(a: word, b: word): word {
    a * b % TWO_32
  }

  function Plus32(a: word, b: word): word {
    (a + b) % TWO_32
  }

  /** Rotation to the left by the exponent of p = 2^k, where p * q = 2^32. */
  function Rotate(a: word, p: nat, q: nat): word
    requires p > 0 && q > 0 && p * q == TWO_32
  {
    RotateInRange(a, p, q);
    a % q * p + a / q
  }

  lemma TimesMonotone(q: nat, x: nat, y: nat)
    requires x <= y
    ensures q * x <= q * y
  {
  }

  lemma RotateInRange(a: nat, p: nat, q: nat)
    requires p > 0 && q > 0 && a < p * q
    ensures a / q < p && a % q * p + a / q < p * q
  {
    var d, m := a / q, a % q;
    assert a == q * d + m;
    if p <= d {
      TimesMonotone(q, p, d);
    }
    TimesMonotone(p, m, q - 1);
    assert (q - 1) * p == p * q - p;
  }

  /** datum_header_xor_feedback: MurmurHash3 of one block, with a fixed seed. */
  function Feedback(key: word): word {
    Mix(Xor32(Scramble(Scatter(key)), 4))
  }

  /** The block. */
  function Scatter(key: word): word {
    Times32(Rotate(Times32(key, 0xcc9e2d51), 0x8000, 0x2_0000), 0x1b873593)
  }

  /** The seed takes in the block. */
  function Scramble(k: word): word {
    Plus32(Times32(Rotate(Xor32(0xb10cfeed, k), 0x2000, 0x8_0000), 5), 0xe6546b64)
  }

  /** The finish. */
  function Mix(h: word): word {
    var h1 := Times32(Xor32(h, h / 0x1_0000), 0x85ebca6b);
    var h2 := Times32(Xor32(h1, h1 / 0x2000), 0xc2b2ae35);
    Xor32(h2, h2 / 0x1_0000)
  }

  /** The key of the n-th message of a direction whose first key is k0. The feedback function is a
      parameter: nothing proved about sessions depends on which one it is. */
  function KeyAt(next: word -> word, k0: word, n: nat): word
    decreases n
  {
    if n == 0 then k0 else KeyAt(next, next(k0), n - 1)
  }

  lemma {:induction false} KeyAfter(next: word -> word, k0: word, n: nat)
    ensures KeyAt(next, k0, n + 1) == next(KeyAt(next, k0, n))
    decreases n
  {
    if n > 0 {
      KeyAfter(next, next(k0), n - 1);
    }
  }

  // ---------------------------------------------------------------- key chains never meet

  /** Multiplying by c is undone by multiplying by its inverse d. */
  lemma TimesBack(x: word, c: word, d: word, k: nat)
    requires c * d == k * TWO_32 + 1
    ensures Times32(Times32(x, c), d) == x
  {
    var q := x * c / TWO_32;
    var r := Times32(x, c);
    assert r == x * c - q * TWO_32;
    calc {
      r * d;
      x * c * d - q * TWO_32 * d;
      x * (c * d) - q * TWO_32 * d;
      x * (k * TWO_32 + 1) - q * TWO_32 * d;
      x + TWO_32 * (x * k - q * d);
    }
    RemainderOf(x, x * k - q * d, r * d);
  }

  lemma RemainderOf(x: word, m: int, v: nat)
    requires v == x + TWO_32 * m
    ensures v % TWO_32 == x
  {
  }

  lemma RotateBack(a: word, p: nat, q: nat)
    requires p > 0 && q > 0 && p * q == TWO_32
    ensures Rotate(Rotate(a, p, q), q, p) == a
  {
    RotateInRange(a, p, q);
    var low, high := a % q, a / q;
    var r := low * p + high;
    assert a == q * high + low;
    assert r / p == low && r % p == high by {
      DivideSum(low, p, high);
    }
  }

  lemma DivideSum(d: nat, p: nat, r: nat)
    requires r < p
    ensures (d * p + r) / p == d && (d * p + r) % p == r
  {
    var v := d * p + r;
    var e := v / p;
    assert v == p * e + v % p;
    if e < d {
      TimesMonotone(p, e + 1, d);
    } else if e > d {
      TimesMonotone(p, d + 1, e);
    }
  }

  /** A shift to the right. */
  function Shift(a: nat, n: nat): nat {
    if n == 0 then a else Shift(a / 2, n - 1)
  }

  lemma {:induction false} XorShift(a: nat, b: nat, n: nat)
    ensures Shift(Xor(a, b), n) == Xor(Shift(a, n), Shift(b, n))
    decreases n
  {
    if n > 0 {
      XorBits(a, b);
      XorShift(a / 2, b / 2, n - 1);
    }
  }

  lemma {:induction false} ShiftShift(a: nat, m: nat, n: nat)
    ensures Shift(a, m + n) == Shift(Shift(a, m), n)
    decreases m
  {
    if m > 0 {
      ShiftShift(a / 2, m - 1, n);
    }
  }

  lemma Shift3(a: nat)
    ensures Shift(a, 3) == a / 8
  {
    assert Shift(a, 3) == Shift(a / 2, 2) == Shift(a / 2 / 2, 1) == a / 2 / 2 / 2;
  }

  lemma ShiftDivides(a: nat)
    ensures Shift(a, 6) == a / 0x40 && Shift(a, 13) == a / 0x2000
    ensures Shift(a, 16) == a / 0x1_0000 && Shift(a, 19) == a / 0x8_0000
  {
    Shift3(a);
    ShiftShift(a, 3, 3);
    Shift3(a / 8);
    var b := a / 0x40;
    Shift3(b);
    ShiftShift(b, 3, 3);
    Shift3(b / 8);
    ShiftShift(b, 6, 1);
    assert Shift(b / 0x40, 1) == b / 0x40 / 2;
    ShiftShift(a, 6, 7);
    var c := a / 0x2000;
    Shift3(c);
    Shift3(c / 8);
    ShiftShift(c, 3, 3);
    ShiftShift(a, 13, 3);
    ShiftShift(a, 13, 6);
  }

  lemma XorZero(a: nat)
    ensures Xor(a, 0) == a
  {
    if a != 0 {
      XorZero(a / 2);
    }
  }

  lemma TopHalf(a: word)
    ensures Xor(a, a / 0x1_0000) / 0x1_0000 == a / 0x1_0000
  {
    var s := a / 0x1_0000;
    XorShift(a, s, 16);
    ShiftDivides(a);
    ShiftDivides(s);
    ShiftDivides(Xor(a, s));
    XorZero(s);
  }

  lemma Top13(a: word)
    ensures Xor(a, a / 0x2000) / 0x8_0000 == a / 0x8_0000
    ensures Xor(a, a / 0x2000) / 0x40 == Xor(a / 0x40, a / 0x8_0000)
  {
    var s := a / 0x2000;
    XorShift(a, s, 19);
    XorShift(a, s, 6);
    ShiftDivides(a);
    ShiftDivides(s);
    ShiftDivides(Xor(a, s));
    XorZero(a / 0x8_0000);
  }

  lemma {:induction false} XorSymmetric(a: nat, b: nat)
    ensures Xor(a, b) == Xor(b, a)
    decreases a + b
  {
    if a + b > 0 {
      XorSymmetric(a / 2, b / 2);
    }
  }

  // The inverse of each part of the feedback.

  function FoldHalf(a: word): word {
    Xor32(a, a / 0x1_0000)
  }

  /** Folding the high half of a word into the low half undoes itself. */
  lemma FoldHalfTwice(a: word)
    ensures FoldHalf(FoldHalf(a)) == a
  {
    TopHalf(a);
    XorTwice(a, a / 0x1_0000);
  }

  function Unfold13(a: word): word {
    Xor32(a, Xor32(a / 0x40, a / 0x8_0000) / 0x80)
  }

  lemma Unfolds13(a: word)
    ensures Unfold13(Xor32(a, a / 0x2000)) == a
  {
    Top13(a);
    XorTwice(a / 0x40, a / 0x8_0000);
    assert a / 0x2000 == a / 0x40 / 0x80;
    XorTwice(a, a / 0x2000);
  }

  function Unmix(h: word): word {
    var h1 := Unfold13(Times32(FoldHalf(h), 0x7ed1b41d));
    FoldHalf(Times32(h1, 0xa5cb9243))
  }

  lemma Unmixes(h: word)
    ensures Unmix(Mix(h)) == h
  {
    var h1 := Times32(FoldHalf(h), 0x85ebca6b);
    var h2 := Times32(Xor32(h1, h1 / 0x2000), 0xc2b2ae35);
    FoldHalfTwice(h2);
    TimesBack(Xor32(h1, h1 / 0x2000), 0xc2b2ae35, 0x7ed1b41d, 0x60736e9a);
    Unfolds13(h1);
    TimesBack(FoldHalf(h), 0x85ebca6b, 0xa5cb9243, 0x56bb77f4);
    FoldHalfTwice(h);
  }

  function Unscramble(h: word): word {
    Xor32(Rotate(Times32(Plus32(h, 0x19ab949c), 0xcccccccd), 0x8_0000, 0x2000), 0xb10cfeed)
  }

  lemma PlusBack(a: word)
    ensures Plus32(Plus32(a, 0xe6546b64), 0x19ab949c) == a
  {
    if a + 0xe6546b64 < TWO_32 {
      assert Plus32(a, 0xe6546b64) == a + 0xe6546b64;
    } else {
      assert Plus32(a, 0xe6546b64) == a + 0xe6546b64 - TWO_32;
    }
  }

  lemma Unscrambles(k: word)
    ensures Unscramble(Scramble(k)) == k
  {
    var r := Rotate(Xor32(0xb10cfeed, k), 0x2000, 0x8_0000);
    PlusBack(Times32(r, 5));
    TimesBack(r, 5, 0xcccccccd, 4);
    RotateBack(Xor32(0xb10cfeed, k), 0x2000, 0x8_0000);
    XorSymmetric(0xb10cfeed, k);
    XorTwice(k, 0xb10cfeed);
  }

  function Unscatter(k: word): word {
    Times32(Rotate(Times32(k, 0x56ed309b), 0x2_0000, 0x8000), 0xdee13bb1)
  }

  lemma Unscatters(key: word)
    ensures Unscatter(Scatter(key)) == key
  {
    var k := Times32(key, 0xcc9e2d51);
    TimesBack(Rotate(k, 0x8000, 0x2_0000), 0x1b873593, 0x56ed309b, 0x958ed66);
    RotateBack(k, 0x8000, 0x2_0000);
    TimesBack(key, 0xcc9e2d51, 0xdee13bb1, 0xb2253208);
  }

  /** The key that has this successor. */
  function Previous(key: word): word {
    Unscatter(Unscramble(Xor32(Unmix(key), 4)))
  }

  /** The feedback can be run backwards. */
  lemma PreviousOfNext(key: word)
    ensures Previous(Feedback(key)) == key
  {
    var h := Scramble(Scatter(key));
    Unmixes(Xor32(h, 4));
    XorTwice(h, 4);
    Unscrambles(Scatter(key));
    Unscatters(key);
  }

  /** Different keys have different successors, so two directions that start apart never share a key
      at the same place. */
  lemma FeedbackInjective(a: word, b: word)
    requires Feedback(a) == Feedback(b)
    ensures a == b
  {
    PreviousOfNext(a);
    PreviousOfNext(b);
  }

  lemma {:induction false} KeyChainsStayApart(a: word, b: word, n: nat)
    requires a != b
    ensures KeyAt(Feedback, a, n) != KeyAt(Feedback, b, n)
    decreases n
  {
    if n > 0 {
      if Feedback(a) == Feedback(b) {
        FeedbackInjective(a, b);
      }
      KeyChainsStayApart(Feedback(a), Feedback(b), n - 1);
    }
  }

  // ---------------------------------------------------------------- the nonce

  const LIMBS: nat := 6  // crypto_box_NONCEBYTES is 24

  /** The number that little-endian 32-bit limbs stand for. */
  function Value(limbs: seq<word>): nat {
    if limbs == [] then 0 else limbs[0] + TWO_32 * Value(limbs[1..])
  }

  /** 2^(32 n). */
  function Range(n: nat): (r: nat)
    ensures r > 0
  {
    if n == 0 then 1 else TWO_32 * Range(n - 1)
  }

  /** Add one to the first limb, and go on with the next limb when it wrapped to zero. */
  function Carried(limbs: seq<word>): (r: seq<word>)
    ensures |r| == |limbs|
  {
    if limbs == [] then []
    else if limbs[0] + 1 < TWO_32 then [limbs[0] + 1] + limbs[1..]
    else [0] + Carried(limbs[1..])
  }

  /** The successor below a modulus. */
  function PlusOne(v: nat, modulus: nat): (r: nat)
    requires v < modulus
    ensures r == (v + 1) % modulus
  {
    if v + 1 == modulus then 0 else v + 1
  }

  lemma {:induction false} CarriedIsPlusOne(limbs: seq<word>)
    ensures Value(limbs) < Range(|limbs|)
    ensures Value(Carried(limbs)) == PlusOne(Value(limbs), Range(|limbs|))
  {
    if limbs != [] {
      var rest := limbs[1..];
      CarriedIsPlusOne(rest);
      if limbs[0] + 1 < TWO_32 {
        assert Carried(limbs)[1..] == rest;
      } else {
        assert Carried(limbs)[1..] == Carried(rest);
      }
    }
  }

  /** datum_increment_session_nonce: one more, modulo 2^192. */
  method IncrementNonce(x: array<word>)
    requires x.Length == LIMBS
    modifies x
    ensures Value(old(x[..])) < Range(LIMBS)
    ensures Value(x[..]) == (Value(old(x[..])) + 1) % Range(LIMBS)
  {
    ghost var before := x[..];
    CarriedIsPlusOne(before);
    RunCarry(x);
  }

  method RunCarry(x: array<word>)
    modifies x
    ensures x[..] == Carried(old(x[..]))
  {
    ghost var before := x[..];
    var i := 0;
    while i < x.Length
      invariant i <= x.Length
      invariant forall j :: 0 <= j < i ==> before[j] == TWO_32 - 1 && x[j] == 0
      invariant forall j :: i <= j < x.Length ==> x[j] == before[j]
    {
      var more := x[i] as int + 1;
      x[i] := if more < TWO_32 then more else 0;
      if x[i] != 0 {
        CarryStops(before, x[..], i);
        return;
      }
      i := i + 1;
    }
    CarryThrough(before, x[..], i);
  }

  lemma CarryStops(before: seq<word>, after: seq<word>, i: nat)
    requires |before| == |after| && i < |before|
    requires forall j :: 0 <= j < i ==> before[j] == TWO_32 - 1 && after[j] == 0
    requires after[i] == before[i] as int + 1
    requires forall j :: i < j < |before| ==> after[j] == before[j]
    ensures after == Carried(before)
  {
    assert after[i..] == [after[i]] + before[i..][1..];
    CarryThrough(before, after, i);
  }

  lemma {:induction false} CarryThrough(before: seq<word>, after: seq<word>, i: nat)
    requires |before| == |after| && i <= |before|
    requires forall j :: 0 <= j < i ==> before[j] == TWO_32 - 1 && after[j] == 0
    requires after[i..] == Carried(before[i..])
    ensures after == Carried(before)
  {
    if i == 0 {
      assert before[0..] == before && after[0..] == after;
    } else {
      assert after[1..][i - 1..] == after[i..] && before[1..][i - 1..] == before[i..];
      CarryThrough(before[1..], after[1..], i - 1);
      assert after == [0] + after[1..];
    }
  }
}
