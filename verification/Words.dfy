/**
  Machine words as natural numbers, with the bitwise operators of the allocator and of the
  duplicate filter. Every operator is characterised by the bits it leaves.
  */
module Words {
  import opened Arith

  const WORD_BITS: nat := 64

  function Pow2(n: nat): (p: nat)
    ensures p >= 1
  {
    if n == 0 then 1 else 2 * Pow2(n - 1)
  }

  /** The word type `u64`. */
  predicate IsWord(w: nat) {
    w <= U64_MAX
  }

  lemma {:induction false} Pow2Sum(a: nat, b: nat)
    ensures Pow2(a + b) == Pow2(a) * Pow2(b)
  {
    if a > 0 {
      Pow2Sum(a - 1, b);
      assert 2 * (Pow2(a - 1) * Pow2(b)) == (2 * Pow2(a - 1)) * Pow2(b);
    }
  }

  lemma Squared(n: nat, v: nat)
    requires Pow2(n) == v
    ensures Pow2(2 * n) == v * v
  {
    Pow2Sum(n, n);
  }

  lemma RangeFrom(n: nat)
    requires Pow2(n) == 256
    ensures Pow2(8 * n) == U64_MAX + 1
  {
    Squared(n, 256);
    Squared(2 * n, 0x1_0000);
    Squared(4 * n, 0x1_0000_0000);
  }

  lemma WordRange()
    ensures Pow2(WORD_BITS) == U64_MAX + 1
  {
    assert Pow2(8) == 256;
    RangeFrom(8);
  }

  /** Bit `b` of `w`. */
  predicate Bit(w: nat, b: nat) {
    if b == 0 then w % 2 == 1 else Bit(w / 2, b - 1)
  }

  /** `w | m`. */
  function Or(w: nat, m: nat): nat {
    if w == 0 && m == 0 then 0
    else (if w % 2 == 1 || m % 2 == 1 then 1 else 0) + 2 * Or(w / 2, m / 2)
  }

  /** `w & m`. */
  function And(w: nat, m: nat): nat {
    if w == 0 && m == 0 then 0
    else (if w % 2 == 1 && m % 2 == 1 then 1 else 0) + 2 * And(w / 2, m / 2)
  }

  /** `!w` of an `n`-bit word. */
  function Not(w: nat, n: nat): nat {
    if n == 0 then 0 else (if w % 2 == 1 then 0 else 1) + 2 * Not(w / 2, n - 1)
  }

  lemma {:induction false} ZeroHasNoBits(b: nat)
    ensures !Bit(0, b)
  {
    if b > 0 { ZeroHasNoBits(b - 1); }
  }

  lemma {:induction false} OrBits(w: nat, m: nat, b: nat)
    ensures Bit(Or(w, m), b) == (Bit(w, b) || Bit(m, b))
    decreases b
  {
    if w == 0 && m == 0 {
      ZeroHasNoBits(b);
    } else if b > 0 {
      assert Or(w, m) / 2 == Or(w / 2, m / 2);
      OrBits(w / 2, m / 2, b - 1);
    }
  }

  lemma {:induction false} AndBits(w: nat, m: nat, b: nat)
    ensures Bit(And(w, m), b) == (Bit(w, b) && Bit(m, b))
    decreases b
  {
    if w == 0 && m == 0 {
      ZeroHasNoBits(b);
    } else if b > 0 {
      assert And(w, m) / 2 == And(w / 2, m / 2);
      AndBits(w / 2, m / 2, b - 1);
    }
  }

  lemma {:induction false} NotBits(w: nat, n: nat, b: nat)
    ensures Bit(Not(w, n), b) == (b < n && !Bit(w, b))
    decreases b
  {
    if n == 0 {
      ZeroHasNoBits(b);
    } else if b > 0 {
      assert Not(w, n) / 2 == Not(w / 2, n - 1);
      NotBits(w / 2, n - 1, b - 1);
    }
  }

  /** The mask `1 << n` has exactly bit `n`. */
  lemma {:induction false} MaskBits(n: nat, b: nat)
    ensures Bit(Pow2(n), b) == (b == n)
  {
    if n == 0 {
      if b > 0 { ZeroHasNoBits(b - 1); }
    } else if b > 0 {
      assert Pow2(n) / 2 == Pow2(n - 1);
      MaskBits(n - 1, b - 1);
    }
  }

  /** A word is decided by its bits. */
  lemma {:induction false} NoBitsIsZero(w: nat, n: nat)
    requires w < Pow2(n)
    requires forall b | 0 <= b < n :: !Bit(w, b)
    ensures w == 0
  {
    if n > 0 {
      assert !Bit(w, 0);
      forall b | 0 <= b < n - 1 ensures !Bit(w / 2, b) { assert !Bit(w, b + 1); }
      NoBitsIsZero(w / 2, n - 1);
    }
  }

  lemma {:induction false} OnesHaveEveryBit(n: nat, b: nat)
    requires b < n
    ensures Bit(Pow2(n) - 1, b)
  {
    var w := Pow2(n) - 1;
    assert w / 2 == Pow2(n - 1) - 1 && w % 2 == 1;
    if b > 0 { OnesHaveEveryBit(n - 1, b - 1); }
  }

  /** The all-ones word is the only one with every bit. */
  lemma {:induction false} EveryBitIsOnes(w: nat, n: nat)
    requires w < Pow2(n)
    requires forall b | 0 <= b < n :: Bit(w, b)
    ensures w == Pow2(n) - 1
  {
    if n > 0 {
      assert Bit(w, 0);
      forall b | 0 <= b < n - 1 ensures Bit(w / 2, b) { assert Bit(w, b + 1); }
      EveryBitIsOnes(w / 2, n - 1);
    }
  }

  lemma {:induction false} OrRange(w: nat, m: nat, n: nat)
    requires w < Pow2(n) && m < Pow2(n)
    ensures Or(w, m) < Pow2(n)
  {
    if n > 0 && (w != 0 || m != 0) { OrRange(w / 2, m / 2, n - 1); }
  }

  lemma {:induction false} AndRange(w: nat, m: nat, n: nat)
    requires w < Pow2(n)
    ensures And(w, m) < Pow2(n)
  {
    if w != 0 || m != 0 {
      if n == 0 {
        AndRange(w / 2, m / 2, 0);
      } else {
        AndRange(w / 2, m / 2, n - 1);
      }
    }
  }

  lemma {:induction false} Pow2Order(a: nat, b: nat)
    requires a < b
    ensures Pow2(a) < Pow2(b)
  {
    if a + 1 < b { Pow2Order(a, b - 1); }
  }

  /** `w | (1 << b)` on 64-bit words adds exactly bit `b`. */
  lemma SetBit(w: nat, b: nat)
    requires IsWord(w) && b < WORD_BITS
    ensures IsWord(Or(w, Pow2(b)))
    ensures forall c: nat :: Bit(Or(w, Pow2(b)), c) == (c == b || Bit(w, c))
  {
    WordRange();
    Pow2Order(b, WORD_BITS);
    OrRange(w, Pow2(b), WORD_BITS);
    forall c: nat ensures Bit(Or(w, Pow2(b)), c) == (c == b || Bit(w, c)) {
      OrBits(w, Pow2(b), c);
      MaskBits(b, c);
    }
  }

  lemma {:induction false} HighBitsClear(w: nat, n: nat, b: nat)
    requires w < Pow2(n) && n <= b
    ensures !Bit(w, b)
  {
    if n == 0 {
      ZeroHasNoBits(b);
    } else {
      HighBitsClear(w / 2, n - 1, b - 1);
    }
  }

  /** `w & !(1 << b)` on 64-bit words removes exactly bit `b`. */
  lemma ClearBit(w: nat, b: nat)
    requires IsWord(w) && b < WORD_BITS
    ensures IsWord(And(w, Not(Pow2(b), WORD_BITS)))
    ensures forall c: nat :: Bit(And(w, Not(Pow2(b), WORD_BITS)), c) == (c != b && Bit(w, c))
  {
    var m := Not(Pow2(b), WORD_BITS);
    WordRange();
    AndRange(w, m, WORD_BITS);
    forall c: nat ensures Bit(And(w, m), c) == (c != b && Bit(w, c)) {
      AndBits(w, m, c);
      NotBits(Pow2(b), WORD_BITS, c);
      MaskBits(b, c);
      if c >= WORD_BITS { HighBitsClear(w, WORD_BITS, c); }
    }
  }

  /** `w & (1 << b) != 0` tests bit `b`. */
  lemma TestBit(w: nat, b: nat)
    requires IsWord(w) && b < WORD_BITS
    ensures And(w, Pow2(b)) != 0 <==> Bit(w, b)
  {
    WordRange();
    AndRange(w, Pow2(b), WORD_BITS);
    AndBits(w, Pow2(b), b);
    MaskBits(b, b);
    if !Bit(w, b) {
      forall c | 0 <= c < WORD_BITS ensures !Bit(And(w, Pow2(b)), c) {
        AndBits(w, Pow2(b), c);
        MaskBits(b, c);
      }
      NoBitsIsZero(And(w, Pow2(b)), WORD_BITS);
    } else {
      ZeroHasNoBits(b);
    }
  }

  /** `w.trailing_zeros()` of a non-zero word: the position of its lowest set bit. */
  function TrailingZeros(w: nat): (z: nat)
    requires w > 0
    ensures Bit(w, z) && forall b | 0 <= b < z :: !Bit(w, b)
  {
    if w % 2 == 1 then 0
    else
      var z := TrailingZeros(w / 2) + 1;
      assert forall b | 0 <= b < z :: !Bit(w, b) by {
        forall b | 0 <= b < z ensures !Bit(w, b) {
          if b > 0 { assert !Bit(w / 2, b - 1); }
        }
      }
      z
  }

  /** `(!w).trailing_zeros()` of a word that is not all ones: its lowest clear bit. */
  lemma LowestClearBit(w: nat)
    requires IsWord(w) && w != U64_MAX
    ensures Not(w, WORD_BITS) > 0
    ensures var z := TrailingZeros(Not(w, WORD_BITS));
            z < WORD_BITS && !Bit(w, z) && forall b | 0 <= b < z :: Bit(w, b)
  {
    WordRange();
    if forall b | 0 <= b < WORD_BITS :: Bit(w, b) { EveryBitIsOnes(w, WORD_BITS); }
    var free :| 0 <= free < WORD_BITS && !Bit(w, free);
    var v := Not(w, WORD_BITS);
    NotBits(w, WORD_BITS, free);
    ZeroHasNoBits(free);
    var z := TrailingZeros(v);
    NotBits(w, WORD_BITS, z);
    forall b | 0 <= b < z ensures Bit(w, b) { NotBits(w, WORD_BITS, b); }
  }
}
