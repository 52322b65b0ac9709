/** Bitwise operations on the integers, bit by bit from the lowest. Euclidean halving is the
    arithmetic right shift, so two's-complement negatives are covered. */
module Bits {

  function Pow2(k: nat): (p: int)
    ensures p >= 1
  {
    if k == 0 then 1 else 2 * Pow2(k - 1)
  }

  predicate Bit(w: int, i: nat)
    decreases i
  {
    if i == 0 then w % 2 == 1 else Bit(w / 2, i - 1)
  }

  function And(x: int, mask: nat): (r: nat)
    decreases mask
  {
    if mask == 0 then 0
    else (if x % 2 == 1 && mask % 2 == 1 then 1 else 0) + 2 * And(x / 2, mask / 2)
  }

  function Xor(a: nat, b: nat): (r: nat)
    decreases a + b
  {
    if a == 0 && b == 0 then 0
    else (if a % 2 != b % 2 then 1 else 0) + 2 * Xor(a / 2, b / 2)
  }

  function CountOnes(n: nat): nat {
    if n == 0 then 0 else n % 2 + CountOnes(n / 2)
  }

  function TrailingZeros(w: nat): nat
    requires w > 0
  {
    if w % 2 == 1 then 0 else 1 + TrailingZeros(w / 2)
  }

  lemma {:induction false} AndBit(x: int, mask: nat, i: nat)
    ensures Bit(And(x, mask), i) <==> Bit(x, i) && Bit(mask, i)
    decreases i
  {
    if i == 0 {
    } else if mask == 0 {
      ZeroBit(i);
    } else {
      AndBit(x / 2, mask / 2, i - 1);
    }
  }

  lemma {:induction false} XorBit(a: nat, b: nat, i: nat)
    ensures Bit(Xor(a, b), i) <==> Bit(a, i) != Bit(b, i)
    decreases i
  {
    if i == 0 {
    } else if a == 0 && b == 0 {
      ZeroBit(i);
    } else {
      XorBit(a / 2, b / 2, i - 1);
    }
  }

  lemma {:induction false} ZeroBit(i: nat)
    ensures !Bit(0, i)
    decreases i
  {
    if i == 0 {
    } else {
      ZeroBit(i - 1);
    }
  }

  lemma {:induction false} OnesBit(n: nat, i: nat)
    ensures Bit(Pow2(n) - 1, i) <==> i < n
    decreases i
  {
    if n == 0 {
      ZeroBit(i);
    } else if i == 0 {
    } else {
      assert (Pow2(n) - 1) / 2 == Pow2(n - 1) - 1;
      OnesBit(n - 1, i - 1);
    }
  }

  /** n one-bits from position start: `((1 << n) - 1) << start`. */
  function RangeMask(start: nat, n: nat): nat {
    (Pow2(n) - 1) * Pow2(start)
  }

  lemma {:induction false} RangeMaskBit(start: nat, n: nat, i: nat)
    ensures Bit(RangeMask(start, n), i) <==> start <= i < start + n
    decreases start
  {
    if start == 0 {
      OnesBit(n, i);
    } else if i == 0 {
      assert RangeMask(start, n) == 2 * RangeMask(start - 1, n);
    } else {
      assert RangeMask(start, n) == 2 * RangeMask(start - 1, n);
      RangeMaskBit(start - 1, n, i - 1);
    }
  }

  /** The lowest set bit, if there is one. */
  lemma {:induction false} TrailingZerosIsLowest(w: nat)
    requires w > 0
    ensures Bit(w, TrailingZeros(w))
    ensures forall i :: 0 <= i < TrailingZeros(w) ==> !Bit(w, i)
  {
    if w % 2 == 1 {
    } else {
      TrailingZerosIsLowest(w / 2);
      forall i | 0 <= i < TrailingZeros(w) ensures !Bit(w, i) {
        if i > 0 { assert !Bit(w / 2, i - 1); }
      }
    }
  }

  lemma {:induction false} PowersHaveOneBit(k: nat)
    ensures CountOnes(Pow2(k)) == 1
  {
    if k == 0 {
    } else {
      PowersHaveOneBit(k - 1);
    }
  }

  lemma {:induction false} OneBitIsPower(n: nat) returns (k: nat)
    requires CountOnes(n) == 1
    ensures n == Pow2(k)
  {
    if n % 2 == 0 {
      k := OneBitIsPower(n / 2);
      k := k + 1;
    } else {
      NoBitsIsZero(n / 2);
      k := 0;
    }
  }

  lemma {:induction false} NoBitsIsZero(n: nat)
    requires CountOnes(n) == 0
    ensures n == 0
  {
    if n == 0 {
    } else {
      NoBitsIsZero(n / 2);
    }
  }
}
