/**
 Bitwise operations on unsigned integers, defined bit by bit, and what the masks
 of a register file mean in arithmetic.
 */
module Bits {
  import opened Arithmetic

  function Pow2(k: nat): (r: nat)
    ensures r > 0
  {
    if k == 0 then 1 else 2 * Pow2(k - 1)
  }

  function And(x: nat, y: nat): nat
    decreases x
  {
    if x == 0 then 0 else (if x % 2 == 1 && y % 2 == 1 then 1 else 0) + 2 * And(x / 2, y / 2)
  }

  function Or(x: nat, y: nat): nat
    decreases x + y
  {
    if x == 0 && y == 0 then 0
    else (if x % 2 == 1 || y % 2 == 1 then 1 else 0) + 2 * Or(x / 2, y / 2)
  }

  function Xor(x: nat, y: nat): nat
    decreases x + y
  {
    if x == 0 && y == 0 then 0
    else (if x % 2 != y % 2 then 1 else 0) + 2 * Xor(x / 2, y / 2)
  }

  /** Complement in a `width`-bit word. */
  function Not(x: nat, width: nat): nat
    requires x < Pow2(width)
  {
    Pow2(width) - 1 - x
  }

  /** The low `k` bits. */
  function Low(x: nat, k: nat): (r: nat)
    ensures r < Pow2(k)
    decreases k
  {
    if k == 0 then 0 else x % 2 + 2 * Low(x / 2, k - 1)
  }

  /** Everything above the low `k` bits. */
  function Shr(x: nat, k: nat): nat
    decreases k
  {
    if k == 0 then x else Shr(x / 2, k - 1)
  }

  predicate Bit(x: nat, k: nat) {
    Shr(x, k) % 2 == 1
  }

  // ---- Arithmetic meaning of truncation and shifts --------------------------------

  lemma Twice(a: nat, b: nat, c: nat)
    requires c == 2 * a
    ensures c * b == 2 * (a * b)
  {
  }

  lemma Recombine(x: nat, h: nat, q: nat, low: nat)
    requires x / 2 == h * q + low
    ensures x == 2 * (h * q) + (x % 2 + 2 * low)
  {
  }

  lemma {:induction false} Split(x: nat, k: nat)
    ensures x == Pow2(k) * Shr(x, k) + Low(x, k)
    decreases k
  {
    if k > 0 {
      var h, q, low := Pow2(k - 1), Shr(x / 2, k - 1), Low(x / 2, k - 1);
      assert x / 2 == h * q + low by {
        Split(x / 2, k - 1);
      }
      Twice(h, q, Pow2(k));
      Recombine(x, h, q, low);
    }
  }

  /** Truncation is the remainder, a right shift is the quotient. */
  lemma LowIsMod(x: nat, k: nat)
    ensures Low(x, k) == x % Pow2(k) && Shr(x, k) == x / Pow2(k)
  {
    Split(x, k);
    DivModIs(x, Pow2(k), Shr(x, k), Low(x, k));
  }

  lemma {:induction false} LowSmall(x: nat, k: nat)
    requires x < Pow2(k)
    ensures Low(x, k) == x && Shr(x, k) == 0
    decreases k
  {
    if k > 0 {
      LowSmall(x / 2, k - 1);
    }
  }

  lemma {:induction false} LowLow(x: nat, j: nat, k: nat)
    requires j <= k
    ensures Low(Low(x, k), j) == Low(x, j)
    decreases j
  {
    if j > 0 {
      LowLow(x / 2, j - 1, k - 1);
    }
  }

  lemma {:induction false} ShrSum(x: nat, j: nat, k: nat)
    ensures Shr(Shr(x, j), k) == Shr(x, j + k)
    decreases j
  {
    if j > 0 {
      ShrSum(x / 2, j - 1, k);
    }
  }

  lemma {:induction false} Pow2Sum(j: nat, k: nat)
    ensures Pow2(j + k) == Pow2(j) * Pow2(k)
    decreases j
  {
    if j > 0 {
      Pow2Sum(j - 1, k);
      Twice(Pow2(j - 1), Pow2(k), Pow2(j));
    }
  }

  lemma {:induction false} Pow2Le(j: nat, k: nat)
    requires j <= k
    ensures Pow2(j) <= Pow2(k)
    decreases k
  {
    if j < k {
      Pow2Le(j, k - 1);
    }
  }

  lemma Pow2Values()
    ensures Pow2(3) == 8 && Pow2(6) == 64 && Pow2(7) == 128 && Pow2(20) == 0x10_0000 && Pow2(24) == 0x100_0000
    ensures Pow2(31) == 0x8000_0000 && Pow2(32) == 0x1_0000_0000 && Pow2(64) == 0x1_0000_0000_0000_0000
  {
    assert Pow2(4) == 16 && Pow2(7) == 128 && Pow2(8) == 256;
    Pow2Sum(8, 8);
    Pow2Sum(4, 16);
    Pow2Sum(8, 16);
    Pow2Sum(16, 16);
    Pow2Sum(7, 24);
    Pow2Sum(32, 32);
  }

  lemma Pow2Of20()
    ensures Pow2(20) == 0x10_0000
  {
    Pow2Values();
  }

  lemma Pow2Of24()
    ensures Pow2(24) == 0x100_0000
  {
    Pow2Values();
  }

  lemma Pow2Of32()
    ensures Pow2(32) == 0x1_0000_0000
  {
    Pow2Values();
  }

  lemma Pow2Of31()
    ensures Pow2(31) == 0x8000_0000
  {
    Pow2Values();
  }

  // ---- Masks ------------------------------------------------------------------------

  lemma Halves(x: nat, y: nat)
    ensures And(x, y) / 2 == And(x / 2, y / 2) && And(x, y) % 2 == (if x % 2 == 1 && y % 2 == 1 then 1 else 0)
    ensures Or(x, y) / 2 == Or(x / 2, y / 2) && Or(x, y) % 2 == (if x % 2 == 1 || y % 2 == 1 then 1 else 0)
    ensures Xor(x, y) / 2 == Xor(x / 2, y / 2) && Xor(x, y) % 2 == (if x % 2 != y % 2 then 1 else 0)
  {
  }

  lemma LowHalf(x: nat, k: nat)
    requires k > 0
    ensures Low(x, k) / 2 == Low(x / 2, k - 1) && Low(x, k) % 2 == x % 2
  {
  }

  /** Bitwise operations commute with truncation and with shifting. */
  lemma {:induction false} LowAnd(x: nat, y: nat, k: nat)
    ensures Low(And(x, y), k) == And(Low(x, k), Low(y, k))
    decreases k
  {
    if k > 0 {
      LowAnd(x / 2, y / 2, k - 1);
      Halves(x, y);
      Halves(Low(x, k), Low(y, k));
      LowHalf(x, k);
      LowHalf(y, k);
      LowHalf(And(x, y), k);
      hide And, Low;
    }
  }

  lemma {:induction false} LowOr(x: nat, y: nat, k: nat)
    ensures Low(Or(x, y), k) == Or(Low(x, k), Low(y, k))
    decreases k
  {
    if k > 0 {
      LowOr(x / 2, y / 2, k - 1);
      Halves(x, y);
      Halves(Low(x, k), Low(y, k));
      LowHalf(x, k);
      LowHalf(y, k);
      LowHalf(Or(x, y), k);
      hide Or, Low;
    }
  }

  lemma {:induction false} ShrOps(x: nat, y: nat, k: nat)
    ensures Shr(And(x, y), k) == And(Shr(x, k), Shr(y, k))
    ensures Shr(Or(x, y), k) == Or(Shr(x, k), Shr(y, k))
    ensures Shr(Xor(x, y), k) == Xor(Shr(x, k), Shr(y, k))
    decreases k
  {
    if k > 0 {
      ShrOps(x / 2, y / 2, k - 1);
      Halves(x, y);
    }
  }

  /** Bitwise operations act on each bit alone. */
  lemma BitOps(x: nat, y: nat, k: nat)
    ensures Bit(And(x, y), k) <==> Bit(x, k) && Bit(y, k)
    ensures Bit(Or(x, y), k) <==> Bit(x, k) || Bit(y, k)
    ensures Bit(Xor(x, y), k) <==> Bit(x, k) != Bit(y, k)
  {
    ShrOps(x, y, k);
    Halves(Shr(x, k), Shr(y, k));
  }

  lemma {:induction false} AndZero(x: nat)
    ensures And(x, 0) == 0
    decreases x
  {
    if x > 0 {
      AndZero(x / 2);
    }
  }

  lemma {:induction false} OrZero(x: nat)
    ensures Or(x, 0) == x && Or(0, x) == x
    decreases x
  {
    if x > 0 {
      OrZero(x / 2);
    }
  }

  /** The low mask keeps the low bits. */
  lemma {:induction false} AndMask(x: nat, k: nat)
    ensures And(x, Pow2(k) - 1) == Low(x, k)
    decreases k
  {
    if k == 0 {
      AndZero(x);
    } else {
      AndMask(x / 2, k - 1);
      assert (Pow2(k) - 1) / 2 == Pow2(k - 1) - 1 && (Pow2(k) - 1) % 2 == 1;
      Halves(x, Pow2(k) - 1);
    }
  }

  /** A single-bit mask tests that bit. */
  lemma {:induction false} AndBit(x: nat, k: nat)
    ensures And(x, Pow2(k)) == if Bit(x, k) then Pow2(k) else 0
    decreases k
  {
    Halves(x, Pow2(k));
    if k == 0 {
      AndZero(x / 2);
    } else {
      AndBit(x / 2, k - 1);
      assert Pow2(k) % 2 == 0 && Pow2(k) / 2 == Pow2(k - 1);
    }
  }

  /** A single bit under a mask. */
  lemma {:induction false} BitAnd(mask: nat, k: nat)
    ensures And(Pow2(k), mask) == if Bit(mask, k) then Pow2(k) else 0
    decreases k
  {
    Halves(Pow2(k), mask);
    if k > 0 {
      BitAnd(mask / 2, k - 1);
      assert Pow2(k) % 2 == 0 && Pow2(k) / 2 == Pow2(k - 1);
    }
  }

  /** Clearing the low `k` bits of a `width`-bit word. */
  lemma {:induction false} AndHigh(x: nat, k: nat, width: nat)
    requires k <= width && x < Pow2(width)
    ensures Pow2(k) <= Pow2(width)
    ensures And(x, Not(Pow2(k) - 1, width)) == x - Low(x, k)
    decreases k
  {
    Pow2Le(k, width);
    if k == 0 {
      AndMask(x, width);
      LowSmall(x, width);
    } else {
      AndHigh(x / 2, k - 1, width - 1);
      var y := Not(Pow2(k) - 1, width);
      assert y % 2 == 0 && y / 2 == Not(Pow2(k - 1) - 1, width - 1);
      Halves(x, y);
    }
  }

  /** Disjoint fields add up. */
  lemma {:induction false} OrDisjoint(x: nat, y: nat, k: nat)
    requires Low(x, k) == 0 && y < Pow2(k)
    ensures Or(x, y) == x + y
    decreases k
  {
    if k == 0 {
      OrZero(x);
    } else {
      OrDisjoint(x / 2, y / 2, k - 1);
      Halves(x, y);
    }
  }

  lemma {:induction false} XorZero(x: nat)
    ensures Xor(x, x) == 0 && Xor(0, x) == x && Xor(x, 0) == x
    decreases x
  {
    if x > 0 {
      XorZero(x / 2);
    }
  }

  /** Truncation one bit wider adds that bit. */
  lemma {:induction false} LowTop(x: nat, k: nat)
    ensures Low(x, k + 1) == Low(x, k) + if Bit(x, k) then Pow2(k) else 0
    decreases k
  {
    if k > 0 {
      LowTop(x / 2, k - 1);
    }
  }

  /** What remains after removing the low bits has no low bits. */
  lemma LowCleared(x: nat, k: nat)
    ensures Low(x, k) <= x && Low(x - Low(x, k), k) == 0
  {
    Split(x, k);
    MulLe(Pow2(k), 0, Shr(x, k));
    DivModIs(x - Low(x, k), Pow2(k), Shr(x, k), 0);
    LowIsMod(x - Low(x, k), k);
  }

  /** A power of two has a single bit. */
  lemma {:induction false} BitPow2(k: nat, j: nat)
    ensures Bit(Pow2(k), j) <==> j == k
    decreases k
  {
    if k == 0 {
      ShrOne(j);
    } else if j > 0 {
      BitPow2(k - 1, j - 1);
    }
  }

  lemma {:induction false} ShrOne(j: nat)
    ensures Shr(1, j) == if j == 0 then 1 else 0
    decreases j
  {
    if j > 0 {
      ShrZero(j - 1);
    }
  }

  lemma {:induction false} ShrZero(j: nat)
    ensures Shr(0, j) == 0 && Low(0, j) == 0
    decreases j
  {
    if j > 0 {
      ShrZero(j - 1);
    }
  }

  lemma {:induction false} AndLe(x: nat, y: nat)
    ensures And(x, y) <= x && And(x, y) <= y
    decreases x
  {
    if x > 0 {
      AndLe(x / 2, y / 2);
    }
  }

  lemma {:induction false} OrBound(x: nat, y: nat, k: nat)
    requires x < Pow2(k) && y < Pow2(k)
    ensures Or(x, y) < Pow2(k)
    decreases k
  {
    if k > 0 {
      OrBound(x / 2, y / 2, k - 1);
      Halves(x, y);
    }
  }

  /** Toggling one bit. */
  lemma {:induction false} XorBit(x: nat, k: nat)
    ensures Bit(x, k) ==> Pow2(k) <= x
    ensures Xor(x, Pow2(k)) == if Bit(x, k) then x - Pow2(k) else x + Pow2(k)
    decreases k
  {
    Halves(x, Pow2(k));
    if k == 0 {
      XorZero(x / 2);
    } else {
      XorBit(x / 2, k - 1);
      assert Pow2(k) % 2 == 0 && Pow2(k) / 2 == Pow2(k - 1);
    }
  }

  /** The top bit of a word of `k + 1` bits. */
  lemma TopBit(x: nat, k: nat)
    requires x < 2 * Pow2(k)
    ensures Bit(x, k) <==> Pow2(k) <= x
  {
    LowIsMod(x, k);
    if x < Pow2(k) {
      DivModIs(x, Pow2(k), 0, x);
    } else {
      DivModIs(x, Pow2(k), 1, x - Pow2(k));
    }
  }
}
