/** Bitwise operations on machine words, with words modelled as naturals.
    The operations are defined bit by bit, so that the arithmetic reading of a mask, a
    shift or a flip is something to prove and not something assumed. */
module Bits {

  /** Number of values of a 64-bit `usize`. */
  const WORD: nat := 0x1_0000_0000_0000_0000

  function Pow2(k: nat): (p: nat)
    ensures p >= 1
  {
    if k == 0 then 1 else 2 * Pow2(k - 1)
  }

  function And(x: nat, y: nat): nat {
    if x == 0 || y == 0 then 0
    else (if x % 2 == 1 && y % 2 == 1 then 1 else 0) + 2 * And(x / 2, y / 2)
  }

  function Xor(x: nat, y: nat): nat
    decreases x + y
  {
    if x == 0 && y == 0 then 0
    else (if x % 2 != y % 2 then 1 else 0) + 2 * Xor(x / 2, y / 2)
  }

  function Shr(x: nat, k: nat): nat {
    if k == 0 then x else Shr(x / 2, k - 1)
  }

  /** The bits shifted out at the top of the word are lost. */
  function Shl(x: nat, k: nat): nat
    decreases k
  {
    if k == 0 then x else Shl(2 * x % WORD, k - 1)
  }

  function WrappingAdd(x: nat, y: nat): nat {
    (x + y) % WORD
  }

  function WrappingSub(x: nat, y: nat): nat {
    (x - y) % WORD
  }

  function TrailingZeros(x: nat): (k: nat)
    requires x > 0
    ensures Pow2(k) <= x
  {
    if x % 2 == 1 then 0 else 1 + TrailingZeros(x / 2)
  }

  predicate IsPowerOfTwo(x: nat) {
    x > 0 && x == Pow2(TrailingZeros(x))
  }

  lemma {:induction false} Pow2Add(a: nat, b: nat)
    ensures Pow2(a + b) == Pow2(a) * Pow2(b)
  {
    if a == 0 {
    } else {
      Pow2Add(a - 1, b);
    }
  }

  lemma {:induction false} Pow2Monotone(a: nat, b: nat)
    requires a <= b
    ensures Pow2(a) <= Pow2(b)
  {
    if a < b {
      Pow2Monotone(a, b - 1);
    }
  }

  lemma Pow2Values()
    ensures Pow2(3) == 8 && Pow2(5) == 32 && Pow2(8) == 256 && Pow2(32) == 0x1_0000_0000
  {
    Pow2Add(4, 4);
    Pow2Add(8, 8);
    Pow2Add(16, 16);
  }

  lemma {:induction false} TrailingZerosPow2(k: nat)
    ensures TrailingZeros(Pow2(k)) == k
  {
    if k == 0 {
    } else {
      TrailingZerosPow2(k - 1);
      assert Pow2(k) / 2 == Pow2(k - 1);
    }
  }

  /** A mask of low bits takes the remainder. */
  lemma {:induction false} AndLowMask(x: nat, k: nat)
    ensures And(x, Pow2(k) - 1) == x % Pow2(k)
  {
    if k == 0 {
    } else if x == 0 {
    } else {
      var m := Pow2(k) - 1;
      assert m / 2 == Pow2(k - 1) - 1 && m % 2 == 1;
      AndLowMask(x / 2, k - 1);
      assert And(x, m) == x % 2 + 2 * (x / 2 % Pow2(k - 1));
      ModHalves(x, Pow2(k - 1));
    }
  }

  lemma ModHalves(x: nat, p: nat)
    requires p > 0
    ensures x % (2 * p) == x % 2 + 2 * (x / 2 % p)
  {
    var q := x / 2 / p;
    assert x / 2 == q * p + x / 2 % p;
    var r := x % 2 + 2 * (x / 2 % p);
    assert x == q * (2 * p) + r;
    Remainder(x, 2 * p, q, r);
  }

  /** Quotient and remainder are determined by the division equation. */
  lemma Remainder(x: nat, d: nat, q: nat, r: nat)
    requires d > 0 && r < d && x == q * d + r
    ensures x / d == q && x % d == r
  {
    var q', r' := x / d, x % d;
    assert x == q' * d + r';
    assert (q - q') * d == r' - r;
    SmallMultiple(q - q', d);
  }

  lemma SmallMultiple(k: int, d: int)
    requires -d < k * d < d
    ensures k == 0
  {
  }

  lemma {:induction false} ShrDivides(x: nat, k: nat)
    ensures Shr(x, k) == x / Pow2(k)
  {
    if k == 0 {
    } else {
      ShrDivides(x / 2, k - 1);
      DivHalf(x, Pow2(k - 1));
    }
  }

  lemma DivHalf(x: nat, p: nat)
    requires p > 0
    ensures x / 2 / p == x / (2 * p)
  {
    var q := x / 2 / p;
    assert x / 2 == q * p + x / 2 % p;
    Remainder(x, 2 * p, q, x % 2 + 2 * (x / 2 % p));
  }

  /** Doubling k times, without a word size. */
  function Scaled(x: nat, k: nat): nat
    decreases k
  {
    if k == 0 then x else Scaled(2 * x, k - 1)
  }

  lemma {:induction false} ScaledGrows(x: nat, k: nat)
    ensures Scaled(x, k) >= x
    decreases k
  {
    if k > 0 {
      ScaledGrows(2 * x, k - 1);
    }
  }

  lemma {:induction false} ScaledDoubles(x: nat, k: nat)
    ensures Scaled(2 * x, k) == 2 * Scaled(x, k)
    decreases k
  {
    if k > 0 {
      ScaledDoubles(2 * x, k - 1);
    }
  }

  lemma {:induction false} ScaledSplit(x: nat, a: nat, b: nat)
    ensures Scaled(Scaled(x, a), b) == Scaled(x, a + b)
    decreases a
  {
    if a > 0 {
      ScaledSplit(2 * x, a - 1, b);
    }
  }

  lemma {:induction false} ScaledByte(x: nat, k: nat)
    ensures Scaled(255 * x, k) == 255 * Scaled(x, k)
    decreases k
  {
    if k > 0 {
      assert 2 * (255 * x) == 255 * (2 * x);
      ScaledByte(2 * x, k - 1);
    }
  }

  /** A left shift that loses no bits doubles k times. */
  lemma {:induction false} ShlScales(x: nat, k: nat)
    requires Scaled(x, k) < WORD
    ensures Shl(x, k) == Scaled(x, k)
    decreases k
  {
    if k > 0 {
      ScaledGrows(2 * x, k - 1);
      ShlScales(2 * x, k - 1);
    }
  }

  lemma MulMonotone(x: nat, y: nat, a: nat)
    requires x <= y
    ensures a * x <= a * y
  {
  }

  /** Testing a word against a mask moved up by k bits tests the word moved down. */
  lemma {:induction false} AndShiftedMask(x: nat, y: nat, k: nat)
    ensures And(x, Scaled(y, k)) == 0 <==> And(Shr(x, k), y) == 0
  {
    if k > 0 {
      ScaledDoubles(y, k - 1);
      AndDouble(x, Scaled(y, k - 1));
      AndShiftedMask(x / 2, y, k - 1);
    }
  }

  lemma {:induction false} AndDouble(x: nat, y: nat)
    ensures And(x, 2 * y) == 2 * And(x / 2, y)
  {
    if x == 0 || y == 0 {
    } else {
      assert 2 * y / 2 == y && 2 * y % 2 == 0;
    }
  }

  /** Flipping the lowest bit leaves every other bit alone. */
  lemma XorOne(x: nat)
    ensures Xor(x, 1) == if x % 2 == 0 then x + 1 else x - 1
  {
    XorZero(x / 2);
  }

  lemma {:induction false} XorZero(x: nat)
    ensures Xor(x, 0) == x
  {
    if x > 0 {
      XorZero(x / 2);
    }
  }

  /** The lowest bit of an exclusive or says whether the lowest bits differ. */
  lemma XorLowBit(x: nat, y: nat)
    ensures And(Xor(x, y), 1) == 0 <==> x % 2 == y % 2
  {
    var z := Xor(x, y);
    AndLowMask(z, 1);
    assert Pow2(1) == 2;
  }
}
