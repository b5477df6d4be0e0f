/** The occupancy word: eight byte-wide batch counters, one per region of the ring
    (crates/stack-queue/src/helpers.rs, crates/stack-queue/src/queue.rs). */
module Occupancy {
  import opened Bits
  import opened Helpers

  /** The number a list of counters stands for, least significant counter first. */
  function Pack(counts: seq<nat>): nat {
    if counts == [] then 0 else counts[0] + 256 * Pack(counts[1..])
  }

  function Byte(word: nat, r: nat): nat {
    if r == 0 then word % 256 else Byte(word / 256, r - 1)
  }

  /** The weight of counter r. */
  function Unit(r: nat): nat {
    if r == 0 then 1 else 256 * Unit(r - 1)
  }

  predicate Small(counts: seq<nat>) {
    forall r :: 0 <= r < |counts| ==> counts[r] <= 255
  }

  /** While every counter fits its byte, the bytes of the packed word are the counters. */
  lemma {:induction false} PackBytes(counts: seq<nat>, r: nat)
    requires Small(counts) && r < |counts|
    ensures Byte(Pack(counts), r) == counts[r]
  {
    if r == 0 {
    } else {
      PackBytes(counts[1..], r - 1);
    }
  }

  lemma {:induction false} PackFits(counts: seq<nat>)
    requires Small(counts)
    ensures Pack(counts) < Unit(|counts|)
  {
    if counts == [] {
    } else {
      PackFits(counts[1..]);
    }
  }

  /** Counting one batch more or less in region r moves the word by the weight of r. */
  lemma {:induction false} PackAdd(counts: seq<nat>, r: nat)
    requires r < |counts|
    ensures Pack(counts[r := counts[r] + 1]) == Pack(counts) + Unit(r)
  {
    var more := counts[r := counts[r] + 1];
    if r == 0 {
      assert more[1..] == counts[1..];
    } else {
      PackAdd(counts[1..], r - 1);
      assert more[1..] == counts[1..][r - 1 := counts[r] + 1];
    }
  }

  lemma PackZero(counts: seq<nat>)
    requires forall r :: 0 <= r < |counts| ==> counts[r] == 0
    ensures Pack(counts) == 0
  {
  }

  lemma {:induction false} PackPositive(counts: seq<nat>, r: nat)
    requires r < |counts| && counts[r] > 0
    ensures Pack(counts) > 0
  {
    if r == 0 {
    } else {
      PackPositive(counts[1..], r - 1);
    }
  }

  lemma UnitValues()
    ensures Unit(8) == WORD
  {
    assert Unit(4) == 0x1_0000_0000;
  }

  lemma {:induction false} UnitIsScaled(r: nat)
    ensures Unit(r) == Scaled(1, 8 * r)
  {
    if r > 0 {
      UnitIsScaled(r - 1);
      ScaledSplit(1, 8 * (r - 1), 8);
      ScaledByEight(Unit(r - 1));
    }
  }

  lemma ScaledByEight(x: nat)
    ensures Scaled(x, 8) == 256 * x
  {
    ScaledSplit(x, 4, 4);
    assert Scaled(x, 4) == 16 * x;
    assert Scaled(16 * x, 4) == 16 * (16 * x);
  }

  lemma {:induction false} ByteIsShift(word: nat, r: nat)
    ensures Byte(word, r) == Shr(word, 8 * r) % 256
  {
    if r == 0 {
    } else {
      ByteIsShift(word / 256, r - 1);
      assert Shr(word, 8) == word / 256 by { ShrDivides(word, 8); Pow2Values(); }
      ShrShr(word, 8, 8 * (r - 1));
    }
  }

  lemma {:induction false} ShrShr(x: nat, a: nat, b: nat)
    ensures Shr(Shr(x, a), b) == Shr(x, a + b)
  {
    if a == 0 {
    } else {
      ShrShr(x / 2, a - 1, b);
    }
  }

  lemma {:induction false} UnitMonotone(r: nat, t: nat)
    requires r <= t
    ensures 0 < Unit(r) <= Unit(t)
  {
    if r < t {
      UnitMonotone(r, t - 1);
    } else if r > 0 {
      UnitMonotone(r - 1, t - 1);
    }
  }

  /** The region of a ring index, and the increment and mask the code derives from it. */
  lemma RegionWords(n: nat, index: nat)
    requires ValidSize(n) && index < n
    ensures CurrentRegion(n, index) == index / RegionSize(n) < REGION_COUNT
    ensures OneShifted(n, index) == Unit(CurrentRegion(n, index)) < WORD
    ensures RegionMask(n, index) == 255 * Unit(CurrentRegion(n, index))
  {
    var r := CurrentRegion(n, index);
    RegionBelowCount(n, index);
    TrailingZerosPow2(3);
    Pow2Values();
    assert Scaled(r, 3) == 8 * r;
    ShlScales(r, 3);
    UnitIsScaled(r);
    UnitMonotone(r, 7);
    UnitValues();
    assert Unit(8) == 256 * Unit(7);
    ShlScales(1, 8 * r);
    ScaledByte(1, 8 * r);
    ShlScales(REGION_MASK, 8 * r);
  }

  lemma RegionBelowCount(n: nat, index: nat)
    requires ValidSize(n) && index < n
    ensures CurrentRegion(n, index) == index / RegionSize(n) < REGION_COUNT
  {
    RegionDivides(n, index);
    QuotientBelow(index, RegionSize(n), 8);
  }

  lemma RegionDivides(n: nat, index: nat)
    requires ValidSize(n)
    ensures CurrentRegion(n, index) == index / RegionSize(n)
  {
    SizeIsEightRegions(n);
    ShrDivides(index, RegionShift(n));
  }

  lemma QuotientBelow(x: nat, d: nat, k: nat)
    requires d > 0 && x < k * d
    ensures x / d < k
  {
    var q := x / d;
    assert x == q * d + x % d;
    if q >= k {
      MulMonotone(k, q, d);
    }
  }

  /** The masked test of the code reads exactly the counter of the region. */
  lemma MaskReadsByte(n: nat, index: nat, word: nat)
    requires ValidSize(n) && index < n
    ensures And(word, RegionMask(n, index)) == 0 <==> Byte(word, CurrentRegion(n, index)) == 0
  {
    RegionWords(n, index);
    var r := CurrentRegion(n, index);
    UnitIsScaled(r);
    ScaledByte(1, 8 * r);
    AndShiftedMask(word, 255, 8 * r);
    Pow2Values();
    AndLowMask(Shr(word, 8 * r), 8);
    ByteIsShift(word, r);
  }

  /** The word, kept modulo 2^64, is exact as long as every counter fits its byte: neither the
      addition nor the subtraction carries into a neighbouring counter. */
  lemma PackedWordIsExact(counts: seq<nat>)
    requires |counts| == REGION_COUNT && Small(counts)
    ensures Pack(counts) % WORD == Pack(counts)
    ensures forall r :: 0 <= r < REGION_COUNT ==> Byte(Pack(counts) % WORD, r) == counts[r]
    ensures Pack(counts) == 0 <==> forall r :: 0 <= r < REGION_COUNT ==> counts[r] == 0
  {
    PackFits(counts);
    UnitValues();
    forall r | 0 <= r < REGION_COUNT
      ensures Byte(Pack(counts), r) == counts[r]
    {
      PackBytes(counts, r);
      if counts[r] > 0 {
        PackPositive(counts, r);
      }
    }
    if forall r :: 0 <= r < REGION_COUNT ==> counts[r] == 0 {
      PackZero(counts);
    }
  }

  /** `fetch_add` and `fetch_sub` of a region's increment follow the counters modulo 2^64,
      whatever the counters are. */
  lemma PackedWordSteps(counts: seq<nat>, r: nat)
    requires |counts| == REGION_COUNT && r < REGION_COUNT
    ensures WrappingAdd(Pack(counts) % WORD, Unit(r)) == Pack(counts[r := counts[r] + 1]) % WORD
    ensures counts[r] > 0 ==>
              WrappingSub(Pack(counts) % WORD, Unit(r)) == Pack(counts[r := counts[r] - 1]) % WORD
  {
    PackAdd(counts, r);
    WrapSum(Pack(counts), Unit(r));
    if counts[r] > 0 {
      var less := counts[r := counts[r] - 1];
      PackAdd(less, r);
      assert less[r := less[r] + 1] == counts;
      WrapDifference(Pack(less), Unit(r));
    }
  }

  lemma WrapSum(x: nat, y: nat)
    ensures (x % WORD + y) % WORD == (x + y) % WORD
  {
  }

  lemma WrapDifference(x: nat, y: nat)
    ensures ((x + y) % WORD - y) % WORD == x % WORD
  {
  }
}
