/** Index and region arithmetic of a ring of n cells (crates/stack-queue/src/helpers.rs),
    in the 64-bit configuration: eight regions, eight counter bits per region. */
module Helpers {
  import opened Bits

  const REGION_MASK: nat := 0xFF
  const REGION_COUNT: nat := 8
  const PHASE: nat := 1
  const INDEX_SHIFT: nat := 32
  const MIN_BUFFER_LEN: nat := 64
  const MAX_BUFFER_LEN: nat := 0xFFFF_FFFF

  /** One step of the counter kept above the flag bits. */
  const SLOT_STEP: nat := 0x1_0000_0000

  /** The counter itself is 32 bits wide. */
  const COUNTER: nat := 0x1_0000_0000

  /** The sizes the `local_queue` attribute admits. */
  predicate ValidSize(n: nat) {
    MIN_BUFFER_LEN <= n <= MAX_BUFFER_LEN && IsPowerOfTwo(n)
  }

  function RegionSize(n: nat): (size: nat)
    requires ValidSize(n)
    ensures size >= 8 && n == 8 * size
  {
    SizeIsEightRegions(n);
    Shr(n, 3)
  }

  function RegionShift(n: nat): nat
    requires ValidSize(n)
  {
    SizeIsEightRegions(n);
    TrailingZeros(n) - 3
  }

  function CurrentRegion(n: nat, index: nat): nat
    requires ValidSize(n)
  {
    Shr(index, RegionShift(n))
  }

  function RegionMask(n: nat, index: nat): nat
    requires ValidSize(n)
  {
    Shl(REGION_MASK, Shl(CurrentRegion(n, index), TrailingZeros(REGION_COUNT)))
  }

  function SlotIndex(n: nat, slot: nat): nat
    requires ValidSize(n)
  {
    And(Shr(slot, INDEX_SHIFT), n - 1)
  }

  function OneShifted(n: nat, index: nat): nat
    requires ValidSize(n)
  {
    Shl(1, Shl(Shr(index, RegionShift(n)), TrailingZeros(REGION_COUNT)))
  }

  /** A valid size is eight regions of at least eight cells, and divides the counter range. */
  lemma SizeIsEightRegions(n: nat)
    requires ValidSize(n)
    ensures 6 <= TrailingZeros(n) <= 31
    ensures Shr(n, 3) == Pow2(TrailingZeros(n) - 3) >= 8 && n == 8 * Shr(n, 3)
  {
    var k := TrailingZeros(n);
    Pow2Values();
    if k < 6 {
      Pow2Monotone(k, 5);
    } else if k > 31 {
      Pow2Monotone(32, k);
    }
    Pow2Monotone(3, k - 3);
    Pow2Add(3, k - 3);
    ShrDivides(n, 3);
  }

  lemma SizeDividesCounter(n: nat)
    requires ValidSize(n)
    ensures COUNTER % n == 0 && 2 * n <= COUNTER
  {
    SizeIsEightRegions(n);
    Pow2Values();
    var k := TrailingZeros(n);
    Pow2Add(32 - k, k);
    Pow2Monotone(1, 32 - k);
    MultipleOf(Pow2(32 - k), n);
  }

  lemma MultipleOf(p: nat, n: nat)
    requires p >= 2 && n > 0
    ensures p * n % n == 0 && 2 * n <= p * n
  {
    Remainder(p * n, n, p, 0);
    MulMonotone(2, p, n);
  }

  /** The slot word after w pushes: the counter modulo 2^32 above a phase bit. */
  function SlotWord(w: nat, phase: nat): (slot: nat)
    requires phase <= 1
    ensures slot < WORD
  {
    w % COUNTER * SLOT_STEP + phase
  }

  lemma SlotWordParts(w: nat, phase: nat)
    requires phase <= 1
    ensures Shr(SlotWord(w, phase), INDEX_SHIFT) == w % COUNTER
    ensures SlotWord(w, phase) % 2 == phase
    ensures WrappingAdd(SlotWord(w, phase), SLOT_STEP) == SlotWord(w + 1, phase)
    ensures Xor(SlotWord(w, phase), PHASE) == SlotWord(w, 1 - phase)
  {
    WordParts(w % COUNTER, phase);
    WordStep(w % COUNTER, phase);
    NextMod(w, COUNTER);
    XorOne(SlotWord(w, phase));
  }

  lemma WordParts(c: nat, flags: nat)
    requires flags < SLOT_STEP
    ensures Shr(c * SLOT_STEP + flags, INDEX_SHIFT) == c
    ensures (c * SLOT_STEP + flags) % 2 == flags % 2
  {
    Pow2Values();
    ShrDivides(c * SLOT_STEP + flags, INDEX_SHIFT);
  }

  lemma WordStep(c: nat, flags: nat)
    requires c < COUNTER && flags < SLOT_STEP
    ensures WrappingAdd(c * SLOT_STEP + flags, SLOT_STEP) == (c + 1) % COUNTER * SLOT_STEP + flags
  {
    if c + 1 < COUNTER {
    } else {
      assert c * SLOT_STEP + flags + SLOT_STEP == WORD + flags;
    }
  }

  /** Shifting out the flags and masking with n - 1 gives the ring index of the counter. */
  lemma SlotIndexOf(n: nat, w: nat, phase: nat)
    requires ValidSize(n) && phase <= 1
    ensures SlotIndex(n, SlotWord(w, phase)) == w % n
  {
    SlotWordParts(w, phase);
    MaskedCounter(n, w);
  }

  /** Masking a 32-bit counter agrees with the unbounded count, because n divides 2^32. */
  lemma MaskedCounter(n: nat, w: nat)
    requires ValidSize(n)
    ensures And(w % COUNTER, n - 1) == w % n
  {
    AndLowMask(w % COUNTER, TrailingZeros(n));
    SizeDividesCounter(n);
    ModOfMod(w, COUNTER, n);
  }

  lemma ModOfMod(w: nat, d: nat, n: nat)
    requires n > 0 && d > 0 && d % n == 0
    ensures w % d % n == w % n
  {
    var k, q, r := d / n, w / d, w % d;
    assert d == k * n;
    assert w == d * q + r;
    assert r == r / n * n + r % n;
    assert w == (k * q + r / n) * n + r % n by { Regroup(k, n, q, r / n); }
    Remainder(w, n, k * q + r / n, r % n);
  }

  lemma Regroup(k: nat, n: nat, q: nat, t: nat)
    ensures k * n * q + t * n == (k * q + t) * n
  {
    assert (k * q + t) * n == k * q * n + t * n;
    assert k * q * n == k * (q * n) == k * (n * q) == k * n * q;
  }

  /** For every 64-bit word: advancing the counter keeps the flag bits and moves the index by
      one around the ring; flipping the phase keeps the index and changes only that bit. */
  lemma SlotArithmetic(n: nat, slot: nat)
    requires ValidSize(n) && slot < WORD
    ensures WrappingAdd(slot, SLOT_STEP) % SLOT_STEP == slot % SLOT_STEP
    ensures SlotIndex(n, WrappingAdd(slot, SLOT_STEP)) == (SlotIndex(n, slot) + 1) % n
    ensures SlotIndex(n, Xor(slot, PHASE)) == SlotIndex(n, slot)
    ensures Xor(slot, PHASE) / 2 == slot / 2 && Xor(slot, PHASE) % 2 != slot % 2
    ensures Xor(Xor(slot, PHASE), PHASE) == slot
  {
    var c, flags := slot / SLOT_STEP, slot % SLOT_STEP;
    assert slot == c * SLOT_STEP + flags;
    IndexOfWord(n, c, flags);
    AdvanceWord(n, c, flags);
    FlipWord(n, c, flags);
    FlipLowBit(slot);
  }

  lemma IndexOfWord(n: nat, c: nat, flags: nat)
    requires ValidSize(n) && c < COUNTER && flags < SLOT_STEP
    ensures SlotIndex(n, c * SLOT_STEP + flags) == c % n
  {
    WordParts(c, flags);
    MaskedCounter(n, c);
    SmallRemainder(c, COUNTER);
  }

  lemma SmallRemainder(x: nat, d: nat)
    requires x < d
    ensures x % d == x
  {
  }

  lemma AdvanceWord(n: nat, c: nat, flags: nat)
    requires ValidSize(n) && c < COUNTER && flags < SLOT_STEP
    ensures WrappingAdd(c * SLOT_STEP + flags, SLOT_STEP) % SLOT_STEP == flags
    ensures SlotIndex(n, WrappingAdd(c * SLOT_STEP + flags, SLOT_STEP)) == (c % n + 1) % n
  {
    WordStep(c, flags);
    IndexOfWord(n, (c + 1) % COUNTER, flags);
    SizeDividesCounter(n);
    ModOfMod(c + 1, COUNTER, n);
    NextMod(c, n);
  }

  lemma FlipWord(n: nat, c: nat, flags: nat)
    requires ValidSize(n) && c < COUNTER && flags < SLOT_STEP
    ensures SlotIndex(n, Xor(c * SLOT_STEP + flags, PHASE)) == c % n
  {
    hide SlotIndex, Xor, Shr, IsPowerOfTwo;
    var flip := if flags % 2 == 0 then flags + 1 else flags - 1;
    WordParts(c, flags);
    XorOne(c * SLOT_STEP + flags);
    IndexOfWord(n, c, flip);
  }

  lemma FlipLowBit(slot: nat)
    ensures Xor(slot, PHASE) / 2 == slot / 2 && Xor(slot, PHASE) % 2 != slot % 2
    ensures Xor(Xor(slot, PHASE), PHASE) == slot
  {
    XorOne(slot);
    XorOne(Xor(slot, PHASE));
  }

  lemma NextMod(c: nat, n: nat)
    requires n > 1
    ensures (c + 1) % n == (c % n + 1) % n
  {
    DivisionEquation(c, n);
    NextInLap(c / n, c % n, n);
    NextInLap(0, c % n, n);
  }

  lemma NextInLap(q: nat, r: nat, n: nat)
    requires r < n
    ensures (q * n + r + 1) % n == if r + 1 < n then r + 1 else 0
  {
    if r + 1 < n {
      Remainder(q * n + r + 1, n, q, r + 1);
    } else {
      Distribute(q, 1, n);
      Remainder(q * n + r + 1, n, q + 1, 0);
    }
  }

  /** The region a push lands in when w tasks were pushed before it. */
  function RegionOf(n: nat, w: nat): nat
    requires ValidSize(n)
  {
    CurrentRegion(n, w % n)
  }

  /** The count at which the region holding push w began. */
  function RegionStart(n: nat, w: nat): (start: nat)
    requires ValidSize(n)
    ensures start <= w
  {
    RemainderFits(w, RegionSize(n));
    w - w % RegionSize(n)
  }

  lemma RemainderFits(w: nat, d: nat)
    requires d > 0
    ensures w % d <= w
  {
  }

  /** The test that recognises the first cell of a region. */
  predicate AtBoundary(n: nat, index: nat)
    requires ValidSize(n)
  {
    And(index, RegionSize(n) - 1) == 0
  }

  lemma RegionOfBlock(n: nat, w: nat)
    requires ValidSize(n)
    ensures RegionOf(n, w) == w / RegionSize(n) % REGION_COUNT
    ensures RegionStart(n, w) == w / RegionSize(n) * RegionSize(n)
  {
    hide IsPowerOfTwo;
    BlockInLap(w, RegionSize(n));
    SizeIsEightRegions(n);
    ShrDivides(w % n, RegionShift(n));
    DivisionEquation(w, RegionSize(n));
  }

  lemma DivisionEquation(w: nat, d: nat)
    requires d > 0
    ensures w - w % d == w / d * d
  {
  }

  /** Eight blocks make a lap: the place of a block in its lap is its number modulo eight. */
  lemma BlockInLap(w: nat, size: nat)
    requires size > 0
    ensures w % (8 * size) / size == w / size % 8
  {
    var b, t := w / size, w % size;
    assert w == b * size + t;
    BlockSplit(b, t, size);
    MulMonotone(b % 8, 7, size);
    Remainder(w, 8 * size, b / 8, b % 8 * size + t);
    Remainder(w % (8 * size), size, b % 8, t);
  }

  lemma BlockSplit(b: nat, t: nat, size: nat)
    ensures b * size + t == b / 8 * (8 * size) + (b % 8 * size + t)
  {
    Distribute(b / 8 * 8, b % 8, size);
    assert b / 8 * 8 * size == b / 8 * (8 * size);
  }

  lemma Distribute(a: nat, b: nat, c: nat)
    ensures (a + b) * c == a * c + b * c
  {
  }

  lemma BoundaryOf(n: nat, w: nat)
    requires ValidSize(n)
    ensures AtBoundary(n, w % n) <==> RegionStart(n, w) == w
  {
    BoundaryMask(n, w % n);
    RegionSizeDivides(n);
    ModOfMod(w, n, RegionSize(n));
  }

  lemma BoundaryMask(n: nat, index: nat)
    requires ValidSize(n)
    ensures And(index, RegionSize(n) - 1) == index % RegionSize(n)
  {
    SizeIsEightRegions(n);
    var size, k := RegionSize(n), TrailingZeros(n) - 3;
    assert size == Pow2(k) by {
      SizeIsEightRegions(n);
    }
    AndLowMask(index, k);
  }

  lemma RegionSizeDivides(n: nat)
    requires ValidSize(n)
    ensures n % RegionSize(n) == 0
  {
    Remainder(n, RegionSize(n), 8, 0);
  }

  /** Two counts less than n apart share no ring index. */
  lemma DistinctCells(n: nat, i: nat, w: nat)
    requires n > 0 && i < w < i + n
    ensures i % n != w % n
  {
    if i % n == w % n {
      assert w - i == (w / n - i / n) * n by {
        assert w == w / n * n + w % n;
        assert i == i / n * n + i % n;
      }
      SmallMultiple(w / n - i / n, n);
    }
  }

  /** A region's first cell comes round again exactly n pushes later: short of that count, or at
      a count that does not begin a region, or that begins another one, there is room left. */
  lemma RoomBeforeLap(n: nat, start: nat, w: nat)
    requires ValidSize(n) && start <= w <= RegionStart(n, start) + n
    requires RegionStart(n, w) != w || RegionOf(n, w) != RegionOf(n, start)
    ensures w < RegionStart(n, start) + n
  {
    hide IsPowerOfTwo, RegionOf, RegionStart;
    RegionOfBlock(n, start);
    RegionOfBlock(n, w);
    if w == RegionStart(n, start) + n {
      OneLapLater(start / RegionSize(n), RegionSize(n), w);
    }
  }

  lemma OneLapLater(b: nat, size: nat, w: nat)
    requires size > 0 && w == b * size + 8 * size
    ensures w / size == b + 8 && w / size * size == w
  {
    Distribute(b, 8, size);
    Remainder(w, size, b + 8, 0);
  }

  /** Within one lap, equal regions mean the same stretch of counts. */
  lemma SameRegionSameStretch(n: nat, start: nat, later: nat)
    requires ValidSize(n) && start <= later < RegionStart(n, start) + n
    requires RegionOf(n, start) == RegionOf(n, later)
    ensures RegionStart(n, later) == RegionStart(n, start)
  {
    var size := RegionSize(n);
    RegionOfBlock(n, start);
    RegionOfBlock(n, later);
    assert later == later / size * size + later % size;
    SameBlock(start / size, later / size, size, start, later);
  }

  lemma SameBlock(b: nat, c: nat, size: nat, start: nat, later: nat)
    requires b * size <= start <= later < b * size + 8 * size
    requires c * size <= later < c * size + size
    requires b % 8 == c % 8
    ensures b == c
  {
    Distribute(b, 8, size);
    Distribute(c, 1, size);
    if b + 8 <= c {
      MulMonotone(b + 8, c, size);
    } else if c < b {
      MulMonotone(c + 1, b, size);
    }
  }
}
