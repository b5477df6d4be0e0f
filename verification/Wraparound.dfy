/** A run into the wrap of the 32-bit counter: it ends with a closed batch that the iterator does
    not see, although the slices still show it. */
module Wraparound {
  import opened Wrappers
  import opened Bits
  import opened Helpers
  import opened Occupancy
  import opened Protocol
  import opened ProtocolSteps
  import opened Guarantees
  import opened Ranges
  import opened Overflow

  /** Nothing is outstanding after w pushes. */
  ghost predicate Empty<T(!new)>(n: nat, s: State<T>, w: nat)
    requires ValidSize(n)
  {
    Quiet(n, s) && !HasOpen(s) && Total(s) == w && s.occupancy == 0
  }

  /** With nothing outstanding the next push opens a batch, whatever the owner's copy says. */
  lemma OpenOnEmpty<T(!new)>(n: nat, s: State<T>, task: T, w: nat) returns (t: State<T>)
    requires ValidSize(n) && Empty(n, s, w)
    ensures Quiet(n, t) && HasOpen(t) && Total(t) == w + 1
    ensures t.batches != [] && t.batches[|t.batches| - 1].start == w
    ensures t.occupancy == t.localOccupancy == Unit(RegionOf(n, w))
  {
    hide Leads, Unit, RegionOf, And, RegionMask, SlotsTrack, PhaseTracks, Contiguous, GuardsTrack, HandOverTracks;
    WeightFromZero(n, w);
    var s1 := BeginFree(n, s, task);
    var s2 := ReadyToReplaced(n, s1);
    t := OccupyOpened(n, s2, w);
  }

  lemma WeightFromZero(n: nat, w: nat)
    requires ValidSize(n)
    ensures WrappingAdd(0, Unit(RegionOf(n, w))) == Unit(RegionOf(n, w))
  {
    hide Unit, WrappingAdd, OneShifted, RegionMask;
    RegionWords(n, w % n);
    FromZero(Unit(RegionOf(n, w)));
  }

  /** From the start of a lap to any count up to the next, with one batch that is given back. */
  lemma AdvanceInLap<T(!new)>(n: nat, s: State<T>, task: T, k: nat, w: nat) returns (t: State<T>)
    requires ValidSize(n) && Empty(n, s, k * n) && k * n < w <= k * n + n
    ensures Empty(n, t, w)
  {
    hide Leads, Unit, RegionOf, And, RegionMask, Quiet, AtBoundary;
    var s1 := OpenOnEmpty(n, s, task, k * n);
    forall v | k * n + 1 <= v < w && AtBoundary(n, v % n)
      ensures And(s1.localOccupancy, RegionMask(n, v % n)) == 0
    {
      OtherRegionsInLap(n, k, v);
    }
    var s2 := JoinUpTo(n, s1, task, w);
    var s3 := CloseLast(n, s2);
    t := ReleaseLast(n, s3);
  }

  lemma OtherRegionsInLap(n: nat, k: nat, v: nat)
    requires ValidSize(n) && k * n < v < k * n + n && AtBoundary(n, v % n)
    ensures And(Unit(RegionOf(n, k * n)), RegionMask(n, v % n)) == 0
  {
    hide RegionOf, AtBoundary, And, RegionMask, Unit, IsPowerOfTwo;
    LapBlocks(k, RegionSize(n));
    OtherRegions(n, 8 * k, k * n, v);
  }

  lemma OtherRegions(n: nat, m: nat, start: nat, v: nat)
    requires ValidSize(n) && start == m * RegionSize(n) && start < v < start + n && AtBoundary(n, v % n)
    ensures And(Unit(RegionOf(n, start)), RegionMask(n, v % n)) == 0
  {
    hide RegionOf, RegionStart, AtBoundary, And, RegionMask, Unit, IsPowerOfTwo;
    Distribute(m, 8, RegionSize(n));
    Block(n, m, 0);
    BetweenBlocks(n, m, m + 8, v);
    UnitMisses(n, v, RegionOf(n, start));
  }

  lemma LapBlocks(k: nat, size: nat)
    ensures k * (8 * size) == 8 * k * size
  {
  }

  /** k laps, one batch each. */
  lemma {:induction false} Laps<T(!new)>(n: nat, task: T, k: nat) returns (t: State<T>)
    requires ValidSize(n)
    ensures Empty(n, t, k * n)
  {
    hide Quiet, HasOpen;
    if k == 0 {
      QuietStart<T>(n);
      t := Initial(n);
    } else {
      var s := Laps(n, task, k - 1);
      assert (k - 1) * n + n == k * n;
      t := AdvanceInLap(n, s, task, k - 1, k * n);
    }
  }

  /** Up to the last push before the wrap. */
  lemma ReachWrap<T(!new)>(n: nat, task: T) returns (t: State<T>)
    requires ValidSize(n)
    ensures Empty(n, t, COUNTER - 1)
  {
    hide Empty;
    SizeDividesCounter(n);
    var k := COUNTER / n - 1;
    DivisionEquation(COUNTER, n);
    assert k * n + n == COUNTER by { Distribute(k, 1, n); }
    var s := Laps(n, task, k);
    t := AdvanceInLap(n, s, task, k, COUNTER - 1);
  }

  /** For every ring there is a run that ends with a closed batch of two tasks, pushed right before
      and right after the wrap, of which the iterator yields nothing. */
  lemma StraddlingBatchIsMissed<T(!new)>(n: nat, task: T) returns (s: State<T>, b: nat)
    requires ValidSize(n)
    ensures Leads(n, Initial(n), s) && |s.buffer| == n && b < |s.batches| && s.batches[b].status.Bounded?
    ensures s.batches[b].start == COUNTER - 1 && EndOf(s, b) == COUNTER + 1 && |Contents(s, b)| == 2
    ensures !WithinLap(s.batches[b].start, EndOf(s, b))
    ensures IterCells(n, s.buffer, s.batches[b].status.lo, s.batches[b].status.hi) == []
    ensures SliceCells(n, s.buffer, s.batches[b].status.lo, s.batches[b].status.hi)
            == RangeCells(n, s.buffer, s.batches[b].start, EndOf(s, b))
  {
    hide Empty, Leads, And, RegionMask, RegionOf, Unit, IterCells, SliceCells, RangeCells, IsPowerOfTwo;
    var s0 := ReachWrap(n, task);
    var s1 := OpenOnEmpty(n, s0, task, COUNTER - 1);
    WrapIsElsewhere(n);
    var s2 := JoinUpTo(n, s1, task, COUNTER + 1);
    s := CloseLast(n, s2);
    b := |s.batches| - 1;
    SlicesAreTheRange(n, s.buffer, COUNTER - 1, COUNTER + 1);
    IterOfRange(n, s.buffer, COUNTER - 1, COUNTER + 1);
  }

  /** The push after the wrap begins another region than the one before it is in. */
  lemma WrapIsElsewhere(n: nat)
    requires ValidSize(n)
    ensures And(Unit(RegionOf(n, COUNTER - 1)), RegionMask(n, COUNTER % n)) == 0
  {
    hide RegionOf, RegionMask, And, Unit, IsPowerOfTwo;
    var size := RegionSize(n);
    SizeDividesCounter(n);
    DivisionEquation(COUNTER, n);
    var k := 8 * (COUNTER / n);
    BlocksOfLaps(COUNTER / n, size);
    Block(n, k, 0);
    Block(n, k - 1, size - 1);
    UnitMisses(n, COUNTER, RegionOf(n, COUNTER - 1));
  }

  lemma BlocksOfLaps(laps: nat, size: nat)
    requires size > 0 && laps * (8 * size) > 0
    ensures laps > 0 && 8 * laps * size == laps * (8 * size)
    ensures (8 * laps - 1) * size + (size - 1) == laps * (8 * size) - 1
  {
    assert laps > 0;
    assert 8 * laps * size == laps * (8 * size);
    Distribute(8 * laps - 1, 1, size);
  }
}
