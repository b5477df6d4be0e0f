/** Reading a batch out of the ring (crates/stack-queue/src/assignment.rs): as a pair of slices,
    or cell by cell with the 32-bit counter the guard carries. */
module Ranges {
  import opened Bits
  import opened Helpers

  /** The cells of pushes start..end of a ring of n cells, in order. */
  function RangeCells<C>(n: nat, cells: seq<C>, start: nat, end: nat): (range: seq<C>)
    requires n > 0 && |cells| == n && start <= end
    ensures |range| == end - start
  {
    seq(end - start, k requires 0 <= k < end - start => cells[(start + k) % n])
  }

  /** `as_slices`: the part up to the end of the buffer and the part from its beginning. */
  function Slices(n: nat, lo: nat, hi: nat): (slices: (nat, nat, nat))
    requires ValidSize(n)
  {
    var start, end := And(lo, n - 1), And(hi, n - 1);
    if end > start then (start, end, 0) else (start, n, end)
  }

  lemma SlicesInBounds(n: nat, lo: nat, hi: nat)
    requires ValidSize(n)
    ensures var (from, to, wrapped) := Slices(n, lo, hi); from <= to <= n && wrapped <= n
  {
    AndLowMask(lo, TrailingZeros(n));
    AndLowMask(hi, TrailingZeros(n));
  }

  function SliceCells<C>(n: nat, cells: seq<C>, lo: nat, hi: nat): seq<C>
    requires ValidSize(n) && |cells| == n
  {
    SlicesInBounds(n, lo, hi);
    var (from, to, wrapped) := Slices(n, lo, hi);
    cells[from..to] + cells[..wrapped]
  }

  /** What `BufferIter::next` yields from counter lo on, until it returns None. */
  function IterCells<C>(n: nat, cells: seq<C>, lo: nat, hi: nat): seq<C>
    requires ValidSize(n) && |cells| == n
    decreases hi - lo
  {
    if lo < hi then
      AndLowMask(lo, TrailingZeros(n));
      [cells[And(lo, n - 1)]] + IterCells(n, cells, lo + 1, hi)
    else []
  }

  /** For every range of one to n pushes, also across the wrap of the 32-bit counter, the two
      slices are exactly the cells of the range, in order. */
  lemma SlicesAreTheRange<C>(n: nat, cells: seq<C>, start: nat, end: nat)
    requires ValidSize(n) && |cells| == n && 1 <= end - start <= n
    ensures SliceCells(n, cells, start % COUNTER, end % COUNTER) == RangeCells(n, cells, start, end)
  {
    MaskedCounter(n, start);
    MaskedCounter(n, end);
    TwoPieces(n, cells, start, end, start % n, end % n);
  }

  lemma TwoPieces<C>(n: nat, cells: seq<C>, start: nat, end: nat, from: nat, to: nat)
    requires n > 0 && |cells| == n && 1 <= end - start <= n && from == start % n && to == end % n
    ensures (if to > from then cells[from..to] + cells[..0] else cells[from..n] + cells[..to])
            == RangeCells(n, cells, start, end)
  {
    var pieces := if to > from then cells[from..to] + cells[..0] else cells[from..n] + cells[..to];
    var range := RangeCells(n, cells, start, end);
    WrappedEnd(n, start, end - start);
    assert |pieces| == end - start;
    forall k | 0 <= k < end - start
      ensures pieces[k] == range[k]
    {
      WrappedEnd(n, start, k);
    }
  }

  /** Moving k < n on from start wraps at most once. */
  lemma WrappedEnd(n: nat, start: nat, k: nat)
    requires n > 0 && k <= n
    ensures (start + k) % n == if start % n + k < n then start % n + k else start % n + k - n
  {
    var q, r := start / n, start % n;
    assert start == q * n + r;
    if r + k < n {
      Remainder(start + k, n, q, r + k);
    } else {
      Distribute(q, 1, n);
      Remainder(start + k, n, q + 1, r + k - n);
    }
  }

  /** The cell of position j of a batch that starts at push start. */
  function Place(n: nat, start: nat, j: nat): nat
    requires n > 0
  {
    (start + j) % n
  }

  /** Where the slices of a batch lie: the first from the cell of its first push on, the second,
      if any, from the ring's first cell, short of the first. */
  lemma SlicePlaces(n: nat, start: nat, end: nat)
    requires ValidSize(n) && 1 <= end - start <= n
    ensures var (from, to, wrapped) := Slices(n, start % COUNTER, end % COUNTER);
            && from < to <= n && wrapped <= from && (to - from) + wrapped == end - start
            && start % n == from
            && (wrapped > 0 ==> to == n && (start + (to - from)) % n == 0)
  {
    MaskedCounter(n, start);
    MaskedCounter(n, end);
    WrappedEnd(n, start, end - start);
    WrappedEnd(n, start, n - start % n);
  }

  /** The cells the two slices consist of. */
  predicate InSlices(n: nat, lo: nat, hi: nat, cell: nat)
    requires ValidSize(n)
  {
    var (from, to, wrapped) := Slices(n, lo, hi);
    from <= cell < to || cell < wrapped
  }

  /** The position in the batch that a cell of the slices is met at. */
  function PositionOf(n: nat, lo: nat, hi: nat, cell: nat): int
    requires ValidSize(n)
  {
    var (from, to, _) := Slices(n, lo, hi);
    if from <= cell < to then cell - from else cell + (to - from)
  }

  lemma PositionIsPlace(n: nat, start: nat, end: nat, cell: nat)
    requires ValidSize(n) && 1 <= end - start <= n && cell < n
    requires InSlices(n, start % COUNTER, end % COUNTER, cell)
    ensures 0 <= PositionOf(n, start % COUNTER, end % COUNTER, cell) < end - start
    ensures Place(n, start, PositionOf(n, start % COUNTER, end % COUNTER, cell)) == cell
  {
    SlicePlaces(n, start, end);
    WrappedEnd(n, start, PositionOf(n, start % COUNTER, end % COUNTER, cell));
  }

  /** Different positions of a batch have different cells. */
  lemma SamePlace(n: nat, start: nat, i: nat, j: nat)
    requires i < n && j < n && Place(n, start, i) == Place(n, start, j)
    ensures i == j
  {
    if i < j {
      DistinctCells(n, start + i, start + j);
    } else if j < i {
      DistinctCells(n, start + j, start + i);
    }
  }

  /** And the slices meet the cell of position j as the j-th. */
  lemma PlaceInSlices(n: nat, start: nat, end: nat, j: nat)
    requires ValidSize(n) && 1 <= end - start <= n && j < end - start
    ensures InSlices(n, start % COUNTER, end % COUNTER, Place(n, start, j))
    ensures PositionOf(n, start % COUNTER, end % COUNTER, Place(n, start, j)) == j
  {
    SlicePlaces(n, start, end);
    WrappedEnd(n, start, j);
  }

  /** They are the cells of the batch's positions, no less and no more. */
  lemma SlicesAreThePlaces(n: nat, start: nat, end: nat, cell: nat)
    requires ValidSize(n) && 1 <= end - start <= n && cell < n
    ensures InSlices(n, start % COUNTER, end % COUNTER, cell) <==>
            exists j :: 0 <= j < end - start && Place(n, start, j) == cell
  {
    var (from, to, wrapped) := Slices(n, start % COUNTER, end % COUNTER);
    SlicePlaces(n, start, end);
    forall j | 0 <= j < end - start
      ensures Place(n, start, j) == if j < to - from then from + j else j - (to - from)
    {
      WrappedEnd(n, start, j);
    }
    if from <= cell < to {
      assert Place(n, start, cell - from) == cell;
    } else if cell < wrapped {
      assert Place(n, start, cell + (to - from)) == cell;
    }
  }

  /** An empty range is where the two differ: the slices then show the whole ring. */
  lemma SlicesOfNothing<C>(n: nat, cells: seq<C>, start: nat)
    requires ValidSize(n) && |cells| == n
    ensures |SliceCells(n, cells, start % COUNTER, start % COUNTER)| == n
  {
    SlicesInBounds(n, start % COUNTER, start % COUNTER);
  }

  /** The range does not cross a multiple of 2^32 pushes. */
  predicate WithinLap(start: nat, end: nat) {
    start / COUNTER == end / COUNTER
  }

  /** Short of a straddled wrap the iterator yields the range; across one it yields nothing. */
  lemma IterOfRange<C>(n: nat, cells: seq<C>, start: nat, end: nat)
    requires ValidSize(n) && |cells| == n && 1 <= end - start <= n
    ensures IterCells(n, cells, start % COUNTER, end % COUNTER)
            == if WithinLap(start, end) then RangeCells(n, cells, start, end) else []
  {
    SizeDividesCounter(n);
    if WithinLap(start, end) {
      IterWithinLap(n, cells, start, end);
    } else {
      CounterWraps(start, end);
    }
  }

  lemma CounterWraps(start: nat, end: nat)
    requires start <= end <= start + COUNTER / 2 && !WithinLap(start, end)
    ensures end % COUNTER < start % COUNTER
  {
  }

  lemma {:induction false} IterWithinLap<C>(n: nat, cells: seq<C>, start: nat, end: nat)
    requires ValidSize(n) && |cells| == n && start <= end && WithinLap(start, end)
    ensures IterCells(n, cells, start % COUNTER, end % COUNTER) == RangeCells(n, cells, start, end)
    decreases end - start
  {
    if start < end {
      CounterAdvances(start, end);
      IterWithinLap(n, cells, start + 1, end);
      MaskedCounter(n, start);
      RangeHead(n, cells, start, end);
    }
  }

  lemma CounterAdvances(start: nat, end: nat)
    requires start < end && WithinLap(start, end)
    ensures start % COUNTER < end % COUNTER && WithinLap(start + 1, end)
    ensures start + 1 < end ==> (start + 1) % COUNTER == start % COUNTER + 1
    ensures start + 1 == end ==> end % COUNTER == start % COUNTER + 1
  {
  }

  lemma RangeHead<C>(n: nat, cells: seq<C>, start: nat, end: nat)
    requires n > 0 && |cells| == n && start < end
    ensures RangeCells(n, cells, start, end) == [cells[start % n]] + RangeCells(n, cells, start + 1, end)
  {
    var whole, tail := RangeCells(n, cells, start, end), RangeCells(n, cells, start + 1, end);
    assert forall k :: 0 <= k < |tail| ==> whole[k + 1] == cells[(start + (k + 1)) % n] == tail[k];
  }

  /** The three readers agree exactly while the batch does not straddle the counter's wrap. */
  lemma ReadersAgree<C>(n: nat, cells: seq<C>, start: nat, end: nat)
    requires ValidSize(n) && |cells| == n && 1 <= end - start <= n
    ensures IterCells(n, cells, start % COUNTER, end % COUNTER) == SliceCells(n, cells, start % COUNTER, end % COUNTER)
            <==> WithinLap(start, end)
  {
    SlicesAreTheRange(n, cells, start, end);
    IterOfRange(n, cells, start, end);
  }
}
