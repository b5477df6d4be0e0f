/** Every step of the protocol keeps its invariant. */
module ProtocolSteps {
  import opened Wrappers
  import opened Bits
  import opened Helpers
  import opened Occupancy
  import opened Protocol

  // ---------------------------------------------------------------- slots, phases and ranges

  lemma InitialShape<T>(n: nat)
    requires ValidSize(n)
    ensures Shape(n, Initial<T>(n))
  {
  }

  lemma BeginShape<T>(n: nat, s: State<T>, task: T)
    requires ValidSize(n) && Shape(n, s) && s.owner.Idle?
    ensures Shape(n, BeginPush(n, s, task))
  {
    SlotIndexOf(n, Total(s), s.localSlot % 2);
  }

  lemma AddShape<T>(n: nat, s: State<T>)
    requires ValidSize(n) && Shape(n, s) && s.owner.Written?
    ensures Shape(n, AdvanceSlot(s))
  {
    hide SlotsTrack, OwnerTracks, HandOverTracks, Contiguous, GuardsTrack;
    AddTracks(n, s);
    XorLowBit(s.slot, s.localSlot);
    if s.slot % 2 == s.localSlot % 2 {
      AddJoins(n, s, AdvanceSlot(s));
    } else {
      AddOpens(n, s, AdvanceSlot(s));
    }
  }

  lemma AddTracks<T>(n: nat, s: State<T>)
    requires ValidSize(n) && SlotsTrack(n, s) && OwnerTracks(n, s) && s.owner.Written?
    ensures SlotsTrack(n, AdvanceSlot(s)) && OwnerTracks(n, AdvanceSlot(s))
    ensures AdvanceSlot(s).slot % 2 == s.slot % 2
  {
    SlotWordParts(Total(s), s.slot % 2);
    SlotWordParts(Total(s) + 1, s.slot % 2);
  }

  lemma AddJoins<T>(n: nat, s: State<T>, t: State<T>)
    requires ValidSize(n) && Shape(n, s) && s.owner.Written? && t == AdvanceSlot(s)
    requires HasOpen(s) && t.batches == s.batches && t.slot % 2 == s.slot % 2 == s.localSlot % 2
    ensures Contiguous(t) && GuardsTrack(t) && HandOverTracks(t) && PhaseTracks(t)
  {
    forall b | 0 <= b < |s.batches| - 1
      ensures EndOf(t, b) == EndOf(s, b)
    {
    }
  }

  lemma AddOpens<T>(n: nat, s: State<T>, t: State<T>)
    requires ValidSize(n) && Shape(n, s) && s.owner.Written? && t == AdvanceSlot(s)
    requires !HasOpen(s) && t.batches == s.batches + [Batch(Total(s), s.slot, Forming)]
    requires t.slot % 2 == s.slot % 2 != s.localSlot % 2
    ensures Contiguous(t) && GuardsTrack(t) && HandOverTracks(t) && PhaseTracks(t)
  {
    forall b | 0 <= b < |s.batches|
      ensures t.batches[b] == s.batches[b] && EndOf(t, b) == EndOf(s, b) && t.batches[b].Ended()
    {
    }
  }

  lemma ReplaceShape<T>(n: nat, s: State<T>)
    requires ValidSize(n) && Shape(n, s) && s.owner.Added?
    ensures Shape(n, ReplaceLocal(s))
  {
    var t, phase := ReplaceLocal(s), s.owner.base % 2;
    SlotWordParts(Total(s) - 1, phase);
    SlotWordParts(Total(s), phase);
    assert t.localSlot == SlotWord(Total(s), phase) && t.localSlot % 2 == phase;
    assert t.owner == if phase == s.localSlot % 2 then Idle(Joined) else Opening(s.owner.index) by {
      XorLowBit(s.owner.base, s.localSlot);
    }
    SameRanges(s, t);
    assert HandOverTracks(t);
  }

  /** The ranges depend on the pushes and the batches only. */
  lemma SameRanges<T>(s: State<T>, t: State<T>)
    requires t.pushed == s.pushed && t.batches == s.batches
    ensures Contiguous(s) ==> Contiguous(t)
    ensures GuardsTrack(s) ==> GuardsTrack(t)
  {
    assert forall b :: 0 <= b < |s.batches| ==> EndOf(t, b) == EndOf(s, b);
  }

  lemma LocalShape<T>(n: nat, s: State<T>, a: Action<T>)
    requires ValidSize(n) && Shape(n, s) && Step(n, s, a).Some?
    requires a.Load? || a.StoreLoaded? || a.Write?
    ensures Shape(n, Step(n, s, a).value)
  {
    SameRanges(s, Step(n, s, a).value);
  }

  lemma OccupyShape<T>(n: nat, s: State<T>)
    requires ValidSize(n) && Shape(n, s) && s.owner.Opening? && s.batches != []
    ensures Shape(n, OccupyRegion(n, s))
  {
    var t := OccupyRegion(n, s);
    assert forall b :: 0 <= b < |s.batches| ==> EndOf(t, b) == EndOf(s, b);
  }

  lemma HandOverShape<T>(n: nat, s: State<T>)
    requires ValidSize(n) && Shape(n, s) && s.owner.Occupied? && s.batches != []
    ensures Shape(n, HandOver(s))
  {
    var t := HandOver(s);
    assert forall b :: 0 <= b < |s.batches| ==> EndOf(t, b) == EndOf(s, b);
  }

  lemma CloseShape<T>(n: nat, s: State<T>, b: nat)
    requires ValidSize(n) && Shape(n, s) && b < |s.batches| && s.batches[b].status.Open?
    ensures Shape(n, CloseBatch(s, b))
  {
    var t := CloseBatch(s, b);
    assert t.slot == SlotWord(Total(s), 1 - s.slot % 2) && t.slot % 2 == 1 - s.slot % 2 by {
      SlotWordParts(Total(s), s.slot % 2);
      SlotWordParts(Total(s), 1 - s.slot % 2);
    }
    assert s.slot % 2 == JoinPhase(s) && b == |s.batches| - 1;
    CloseRanges(n, s, b);
  }

  lemma CloseRanges<T>(n: nat, s: State<T>, b: nat)
    requires ValidSize(n) && SlotsTrack(n, s) && Contiguous(s) && GuardsTrack(s)
    requires b < |s.batches| && s.batches[b].status.Open?
    ensures Contiguous(CloseBatch(s, b)) && GuardsTrack(CloseBatch(s, b))
  {
    var t := CloseBatch(s, b);
    assert Shr(s.batches[b].base, INDEX_SHIFT) == s.batches[b].start % COUNTER by {
      SlotWordParts(s.batches[b].start, s.batches[b].base % 2);
    }
    assert Shr(s.slot, INDEX_SHIFT) == Total(s) % COUNTER by {
      SlotWordParts(Total(s), s.slot % 2);
    }
    assert forall c :: 0 <= c < |s.batches| ==> EndOf(t, c) == EndOf(s, c);
  }

  lemma ReleaseShape<T>(n: nat, s: State<T>, b: nat)
    requires ValidSize(n) && Shape(n, s) && b < |s.batches| && s.batches[b].status.Bounded?
    ensures Shape(n, ReleaseBatch(n, s, b))
  {
    var t := ReleaseBatch(n, s, b);
    assert forall c :: 0 <= c < |s.batches| ==> EndOf(t, c) == EndOf(s, c);
  }

  lemma StepShape<T>(n: nat, s: State<T>, a: Action<T>)
    requires ValidSize(n) && Shape(n, s) && Step(n, s, a).Some?
    ensures Shape(n, Step(n, s, a).value)
  {
    match a
    case Begin(task) => BeginShape(n, s, task);
    case Load => LocalShape(n, s, a);
    case StoreLoaded => LocalShape(n, s, a);
    case Write => LocalShape(n, s, a);
    case AddSlot => AddShape(n, s);
    case ReplaceSlot => ReplaceShape(n, s);
    case Occupy => OccupyShape(n, s);
    case StoreOccupied => HandOverShape(n, s);
    case Close(b) => CloseShape(n, s, b);
    case Deoccupy(b) => ReleaseShape(n, s, b);
  }

  // ---------------------------------------------------------------- counting batches

  lemma {:induction false} CountZero(n: nat, batches: seq<Batch>, r: nat)
    requires ValidSize(n)
    ensures CountIn(n, batches, r) == 0 <==>
            forall b :: 0 <= b < |batches| && batches[b].InWord() ==> RegionOf(n, batches[b].start) != r
  {
    if batches == [] {
    } else {
      var last := |batches| - 1;
      CountZero(n, batches[..last], r);
      assert forall b :: 0 <= b < last ==> batches[..last][b] == batches[b];
    }
  }

  /** Replacing one batch changes the count by the difference of the two. */
  lemma {:induction false} CountReplaced(n: nat, batches: seq<Batch>, b: nat, batch: Batch, r: nat)
    requires ValidSize(n) && b < |batches|
    ensures CountIn(n, batches[b := batch], r) + (if Weighs(n, batches[b], r) then 1 else 0)
            == CountIn(n, batches, r) + (if Weighs(n, batch, r) then 1 else 0)
  {
    var last := |batches| - 1;
    if b == last {
      assert batches[b := batch][..last] == batches[..last];
    } else {
      assert batches[b := batch][..last] == batches[..last][b := batch];
      CountReplaced(n, batches[..last], b, batch, r);
    }
  }

  predicate Weighs(n: nat, batch: Batch, r: nat)
    requires ValidSize(n)
  {
    batch.InWord() && RegionOf(n, batch.start) == r
  }

  lemma RegionInRange(n: nat, w: nat)
    requires ValidSize(n)
    ensures RegionOf(n, w) < REGION_COUNT
  {
    RegionWords(n, w % n);
  }

  /** Counting in one batch adds one to the counter of the region it starts in. */
  lemma CountsGain(n: nat, batches: seq<Batch>, b: nat, status: Status)
    requires ValidSize(n) && b < |batches|
    requires !batches[b].InWord() && batches[b].(status := status).InWord()
    ensures RegionOf(n, batches[b].start) < REGION_COUNT
    ensures var r := RegionOf(n, batches[b].start);
            Counts(n, WithStatus(batches, b, status)) == Counts(n, batches)[r := Counts(n, batches)[r] + 1]
  {
    RegionInRange(n, batches[b].start);
    forall r | 0 <= r < REGION_COUNT
      ensures CountIn(n, WithStatus(batches, b, status), r) ==
              CountIn(n, batches, r) + if r == RegionOf(n, batches[b].start) then 1 else 0
    {
      CountReplaced(n, batches, b, batches[b].(status := status), r);
    }
  }

  lemma CountsLose(n: nat, batches: seq<Batch>, b: nat, status: Status)
    requires ValidSize(n) && b < |batches|
    requires batches[b].InWord() && !batches[b].(status := status).InWord()
    ensures RegionOf(n, batches[b].start) < REGION_COUNT
    ensures var r := RegionOf(n, batches[b].start);
            Counts(n, batches)[r] > 0 &&
            Counts(n, WithStatus(batches, b, status)) == Counts(n, batches)[r := Counts(n, batches)[r] - 1]
  {
    RegionInRange(n, batches[b].start);
    forall r | 0 <= r < REGION_COUNT
      ensures CountIn(n, WithStatus(batches, b, status), r) ==
              CountIn(n, batches, r) - if r == RegionOf(n, batches[b].start) then 1 else 0
    {
      CountReplaced(n, batches, b, batches[b].(status := status), r);
    }
  }

  lemma CountsKept(n: nat, batches: seq<Batch>, b: nat, status: Status)
    requires ValidSize(n) && b < |batches|
    requires batches[b].InWord() == batches[b].(status := status).InWord()
    ensures Counts(n, WithStatus(batches, b, status)) == Counts(n, batches)
  {
    forall r | 0 <= r < REGION_COUNT
      ensures CountIn(n, WithStatus(batches, b, status), r) == CountIn(n, batches, r)
    {
      CountReplaced(n, batches, b, batches[b].(status := status), r);
    }
  }

  lemma CountsAppend(n: nat, batches: seq<Batch>, batch: Batch)
    requires ValidSize(n) && !batch.InWord()
    ensures Counts(n, batches + [batch]) == Counts(n, batches)
  {
    assert (batches + [batch])[..|batches|] == batches;
  }

  // ---------------------------------------------------------------- no live cell is overwritten

  /** A copy that covers the counters and whose masked byte is zero shows the region is free. */
  lemma MaskedZeroMeansFree<T>(n: nat, s: State<T>, index: nat, word: nat)
    requires ValidSize(n) && index < n && AtLeast(word, Counts(n, s.batches))
    requires And(word, RegionMask(n, index)) == 0
    ensures forall b :: 0 <= b < |s.batches| && s.batches[b].InWord() ==>
              RegionOf(n, s.batches[b].start) != CurrentRegion(n, index)
  {
    var r := CurrentRegion(n, index);
    RegionWords(n, index);
    MaskReadsByte(n, index, word);
    assert Counts(n, s.batches)[r] == 0;
    CountZero(n, s.batches, r);
  }

  /** Whoever is about to write, or has just written, is short of a full lap ahead of the region
      of every live batch, also of those that span several regions. */
  lemma RoomToWrite<T>(n: nat, s: State<T>, b: nat)
    requires ValidSize(n) && Shape(n, s) && Protected(n, s) && Cleared(n, s)
    requires s.owner.Ready? || s.owner.Written?
    requires b < |s.batches| && s.batches[b].Live()
    ensures Total(s) < RegionStart(n, s.batches[b].start) + n
  {
    assert s.batches[b].InWord();
    BoundaryOf(n, Total(s));
    RoomBeforeLap(n, s.batches[b].start, Total(s));
  }

  lemma BeginSafe<T>(n: nat, s: State<T>, task: T)
    requires ValidSize(n) && Inv(n, s) && s.owner.Idle?
    ensures Cleared(n, BeginPush(n, s, task))
  {
    SlotIndexOf(n, Total(s), s.localSlot % 2);
    var index := SlotIndex(n, s.localSlot);
    if AtBoundary(n, index) && And(s.localOccupancy, RegionMask(n, index)) == 0 {
      MaskedZeroMeansFree(n, s, index, s.localOccupancy);
    }
  }

  lemma DecideSafe<T>(n: nat, s: State<T>)
    requires ValidSize(n) && Inv(n, s) && s.owner.Loaded?
    ensures Cleared(n, Decide(n, s))
  {
    if And(s.owner.seen, RegionMask(n, s.owner.index)) == 0 {
      MaskedZeroMeansFree(n, s, s.owner.index, s.owner.seen);
    }
  }

  lemma WriteCells<T>(n: nat, s: State<T>)
    requires ValidSize(n) && Shape(n, s) && Protected(n, s) && Cleared(n, s) && CellsHold(n, s) && s.owner.Ready?
    ensures s.owner.index < |s.buffer| && CellsHold(n, WriteCell(s))
  {
    forall b | 0 <= b < |s.batches| && s.batches[b].Live()
      ensures Total(s) < s.batches[b].start + n
    {
      RoomToWrite(n, s, b);
    }
    CellsAfterWrite(n, s);
  }

  lemma CellsAfterWrite<T>(n: nat, s: State<T>)
    requires ValidSize(n) && CellsHold(n, s) && s.owner.Ready? && s.owner.index == Total(s) % n
    requires forall b :: 0 <= b < |s.batches| && s.batches[b].Live() ==> Total(s) < s.batches[b].start + n
    ensures CellsHold(n, WriteCell(s))
  {
    var t := WriteCell(s);
    forall b: nat, i: nat | b < |t.batches|
      ensures CellHolds(n, t, b, i)
    {
      assert EndOf(t, b) == EndOf(s, b);
      assert CellHolds(n, s, b, i);
      if s.batches[b].Live() && s.batches[b].start <= i < EndOf(s, b) {
        DistinctCells(n, i, Total(s));
      }
    }
  }

  lemma AddCells<T>(n: nat, s: State<T>)
    requires ValidSize(n) && Inv(n, s) && s.owner.Written?
    ensures CellsHold(n, AdvanceSlot(s))
  {
    var t := AdvanceSlot(s);
    assert s.owner.index == Total(s) % n && s.buffer[s.owner.index] == Some(s.owner.task);
    assert forall b: nat :: b < |t.batches| ==> EndOf(t, b) <= Total(s) + 1;
    forall b: nat, i: nat | b < |t.batches|
      ensures CellHolds(n, t, b, i)
    {
      if t.batches[b].start <= i < Total(s) && i < EndOf(t, b) {
        assert b < |s.batches| && t.batches[b] == s.batches[b];
        assert CellHolds(n, s, b, i);
      }
    }
  }

  lemma AddProtected<T>(n: nat, s: State<T>)
    requires ValidSize(n) && Inv(n, s) && s.owner.Written?
    ensures Protected(n, AdvanceSlot(s))
  {
    var t := AdvanceSlot(s);
    forall b | 0 <= b < |t.batches| && t.batches[b].Live()
      ensures Total(t) <= RegionStart(n, t.batches[b].start) + n
    {
      if b < |s.batches| {
        RoomToWrite(n, s, b);
      }
    }
  }

  /** The cells of live batches stay right where neither the tasks nor the ranges change. */
  lemma CellsKept<T>(n: nat, s: State<T>, t: State<T>)
    requires ValidSize(n) && CellsHold(n, s)
    requires t.pushed == s.pushed && t.buffer == s.buffer && |t.batches| == |s.batches|
    requires forall b :: 0 <= b < |s.batches| && t.batches[b].Live() ==>
               s.batches[b].Live() && t.batches[b].start == s.batches[b].start && EndOf(t, b) == EndOf(s, b)
    requires t.owner.Written? ==> t.owner == s.owner
    ensures CellsHold(n, t)
  {
    forall b: nat, i: nat | b < |t.batches|
      ensures CellHolds(n, t, b, i)
    {
      assert CellHolds(n, s, b, i);
    }
  }

  /** Where only the status of one batch moves on, and not back to life, safety stays. */
  lemma StatusSafe<T>(n: nat, s: State<T>, t: State<T>, b: nat, status: Status)
    requires ValidSize(n) && Protected(n, s) && Cleared(n, s) && CellsHold(n, s) && b < |s.batches|
    requires t.pushed == s.pushed && t.buffer == s.buffer && t.batches == WithStatus(s.batches, b, status)
    requires t.batches[b].Live() ==> s.batches[b].Live() && EndOf(t, b) == EndOf(s, b)
    requires || (t.owner == s.owner && (t.batches[b].InWord() ==> s.batches[b].InWord()))
             || (!t.owner.Ready? && !t.owner.Written?)
    ensures Protected(n, t) && Cleared(n, t) && CellsHold(n, t)
  {
    assert forall c :: 0 <= c < |s.batches| && c != b ==> EndOf(t, c) == EndOf(s, c);
    CellsKept(n, s, t);
  }

  /** The owner's steps that move neither the queue nor the buffer. */
  lemma OwnerSafe<T>(n: nat, s: State<T>, a: Action<T>)
    requires ValidSize(n) && Inv(n, s) && Step(n, s, a).Some?
    requires a.Begin? || a.Load? || a.StoreLoaded? || a.ReplaceSlot?
    ensures var t := Step(n, s, a).value; Protected(n, t) && Cleared(n, t) && CellsHold(n, t)
  {
    var t := Step(n, s, a).value;
    assert forall b :: 0 <= b < |s.batches| ==> EndOf(t, b) == EndOf(s, b);
    CellsKept(n, s, t);
    match a
    case Begin(task) => BeginSafe(n, s, task);
    case StoreLoaded => DecideSafe(n, s);
    case _ =>
  }

  lemma StepSafe<T>(n: nat, s: State<T>, a: Action<T>)
    requires ValidSize(n) && Inv(n, s) && Step(n, s, a).Some?
    ensures var t := Step(n, s, a).value; Protected(n, t) && Cleared(n, t) && CellsHold(n, t)
  {
    var t := Step(n, s, a).value;
    match a
    case Write => WriteCells(n, s);
    case AddSlot => AddCells(n, s); AddProtected(n, s);
    case Occupy => StatusSafe(n, s, t, |s.batches| - 1, Counted);
    case StoreOccupied => StatusSafe(n, s, t, |s.batches| - 1, Open);
    case Close(b) => StatusSafe(n, s, t, b, t.batches[b].status);
    case Deoccupy(b) => StatusSafe(n, s, t, b, t.batches[b].status);
    case _ => OwnerSafe(n, s, a);
  }

  // ---------------------------------------------------------------- the word counts the batches

  lemma OccupyWord<T>(n: nat, s: State<T>)
    requires ValidSize(n) && Shape(n, s) && WordTracks(n, s) && s.owner.Opening?
    ensures s.batches != [] && WordTracks(n, OccupyRegion(n, s))
  {
    var last := |s.batches| - 1;
    CountsGain(n, s.batches, last, Counted);
    RegionWords(n, s.owner.index);
    PackedWordSteps(Counts(n, s.batches), RegionOf(n, s.batches[last].start));
  }

  lemma ReleaseWord<T>(n: nat, s: State<T>, b: nat)
    requires ValidSize(n) && Shape(n, s) && WordTracks(n, s) && b < |s.batches| && s.batches[b].status.Bounded?
    ensures WordTracks(n, ReleaseBatch(n, s, b))
  {
    var Bounded(end, lo, _) := s.batches[b].status;
    CountsLose(n, s.batches, b, Released(end));
    MaskedCounter(n, s.batches[b].start);
    RegionWords(n, And(lo, n - 1));
    PackedWordSteps(Counts(n, s.batches), RegionOf(n, s.batches[b].start));
  }

  lemma StepWord<T>(n: nat, s: State<T>, a: Action<T>)
    requires ValidSize(n) && Shape(n, s) && WordTracks(n, s) && Step(n, s, a).Some?
    ensures WordTracks(n, Step(n, s, a).value)
  {
    var t := Step(n, s, a).value;
    match a
    case AddSlot => CountsAppend(n, s.batches, Batch(|s.pushed|, s.slot, Forming));
    case Occupy => OccupyWord(n, s);
    case StoreOccupied => CountsKept(n, s.batches, |s.batches| - 1, Open);
    case Close(b) => CountsKept(n, s.batches, b, t.batches[b].status);
    case Deoccupy(b) => ReleaseWord(n, s, b);
    case _ =>
  }

  /** With every counter in its byte, the word itself covers the counters. */
  lemma WordCovers<T>(n: nat, s: State<T>)
    requires ValidSize(n) && WordTracks(n, s) && SmallCounts(n, s)
    ensures AtLeast(s.occupancy, Counts(n, s.batches))
  {
    PackedWordIsExact(Counts(n, s.batches));
  }

  /** And it is zero exactly when no counted batch is outstanding. */
  lemma WordZero<T>(n: nat, s: State<T>)
    requires ValidSize(n) && WordTracks(n, s) && SmallCounts(n, s)
    ensures s.occupancy == 0 <==> forall b :: 0 <= b < |s.batches| ==> !s.batches[b].InWord()
  {
    var counts := Counts(n, s.batches);
    PackedWordIsExact(counts);
    if s.occupancy == 0 {
      forall b | 0 <= b < |s.batches|
        ensures !s.batches[b].InWord()
      {
        var r := RegionOf(n, s.batches[b].start);
        RegionInRange(n, s.batches[b].start);
        assert counts[r] == 0;
        CountZero(n, s.batches, r);
      }
    } else {
      var r :| 0 <= r < REGION_COUNT && counts[r] != 0;
      CountZero(n, s.batches, r);
    }
  }

  lemma StepCopies<T>(n: nat, s: State<T>, a: Action<T>)
    requires ValidSize(n) && HandOverTracks(s) && WordTracks(n, s) && SmallCounts(n, s) && CopiesCover(n, s)
    requires Step(n, s, a).Some?
    requires WordTracks(n, Step(n, s, a).value) && SmallCounts(n, Step(n, s, a).value)
    ensures CopiesCover(n, Step(n, s, a).value)
  {
    hide WordTracks, SmallCounts, CountIn;
    var t := Step(n, s, a).value;
    match a
    case Load => WordCovers(n, s);
    case AddSlot => CountsAppend(n, s.batches, Batch(|s.pushed|, s.slot, Forming));
    case Occupy => WordCovers(n, t);
    case StoreOccupied => CountsKept(n, s.batches, |s.batches| - 1, Open);
    case Close(b) => CountsKept(n, s.batches, b, t.batches[b].status);
    case Deoccupy(b) => CountsLose(n, s.batches, b, t.batches[b].status);
    case _ =>
  }

  /** Every step from a state with the invariant leads to one, provided the counters stay in
      their bytes. */
  lemma StepInv<T>(n: nat, s: State<T>, a: Action<T>)
    requires ValidSize(n) && Inv(n, s) && Step(n, s, a).Some?
    requires SmallCounts(n, Step(n, s, a).value)
    ensures Inv(n, Step(n, s, a).value)
  {
    StepShape(n, s, a);
    StepSafe(n, s, a);
    StepWord(n, s, a);
    StepCopies(n, s, a);
  }

  // ---------------------------------------------------------------- at most one region of batches

  /** Batches counted in region r that start in [lo, hi) number at most hi - lo, as no two
      batches start at the same push. */
  lemma {:induction false} CountWithin(n: nat, batches: seq<Batch>, r: nat, lo: nat, hi: nat)
    requires ValidSize(n) && lo <= hi
    requires forall b, c :: 0 <= b < c < |batches| ==> batches[b].start < batches[c].start
    requires forall b :: 0 <= b < |batches| && Weighs(n, batches[b], r) ==> lo <= batches[b].start < hi
    ensures CountIn(n, batches, r) <= hi - lo
  {
    if batches != [] {
      var last := |batches| - 1;
      if Weighs(n, batches[last], r) {
        CountWithin(n, batches[..last], r, lo, batches[last].start);
      } else {
        CountWithin(n, batches[..last], r, lo, hi);
      }
    }
  }

  lemma {:induction false} StartsIncrease<T>(s: State<T>, b: nat, c: nat)
    requires Contiguous(s) && b < c < |s.batches|
    ensures s.batches[b].start < EndOf(s, b) <= s.batches[c].start
    decreases c - b
  {
    if b + 1 < c {
      StartsIncrease(s, b + 1, c);
    }
  }

  /** All counted batches of a region started in the same lap, so no region ever has more
      outstanding batches than cells. */
  lemma CountAtMostRegion<T>(n: nat, s: State<T>, r: nat)
    requires ValidSize(n) && Shape(n, s) && Protected(n, s)
    ensures CountIn(n, s.batches, r) <= RegionSize(n)
  {
    if b :| 0 <= b < |s.batches| && Weighs(n, s.batches[b], r) {
      CountAtMostStretch(n, s, b);
    } else {
      NothingWeighs(n, s.batches, r);
    }
  }

  lemma NothingWeighs(n: nat, batches: seq<Batch>, r: nat)
    requires ValidSize(n)
    requires forall b :: 0 <= b < |batches| ==> !Weighs(n, batches[b], r)
    ensures CountIn(n, batches, r) == 0
  {
    CountZero(n, batches, r);
    assert forall b :: 0 <= b < |batches| ==> !Weighs(n, batches[b], r);
  }

  lemma CountAtMostStretch<T>(n: nat, s: State<T>, b: nat)
    requires ValidSize(n) && Shape(n, s) && Protected(n, s) && b < |s.batches| && s.batches[b].InWord()
    ensures CountIn(n, s.batches, RegionOf(n, s.batches[b].start)) <= RegionSize(n)
  {
    var r, lo := RegionOf(n, s.batches[b].start), RegionStart(n, s.batches[b].start);
    forall c | 0 <= c < |s.batches| && Weighs(n, s.batches[c], r)
      ensures lo <= s.batches[c].start < lo + RegionSize(n)
    {
      SameStretch(n, s, b, c);
    }
    forall c, d | 0 <= c < d < |s.batches|
      ensures s.batches[c].start < s.batches[d].start
    {
      StartsIncrease(s, c, d);
    }
    CountWithin(n, s.batches, r, lo, lo + RegionSize(n));
  }

  lemma SameStretch<T>(n: nat, s: State<T>, b: nat, c: nat)
    requires ValidSize(n) && Shape(n, s) && Protected(n, s) && b < |s.batches| && c < |s.batches|
    requires s.batches[b].InWord() && s.batches[c].InWord()
    requires RegionOf(n, s.batches[b].start) == RegionOf(n, s.batches[c].start)
    ensures var lo := RegionStart(n, s.batches[b].start);
            lo <= s.batches[c].start < lo + RegionSize(n)
  {
    if b < c {
      StartsIncrease(s, b, c);
      SameRegionSameStretch(n, s.batches[b].start, s.batches[c].start);
    } else if c < b {
      StartsIncrease(s, c, b);
      SameRegionSameStretch(n, s.batches[c].start, s.batches[b].start);
    }
    InStretch(n, s.batches[c].start);
  }

  lemma InStretch(n: nat, w: nat)
    requires ValidSize(n)
    ensures RegionStart(n, w) <= w < RegionStart(n, w) + RegionSize(n)
  {
  }

  /** Up to 1024 cells a region has at most 128, so its byte never overflows. */
  lemma SmallWhenShort<T>(n: nat, s: State<T>)
    requires ValidSize(n) && n <= 1024 && Shape(n, s) && Protected(n, s)
    ensures SmallCounts(n, s)
  {
    forall r | 0 <= r < REGION_COUNT
      ensures CountIn(n, s.batches, r) <= 255
    {
      CountAtMostRegion(n, s, r);
    }
  }

  lemma InitialInv<T>(n: nat)
    requires ValidSize(n)
    ensures Inv(n, Initial<T>(n))
  {
    var s := Initial<T>(n);
    assert Counts(n, s.batches) == seq(REGION_COUNT, _ => 0);
    PackZero(Counts(n, s.batches));
  }

  // ---------------------------------------------------------------- keeping the counters small

  /** Only an occupy raises a counter. */
  lemma OnlyOccupyCounts<T>(n: nat, s: State<T>, a: Action<T>)
    requires ValidSize(n) && Step(n, s, a).Some? && !a.Occupy? && HandOverTracks(s)
    ensures forall r :: 0 <= r < REGION_COUNT ==> CountIn(n, Step(n, s, a).value.batches, r) <= CountIn(n, s.batches, r)
  {
    var t := Step(n, s, a).value;
    assert forall r :: 0 <= r < REGION_COUNT ==> Counts(n, s.batches)[r] == CountIn(n, s.batches, r);
    assert forall r :: 0 <= r < REGION_COUNT ==> Counts(n, t.batches)[r] == CountIn(n, t.batches, r);
    match a
    case AddSlot => CountsAppend(n, s.batches, Batch(|s.pushed|, s.slot, Forming));
    case StoreOccupied => CountsKept(n, s.batches, |s.batches| - 1, Open);
    case Close(b) => CountsKept(n, s.batches, b, t.batches[b].status);
    case Deoccupy(b) => CountsLose(n, s.batches, b, t.batches[b].status);
    case _ =>
  }

  /** There is room for one more batch in the counter of the region that push w falls into. */
  predicate Headroom(n: nat, batches: seq<Batch>, w: nat)
    requires ValidSize(n)
  {
    n <= 1024 || CountIn(n, batches, RegionOf(n, w)) < 255
  }

  lemma OccupySmall<T>(n: nat, s: State<T>)
    requires ValidSize(n) && Inv(n, s) && s.owner.Opening? && Headroom(n, s.batches, Total(s) - 1)
    ensures s.batches != [] && SmallCounts(n, OccupyRegion(n, s))
  {
    if n <= 1024 {
      StepShape(n, s, Occupy);
      StepSafe(n, s, Occupy);
      SmallWhenShort(n, OccupyRegion(n, s));
    } else {
      CountsGain(n, s.batches, |s.batches| - 1, Counted);
    }
  }

  lemma QuietStepInv<T>(n: nat, s: State<T>, a: Action<T>)
    requires ValidSize(n) && Inv(n, s) && Step(n, s, a).Some? && !a.Occupy?
    ensures Inv(n, Step(n, s, a).value)
  {
    OnlyOccupyCounts(n, s, a);
    var t := Step(n, s, a).value;
    assert forall r :: 0 <= r < REGION_COUNT ==> Counts(n, t.batches)[r] <= Counts(n, s.batches)[r];
    StepInv(n, s, a);
  }

  /** The masked word is zero exactly when the region's counter is. */
  lemma MaskCounts<T>(n: nat, s: State<T>, index: nat)
    requires ValidSize(n) && WordTracks(n, s) && SmallCounts(n, s) && index < n
    ensures CurrentRegion(n, index) < REGION_COUNT
    ensures Byte(s.occupancy, CurrentRegion(n, index)) == CountIn(n, s.batches, CurrentRegion(n, index))
    ensures And(s.occupancy, RegionMask(n, index)) == 0 <==> CountIn(n, s.batches, CurrentRegion(n, index)) == 0
  {
    RegionWords(n, index);
    PackedWordIsExact(Counts(n, s.batches));
    MaskReadsByte(n, index, s.occupancy);
  }

  // ---------------------------------------------------------------- steps within the bound

  /** A step of the protocol, within the bound on the counters that its guarantees assume. */
  function BoundedStep<T>(n: nat, s: State<T>, a: Action<T>): Option<State<T>>
    requires ValidSize(n)
  {
    var next := Step(n, s, a);
    if next.Some? && SmallCounts(n, next.value) then next else None
  }

  lemma BoundedStepInv<T>(n: nat, s: State<T>, a: Action<T>)
    requires ValidSize(n) && Inv(n, s) && BoundedStep(n, s, a).Some?
    ensures Inv(n, BoundedStep(n, s, a).value)
  {
    StepInv(n, s, a);
  }

  lemma QuietBoundedStep<T>(n: nat, s: State<T>, a: Action<T>)
    requires ValidSize(n) && Inv(n, s) && Step(n, s, a).Some? && !a.Occupy?
    ensures BoundedStep(n, s, a) == Step(n, s, a) && Inv(n, Step(n, s, a).value)
  {
    QuietStepInv(n, s, a);
  }

  /** Up to 1024 cells the bound excludes no step. */
  lemma BoundExcludesNothing<T>(n: nat, s: State<T>, a: Action<T>)
    requires ValidSize(n) && n <= 1024 && Inv(n, s)
    ensures BoundedStep(n, s, a) == Step(n, s, a)
  {
    if Step(n, s, a).Some? {
      StepShape(n, s, a);
      StepSafe(n, s, a);
      SmallWhenShort(n, Step(n, s, a).value);
    }
  }
}
