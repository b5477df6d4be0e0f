/** Beyond 1024 cells a region has more cells than its counter has values. This module runs the
    protocol into the overflow, which makes the bound on the ring size exact. */
module Overflow {
  import opened Wrappers
  import opened Bits
  import opened Helpers
  import opened Occupancy
  import opened Protocol
  import opened ProtocolSteps
  import opened Guarantees

  ghost predicate Leads<T(!new)>(n: nat, s: State<T>, t: State<T>)
    requires ValidSize(n)
  {
    exists actions :: Run(n, s, actions) == Some(t)
  }

  lemma LeadsBy<T(!new)>(n: nat, s: State<T>, actions: seq<Action<T>>, t: State<T>)
    requires ValidSize(n) && Run(n, s, actions) == Some(t)
    ensures Leads(n, s, t)
  {
  }

  lemma LeadsStep<T(!new)>(n: nat, r: State<T>, s: State<T>, a: Action<T>)
    requires ValidSize(n) && Leads(n, r, s) && Step(n, s, a).Some?
    ensures Leads(n, r, Step(n, s, a).value)
  {
    var actions :| Run(n, r, actions) == Some(s);
    RunConcat(n, r, actions, [a]);
    assert Run(n, s, [a]) == Run(n, Step(n, s, a).value, []);
    LeadsBy(n, r, actions + [a], Step(n, s, a).value);
  }

  /** A quiet state: no push in progress. What the construction needs to know about it. */
  ghost predicate Quiet<T(!new)>(n: nat, s: State<T>)
    requires ValidSize(n)
  {
    Leads(n, Initial(n), s) && Shape(n, s) && s.owner.Idle?
  }

  /** The fast path lets the next push through. */
  predicate FastPath<T>(n: nat, s: State<T>)
    requires ValidSize(n)
  {
    AtBoundary(n, Total(s) % n) ==> And(s.localOccupancy, RegionMask(n, Total(s) % n)) == 0
  }

  /** One more push into the open batch. */
  lemma JoinPush<T(!new)>(n: nat, s: State<T>, task: T) returns (t: State<T>)
    requires ValidSize(n) && Quiet(n, s) && HasOpen(s) && FastPath(n, s)
    ensures Quiet(n, t) && t.batches == s.batches && Total(t) == Total(s) + 1
    ensures t.occupancy == s.occupancy && t.localOccupancy == s.localOccupancy
  {
    t := PushToReplaced(n, s, task);
  }

  lemma Replaced<T(!new)>(n: nat, s: State<T>) returns (t: State<T>)
    requires ValidSize(n) && Leads(n, Initial(n), s) && Shape(n, s) && s.owner.Added?
    ensures Leads(n, Initial(n), t) && Shape(n, t) && t.pushed == s.pushed && t.batches == s.batches
    ensures t.occupancy == s.occupancy && t.localOccupancy == s.localOccupancy
    ensures t.owner == if s.owner.base % 2 == s.localSlot % 2 then Idle(Joined) else Opening(s.owner.index)
  {
    t := Taken(n, s, ReplaceSlot);
    XorLowBit(s.owner.base, s.localSlot);
  }

  lemma Added<T(!new)>(n: nat, s: State<T>) returns (t: State<T>)
    requires ValidSize(n) && Leads(n, Initial(n), s) && Shape(n, s) && s.owner.Written?
    ensures Step(n, s, AddSlot) == Some(t) && Leads(n, Initial(n), t) && Shape(n, t)
    ensures t.owner == Protocol.Added(s.owner.index, s.slot) && t.localSlot == s.localSlot
    ensures t.occupancy == s.occupancy && t.localOccupancy == s.localOccupancy && Total(t) == Total(s) + 1
    ensures s.slot % 2 == s.localSlot % 2 <==> HasOpen(s)
    ensures t.batches == if HasOpen(s) then s.batches else s.batches + [Batch(Total(s), s.slot, Forming)]
  {
    t := Taken(n, s, AddSlot);
    XorLowBit(s.slot, s.localSlot);
  }

  lemma Taken<T(!new)>(n: nat, s: State<T>, a: Action<T>) returns (t: State<T>)
    requires ValidSize(n) && Leads(n, Initial(n), s) && Shape(n, s) && Step(n, s, a).Some?
    ensures Step(n, s, a) == Some(t) && Leads(n, Initial(n), t) && Shape(n, t)
  {
    t := Step(n, s, a).value;
    LeadsStep(n, Initial(n), s, a);
    StepShape(n, s, a);
  }

  /** The part of a push before its outcome is known. */
  lemma PushToReplaced<T(!new)>(n: nat, s: State<T>, task: T) returns (t: State<T>)
    requires ValidSize(n) && Quiet(n, s) && FastPath(n, s)
    ensures Leads(n, Initial(n), t) && Shape(n, t) && Total(t) == Total(s) + 1
    ensures t.occupancy == s.occupancy && t.localOccupancy == s.localOccupancy
    ensures HasOpen(s) ==> t.owner.Idle? && t.batches == s.batches
    ensures !HasOpen(s) ==>
              t.owner == Opening(Total(s) % n) && t.batches == s.batches + [Batch(Total(s), s.slot, Forming)]
  {
    hide Leads;
    SlotIndexOf(n, Total(s), s.localSlot % 2);
    var s1 := Taken(n, s, Begin(task));
    assert s1.owner == Ready(task, Total(s) % n);
    t := ReadyToReplaced(n, s1);
  }

  lemma ReadyToReplaced<T(!new)>(n: nat, s: State<T>) returns (t: State<T>)
    requires ValidSize(n) && Leads(n, Initial(n), s) && Shape(n, s) && s.owner.Ready?
    ensures Leads(n, Initial(n), t) && Shape(n, t) && Total(t) == Total(s) + 1
    ensures t.occupancy == s.occupancy && t.localOccupancy == s.localOccupancy
    ensures HasOpen(s) ==> t.owner.Idle? && t.batches == s.batches
    ensures !HasOpen(s) ==>
              t.owner == Opening(s.owner.index) && t.batches == s.batches + [Batch(Total(s), s.slot, Forming)]
  {
    hide Leads;
    var s1 := Taken(n, s, Write);
    var s2 := Added(n, s1);
    t := Replaced(n, s2);
  }

  /** One push that opens a batch. */
  lemma OpenPush<T(!new)>(n: nat, s: State<T>, task: T) returns (t: State<T>)
    requires ValidSize(n) && Quiet(n, s) && !HasOpen(s) && FastPath(n, s)
    ensures Quiet(n, t) && Total(t) == Total(s) + 1
    ensures t.batches == s.batches + [Batch(Total(s), s.slot, Open)]
    ensures t.occupancy == t.localOccupancy == WrappingAdd(s.occupancy, Unit(RegionOf(n, Total(s))))
  {
    hide Leads, Unit, RegionOf;
    var s1 := PushToReplaced(n, s, task);
    t := OccupyOpened(n, s1, Total(s));
  }

  /** The region of the new batch is occupied and its guard handed out. */
  lemma OccupyOpened<T(!new)>(n: nat, s: State<T>, start: nat) returns (t: State<T>)
    requires ValidSize(n) && Leads(n, Initial(n), s) && Shape(n, s) && s.owner == Opening(start % n)
    requires s.batches != [] && s.batches[|s.batches| - 1].status.Forming?
    ensures Quiet(n, t) && t.pushed == s.pushed
    ensures t.batches == WithStatus(s.batches, |s.batches| - 1, Open)
    ensures t.occupancy == t.localOccupancy == WrappingAdd(s.occupancy, Unit(RegionOf(n, start)))
  {
    hide Leads, Unit;
    RegionWords(n, start % n);
    var s1 := Taken(n, s, Occupy);
    t := Taken(n, s1, StoreOccupied);
  }

  /** With the word at zero the owner is let through. */
  lemma BeginFree<T(!new)>(n: nat, s: State<T>, task: T) returns (t: State<T>)
    requires ValidSize(n) && Quiet(n, s) && s.occupancy == 0
    ensures Leads(n, Initial(n), t) && t.owner == Ready(task, Total(s) % n)
    ensures Shape(n, t) && t == s.(owner := t.owner, localOccupancy := t.localOccupancy)
  {
    hide Leads;
    SlotIndexOf(n, Total(s), s.localSlot % 2);
    var s1 := Taken(n, s, Begin(task));
    if s1.owner.Ready? {
      t := s1;
    } else {
      var s2 := Taken(n, s1, Load);
      t := Taken(n, s2, StoreLoaded);
    }
  }

  /** The holder of the latest batch closes it. */
  lemma CloseLast<T(!new)>(n: nat, s: State<T>) returns (t: State<T>)
    requires ValidSize(n) && Quiet(n, s) && HasOpen(s)
    ensures Quiet(n, t) && !HasOpen(t) && t.pushed == s.pushed && |t.batches| == |s.batches|
    ensures forall b :: 0 <= b < |s.batches| - 1 ==> t.batches[b] == s.batches[b]
    ensures var last := |s.batches| - 1;
            t.batches[last].start == s.batches[last].start && t.batches[last].status.Bounded?
    ensures t.occupancy == s.occupancy && t.localOccupancy == s.localOccupancy
  {
    t := Taken(n, s, Close(|s.batches| - 1));
  }

  /** And gives it back. */
  lemma ReleaseLast<T(!new)>(n: nat, s: State<T>) returns (t: State<T>)
    requires ValidSize(n) && Quiet(n, s) && s.batches != [] && s.batches[|s.batches| - 1].status.Bounded?
    ensures Quiet(n, t) && !HasOpen(t) && t.pushed == s.pushed && |t.batches| == |s.batches|
    ensures forall b :: 0 <= b < |s.batches| - 1 ==> t.batches[b] == s.batches[b]
    ensures t.localOccupancy == s.localOccupancy
    ensures t.occupancy == WrappingSub(s.occupancy, Unit(RegionOf(n, s.batches[|s.batches| - 1].start)))
  {
    hide Leads, RegionOf, Unit;
    LastWeight(n, s);
    t := Taken(n, s, Deoccupy(|s.batches| - 1));
  }

  lemma LastWeight<T>(n: nat, s: State<T>)
    requires ValidSize(n) && GuardsTrack(s) && s.batches != [] && s.batches[|s.batches| - 1].status.Bounded?
    ensures var last := s.batches[|s.batches| - 1];
            OneShifted(n, And(last.status.lo, n - 1)) == Unit(RegionOf(n, last.start))
  {
    var start := s.batches[|s.batches| - 1].start;
    MaskedCounter(n, start);
    RegionWords(n, start % n);
  }

  /** Pushes into the open batch up to a given count, as long as the fast path stays open. */
  lemma {:induction false} JoinUpTo<T(!new)>(n: nat, s: State<T>, task: T, w: nat) returns (t: State<T>)
    requires ValidSize(n) && Quiet(n, s) && HasOpen(s) && Total(s) <= w
    requires forall v :: Total(s) <= v < w && AtBoundary(n, v % n) ==> And(s.localOccupancy, RegionMask(n, v % n)) == 0
    ensures Quiet(n, t) && t.batches == s.batches && Total(t) == w
    ensures t.occupancy == s.occupancy && t.localOccupancy == s.localOccupancy
    decreases w - Total(s)
  {
    if Total(s) == w {
      t := s;
    } else {
      var s1 := JoinPush(n, s, task);
      t := JoinUpTo(n, s1, task, w);
    }
  }

  // ---------------------------------------------------------------- where boundaries fall

  lemma {:induction false} ByteOfZero(r: nat)
    ensures Byte(0, r) == 0
  {
    if r > 0 {
      ByteOfZero(r - 1);
    }
  }

  lemma {:induction false} ByteOfUnit(r: nat, t: nat)
    ensures Byte(Unit(r), t) == if r == t then 1 else 0
  {
    if r == 0 {
      if t > 0 {
        ByteOfZero(t - 1);
      }
    } else if t > 0 {
      assert Unit(r) / 256 == Unit(r - 1);
      ByteOfUnit(r - 1, t - 1);
    }
  }

  lemma UnitMisses(n: nat, w: nat, r: nat)
    requires ValidSize(n) && RegionOf(n, w) != r
    ensures And(Unit(r), RegionMask(n, w % n)) == 0
  {
    MaskReadsByte(n, w % n, Unit(r));
    ByteOfUnit(r, RegionOf(n, w));
  }

  /** A region boundary k regions after the start has count k times the region size. */
  lemma BoundaryBlock(n: nat, w: nat)
    requires ValidSize(n) && AtBoundary(n, w % n)
    ensures w == w / RegionSize(n) * RegionSize(n) && RegionOf(n, w) == w / RegionSize(n) % 8
  {
    BoundaryOf(n, w);
    RegionOfBlock(n, w);
  }

  lemma Block(n: nat, k: nat, t: nat)
    requires ValidSize(n) && t < RegionSize(n)
    ensures RegionOf(n, k * RegionSize(n) + t) == k % 8
    ensures RegionStart(n, k * RegionSize(n) + t) == k * RegionSize(n)
  {
    hide RegionOf, RegionStart, IsPowerOfTwo;
    RegionOfBlock(n, k * RegionSize(n) + t);
    Remainder(k * RegionSize(n) + t, RegionSize(n), k, t);
  }

  /** Boundaries strictly between block j and block k lie in the blocks between. */
  lemma BetweenBlocks(n: nat, j: nat, k: nat, w: nat)
    requires ValidSize(n) && AtBoundary(n, w % n)
    requires j * RegionSize(n) < w < k * RegionSize(n)
    ensures exists b :: j < b < k && w == b * RegionSize(n) && RegionOf(n, w) == b % 8
  {
    var size, b := RegionSize(n), w / RegionSize(n);
    BoundaryBlock(n, w);
    if b <= j {
      MulMonotone(b, j, size);
    } else if b >= k {
      MulMonotone(k, b, size);
    }
  }

  // ---------------------------------------------------------------- the overflowing run

  lemma QuietStart<T(!new)>(n: nat)
    requires ValidSize(n)
    ensures Quiet(n, Initial<T>(n)) && !HasOpen(Initial<T>(n)) && FastPath(n, Initial<T>(n))
  {
    InitialShape<T>(n);
    LeadsBy(n, Initial<T>(n), [], Initial<T>(n));
    RegionWords(n, 0);
    MaskReadsByte(n, 0, 0);
    ByteOfZero(CurrentRegion(n, 0));
  }

  /** A copy that knows only of a batch in the first region lets the owner through up to the last. */
  lemma FirstRegionOnly(n: nat, v: nat)
    requires ValidSize(n) && 1 <= v < 7 * RegionSize(n) && AtBoundary(n, v % n)
    ensures And(Unit(0), RegionMask(n, v % n)) == 0
  {
    hide AtBoundary, RegionMask, And, RegionOf, Unit;
    BetweenBlocks(n, 0, 7, v);
    UnitMisses(n, v, 0);
  }

  /** Up to the last region, with nothing left outstanding. */
  lemma ReachLastRegion<T(!new)>(n: nat, task: T) returns (t: State<T>)
    requires ValidSize(n)
    ensures Quiet(n, t) && !HasOpen(t) && Total(t) == 7 * RegionSize(n)
    ensures t.occupancy == 0 && t.localOccupancy == Unit(0) && |t.batches| == 1
  {
    hide Quiet, HasOpen, FastPath, AtBoundary, RegionMask, And, RegionOf, IsPowerOfTwo;
    QuietStart<T>(n);
    StartsInFirst(n);
    var s1 := OpenPush(n, Initial<T>(n), task);
    LastOpen(s1);
    forall v | 1 <= v < 7 * RegionSize(n) && AtBoundary(n, v % n)
      ensures And(s1.localOccupancy, RegionMask(n, v % n)) == 0
    {
      FirstRegionOnly(n, v);
    }
    var s2 := JoinUpTo(n, s1, task, 7 * RegionSize(n));
    var s3 := CloseLast(n, s2);
    t := ReleaseLast(n, s3);
  }

  lemma StartsInFirst(n: nat)
    requires ValidSize(n)
    ensures RegionOf(n, 0) == 0 && WrappingAdd(0, Unit(0)) == Unit(0) && WrappingSub(Unit(0), Unit(0)) == 0
  {
    RegionWords(n, 0);
  }

  lemma LastOpen<T>(s: State<T>)
    requires s.batches != [] && s.batches[|s.batches| - 1].status.Open?
    ensures HasOpen(s)
  {
  }

  /** The word while k batches that start in the last region are outstanding. */
  function Filled(k: nat): nat {
    k * Unit(7) % WORD
  }

  lemma FilledStep(k: nat)
    ensures WrappingAdd(Filled(k), Unit(7)) == Filled(k + 1)
  {
    WrapSum(k * Unit(7), Unit(7));
  }

  lemma FilledWraps()
    ensures Filled(256) == 0
  {
    UnitValues();
    assert Unit(8) == 256 * Unit(7);
  }

  /** k one-task batches in the last region, all closed and none given back. */
  ghost predicate Filling<T(!new)>(n: nat, s: State<T>, k: nat)
    requires ValidSize(n)
  {
    && Quiet(n, s) && !HasOpen(s) && Total(s) == 7 * RegionSize(n) + k && |s.batches| == 1 + k
    && s.occupancy == Filled(k) && s.localOccupancy == (if k == 0 then Unit(0) else s.occupancy)
    && (k > 0 ==> s.batches[1].status.Bounded? && s.batches[1].start == 7 * RegionSize(n))
  }

  lemma FillOne<T(!new)>(n: nat, s: State<T>, task: T, k: nat) returns (t: State<T>)
    requires ValidSize(n) && RegionSize(n) >= 256 && k < 256 && Filling(n, s, k)
    ensures Filling(n, t, k + 1)
  {
    var w := 7 * RegionSize(n) + k;
    Block(n, 7, k);
    BoundaryOf(n, w);
    UnitMisses(n, w, 0);
    var s1 := OpenPush(n, s, task);
    FilledStep(k);
    t := CloseLast(n, s1);
  }

  lemma {:induction false} FillLastRegion<T(!new)>(n: nat, task: T, k: nat) returns (t: State<T>)
    requires ValidSize(n) && RegionSize(n) >= 256 && k <= 256
    ensures Filling(n, t, k)
  {
    if k == 0 {
      t := ReachLastRegion(n, task);
      assert Filled(0) == 0;
    } else {
      var s := FillLastRegion(n, task, k - 1);
      t := FillOne(n, s, task, k - 1);
    }
  }

  /** Once the word has wrapped to zero, the next batch is the only one it shows. */
  lemma OpenOnZero<T(!new)>(n: nat, s: State<T>, task: T) returns (t: State<T>)
    requires ValidSize(n) && Quiet(n, s) && !HasOpen(s) && |s.batches| > 1
    requires s.occupancy == 0 && s.localOccupancy == 0
    ensures Quiet(n, t) && HasOpen(t) && Total(t) == Total(s) + 1 && |t.batches| == |s.batches| + 1
    ensures t.batches[|s.batches|].start == Total(s) && t.batches[1] == s.batches[1]
    ensures t.occupancy == t.localOccupancy == Unit(RegionOf(n, Total(s)))
  {
    RegionWords(n, Total(s) % n);
    FromZero(Unit(RegionOf(n, Total(s))));
    t := OpenPush(n, s, task);
  }

  lemma FromZero(x: nat)
    requires x < WORD
    ensures WrappingAdd(0, x) == x
  {
  }

  /** The only batch the word shows grows up to count w and is given back. */
  lemma GrowAndRelease<T(!new)>(n: nat, s: State<T>, task: T, w: nat) returns (t: State<T>)
    requires ValidSize(n) && Quiet(n, s) && HasOpen(s) && |s.batches| > 2 && Total(s) <= w
    requires s.occupancy == s.localOccupancy == Unit(RegionOf(n, s.batches[|s.batches| - 1].start))
    requires forall v :: Total(s) <= v < w && AtBoundary(n, v % n) ==> And(s.localOccupancy, RegionMask(n, v % n)) == 0
    ensures Quiet(n, t) && Total(t) == w && t.occupancy == 0
    ensures |t.batches| == |s.batches| && t.batches[1] == s.batches[1]
  {
    hide Quiet, RegionOf, Unit, AtBoundary, And, RegionMask;
    var s1 := JoinUpTo(n, s, task, w);
    var s2 := CloseLast(n, s1);
    t := ReleaseLast(n, s2);
  }

  /** The owner comes round to the first of those batches while it is still live. */
  lemma ReachOverflow<T(!new)>(n: nat, task: T) returns (t: State<T>)
    requires ValidSize(n) && RegionSize(n) >= 256
    ensures Quiet(n, t) && Total(t) == n + 7 * RegionSize(n) && t.occupancy == 0
    ensures |t.batches| > 1 && t.batches[1].status.Bounded? && t.batches[1].start == 7 * RegionSize(n)
  {
    var s := FillLastRegion(n, task, 256);
    FilledWraps();
    var s1 := OpenOnZero(n, s, task);
    forall v | Total(s1) <= v < n + 7 * RegionSize(n) && AtBoundary(n, v % n)
      ensures And(s1.localOccupancy, RegionMask(n, v % n)) == 0
    {
      LaterRegion(n, v);
      UnitMisses(n, v, RegionOf(n, Total(s)));
    }
    t := GrowAndRelease(n, s1, task, n + 7 * RegionSize(n));
  }

  lemma LaterRegion(n: nat, v: nat)
    requires ValidSize(n) && RegionSize(n) >= 256
    requires 7 * RegionSize(n) + 256 < v < n + 7 * RegionSize(n) && AtBoundary(n, v % n)
    ensures RegionOf(n, v) != RegionOf(n, 7 * RegionSize(n) + 256)
  {
    hide RegionOf, AtBoundary, IsPowerOfTwo;
    if RegionSize(n) == 256 {
      Block(n, 8, 0);
      BetweenBlocks(n, 8, 15, v);
    } else {
      Block(n, 7, 256);
      BetweenBlocks(n, 7, 15, v);
    }
  }

  lemma OverwritesAfterOverflow<T(!new)>(n: nat, task: T) returns (t: State<T>)
    requires ValidSize(n) && RegionSize(n) >= 256
    ensures Leads(n, Initial(n), t) && Overwrites(n, t)
  {
    hide Leads, Quiet;
    var s := ReachOverflow(n, task);
    var first := 7 * RegionSize(n);
    t := BeginFree(n, s, task);
    Remainder(n + first, n, 1, first);
    Remainder(first, n, 0, first);
    StartsAtStart(n, s);
    assert InBatch(t, 1, first) && t.batches[1].Live() && first % n == t.owner.index;
  }

  lemma StartsAtStart<T(!new)>(n: nat, s: State<T>)
    requires ValidSize(n) && Quiet(n, s)
    ensures forall b: nat :: b < |s.batches| ==> InBatch(s, b, s.batches[b].start)
  {
    hide Leads;
  }

  /** The ring is safe in all runs exactly up to 1024 cells: there no hypothesis about the
      number of batches is needed, and above there is always a run that overwrites a live cell. */
  lemma SafeExactlyUpTo1024<T(!new)>(n: nat, task: T)
    requires ValidSize(n)
    ensures n <= 1024 <==> forall s: State<T> :: Leads(n, Initial(n), s) ==> !Overwrites(n, s)
  {
    if n <= 1024 {
      forall s: State<T> | Leads(n, Initial(n), s)
        ensures !Overwrites(n, s)
      {
        var actions :| Run(n, Initial(n), actions) == Some(s);
        NoLiveCellOverwritten(n, actions, s);
      }
    } else {
      LongHasLongRegions(n);
      var t := OverwritesAfterOverflow(n, task);
    }
  }

  lemma LongHasLongRegions(n: nat)
    requires ValidSize(n) && n > 1024
    ensures RegionSize(n) >= 256
  {
    var k := TrailingZeros(n);
    SizeIsEightRegions(n);
    assert Pow2(10) == 1024 by { Pow2Add(5, 5); Pow2Values(); }
    if k <= 10 {
      Pow2Monotone(k, 10);
    } else {
      Pow2Monotone(8, k - 3);
      Pow2Values();
    }
  }
}
