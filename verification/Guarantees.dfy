/** What holds after every run of the protocol, under every interleaving. */
module Guarantees {
  import opened Wrappers
  import opened Bits
  import opened Helpers
  import opened Occupancy
  import opened Protocol
  import opened ProtocolSteps

  /** Every state the run visits keeps each region's counter within its byte. */
  ghost predicate StaysSmall<T>(n: nat, s: State<T>, actions: seq<Action<T>>)
    requires ValidSize(n)
    decreases |actions|
  {
    && SmallCounts(n, s)
    && (actions != [] && Step(n, s, actions[0]).Some? ==>
          StaysSmall(n, Step(n, s, actions[0]).value, actions[1..]))
  }

  /** The invariant holds after every run in which no region counts more than 255 batches. */
  lemma {:induction false} RunInv<T>(n: nat, s: State<T>, actions: seq<Action<T>>)
    requires ValidSize(n) && Inv(n, s) && Run(n, s, actions).Some? && StaysSmall(n, s, actions)
    ensures Inv(n, Run(n, s, actions).value)
    decreases |actions|
  {
    if actions != [] {
      StepInv(n, s, actions[0]);
      RunInv(n, Step(n, s, actions[0]).value, actions[1..]);
    }
  }

  /** Up to 1024 cells that needs no assumption. */
  lemma {:induction false} ShortStaysSmall<T>(n: nat, s: State<T>, actions: seq<Action<T>>)
    requires ValidSize(n) && n <= 1024 && Inv(n, s)
    ensures StaysSmall(n, s, actions)
    decreases |actions|
  {
    if actions != [] && Step(n, s, actions[0]).Some? {
      StepShape(n, s, actions[0]);
      StepSafe(n, s, actions[0]);
      SmallWhenShort(n, Step(n, s, actions[0]).value);
      StepInv(n, s, actions[0]);
      ShortStaysSmall(n, Step(n, s, actions[0]).value, actions[1..]);
    }
  }

  /** The state s is reached by a run from the start that keeps the counters in their bytes. */
  ghost predicate Reached<T>(n: nat, actions: seq<Action<T>>, s: State<T>)
    requires ValidSize(n)
  {
    Run(n, Initial(n), actions) == Some(s) && (n <= 1024 || StaysSmall(n, Initial(n), actions))
  }

  lemma ReachedInv<T>(n: nat, actions: seq<Action<T>>, s: State<T>)
    requires ValidSize(n) && Reached(n, actions, s)
    ensures Inv(n, s)
  {
    InitialInv<T>(n);
    if n <= 1024 {
      ShortStaysSmall(n, Initial<T>(n), actions);
    }
    RunInv(n, Initial<T>(n), actions);
  }

  // ---------------------------------------------------------------- no live cell is overwritten

  /** The owner is about to write a cell that belongs to a batch not yet given back. */
  ghost predicate Overwrites<T>(n: nat, s: State<T>)
    requires ValidSize(n)
  {
    s.owner.Ready? &&
    exists b: nat, i: nat :: b < |s.batches| && InBatch(s, b, i) && s.batches[b].Live() && i % n == s.owner.index
  }

  ghost predicate InBatch<T>(s: State<T>, b: nat, i: nat)
    requires b < |s.batches|
  {
    s.batches[b].start <= i < EndOf(s, b)
  }

  /** The coarse check, made only at region boundaries, against a stale copy, of counters that
      know only where batches start, protects every cell of every live batch. */
  lemma NoLiveCellOverwritten<T>(n: nat, actions: seq<Action<T>>, s: State<T>)
    requires ValidSize(n) && Reached(n, actions, s)
    ensures !Overwrites(n, s)
    ensures forall b :: 0 <= b < |s.batches| && s.batches[b].Live() ==>
              Total(s) <= RegionStart(n, s.batches[b].start) + n
  {
    ReachedInv(n, actions, s);
    if s.owner.Ready? {
      forall b: nat, i: nat | b < |s.batches| && InBatch(s, b, i) && s.batches[b].Live()
        ensures i % n != s.owner.index
      {
        RoomToWrite(n, s, b);
        DistinctCells(n, i, Total(s));
      }
    }
  }

  // ---------------------------------------------------------------- every push in exactly one batch

  /** The tasks of batch b, in the order they were pushed. */
  ghost function Contents<T>(s: State<T>, b: nat): seq<T>
    requires b < |s.batches|
  {
    if s.batches[b].start <= EndOf(s, b) <= Total(s) then s.pushed[s.batches[b].start..EndOf(s, b)] else []
  }

  /** The contents of the first k batches, one after another. */
  ghost function Delivered<T>(s: State<T>, k: nat): seq<T>
    requires k <= |s.batches|
  {
    if k == 0 then [] else Delivered(s, k - 1) + Contents(s, k - 1)
  }

  lemma {:induction false} DeliveredPrefix<T>(s: State<T>, k: nat)
    requires Contiguous(s) && 0 < k <= |s.batches|
    ensures EndOf(s, k - 1) <= Total(s) && Delivered(s, k) == s.pushed[..EndOf(s, k - 1)]
  {
    hide Contiguous, Contents;
    ContentsRange(s, k - 1);
    if k == 1 {
      assert Delivered(s, 0) == [];
    } else {
      DeliveredPrefix(s, k - 1);
    }
  }

  lemma ContentsRange<T>(s: State<T>, b: nat)
    requires Contiguous(s) && b < |s.batches|
    ensures s.batches[b].start < EndOf(s, b) <= Total(s)
    ensures Contents(s, b) == s.pushed[s.batches[b].start..EndOf(s, b)]
    ensures if b == 0 then s.batches[b].start == 0 else s.batches[b].start == EndOf(s, b - 1)
  {
  }

  lemma DeliveredAll<T>(s: State<T>)
    requires Contiguous(s)
    ensures Delivered(s, |s.batches|) == s.pushed
    ensures forall b :: 0 <= b < |s.batches| ==> Contents(s, b) != []
  {
    if s.batches != [] {
      DeliveredPrefix(s, |s.batches|);
      assert s.pushed[..Total(s)] == s.pushed;
    }
  }

  /** Exactly-once delivery in order: one batch after another is the sequence of all pushes, no
      batch is empty, and the cells of every live batch hold just its tasks. */
  lemma EveryPushInExactlyOneBatch<T>(n: nat, actions: seq<Action<T>>, s: State<T>)
    requires ValidSize(n) && Reached(n, actions, s)
    ensures Delivered(s, |s.batches|) == s.pushed
    ensures forall b :: 0 <= b < |s.batches| ==> Contents(s, b) != []
    ensures |s.buffer| == n
    ensures forall b: nat, k: nat :: b < |s.batches| && s.batches[b].Live() && k < |Contents(s, b)| ==>
              s.buffer[(s.batches[b].start + k) % n] == Some(Contents(s, b)[k])
  {
    ReachedInv(n, actions, s);
    DeliveredAll(s);
    forall b: nat, k: nat | b < |s.batches| && s.batches[b].Live() && k < |Contents(s, b)|
      ensures s.buffer[(s.batches[b].start + k) % n] == Some(Contents(s, b)[k])
    {
      CellOfContents(n, s, b, k);
    }
  }

  lemma CellOfContents<T>(n: nat, s: State<T>, b: nat, k: nat)
    requires ValidSize(n) && CellsHold(n, s)
    requires b < |s.batches| && s.batches[b].Live() && k < |Contents(s, b)|
    ensures s.buffer[(s.batches[b].start + k) % n] == Some(Contents(s, b)[k])
  {
    assert CellHolds(n, s, b, s.batches[b].start + k);
  }

  /** Batch b ends at the same push in t as in s, with the same tasks. */
  ghost predicate SameBatch<T>(s: State<T>, t: State<T>, b: nat)
    requires b < |s.batches|
  {
    && s.pushed <= t.pushed && b < |t.batches| && t.batches[b].Ended()
    && t.batches[b].start == s.batches[b].start && EndOf(t, b) == EndOf(s, b)
    && Contents(t, b) == Contents(s, b)
  }

  lemma StepKeepsClosed<T>(n: nat, s: State<T>, a: Action<T>, b: nat)
    requires ValidSize(n) && Shape(n, s) && Step(n, s, a).Some?
    requires b < |s.batches| && s.batches[b].Ended()
    ensures SameBatch(s, Step(n, s, a).value, b)
  {
    var t := Step(n, s, a).value;
    assert s.pushed <= t.pushed && EndOf(t, b) == EndOf(s, b) <= Total(s);
  }

  /** What a batch contains is settled when it is closed: no later step changes it, and pushes
      are never forgotten or reordered. */
  lemma {:induction false} ClosedBatchesAreForever<T>(n: nat, s: State<T>, actions: seq<Action<T>>, b: nat)
    requires ValidSize(n) && Shape(n, s) && Run(n, s, actions).Some?
    requires b < |s.batches| && s.batches[b].Ended()
    ensures SameBatch(s, Run(n, s, actions).value, b)
    decreases |actions|
  {
    if actions != [] {
      StepShape(n, s, actions[0]);
      StepKeepsClosed(n, s, actions[0], b);
      ClosedBatchesAreForever(n, Step(n, s, actions[0]).value, actions[1..], b);
    }
  }

  /** A batch has at least one and at most n tasks, and n only if it starts on a region
      boundary; so equal masked bounds always mean a full ring and never an empty batch. */
  lemma BatchLengths<T>(n: nat, actions: seq<Action<T>>, s: State<T>, b: nat)
    requires ValidSize(n) && Reached(n, actions, s) && b < |s.batches| && s.batches[b].Live()
    ensures 1 <= EndOf(s, b) - s.batches[b].start <= n
    ensures EndOf(s, b) - s.batches[b].start == n ==> RegionStart(n, s.batches[b].start) == s.batches[b].start
  {
    ReachedInv(n, actions, s);
  }

  // ---------------------------------------------------------------- phases

  /** At most one batch is open, it is the latest, and between pushes the phases agree exactly
      while there is one. */
  lemma PhaseTellsOpenBatch<T>(n: nat, actions: seq<Action<T>>, s: State<T>)
    requires ValidSize(n) && Reached(n, actions, s)
    ensures forall b :: 0 <= b < |s.batches| && !s.batches[b].Ended() ==> b == |s.batches| - 1
    ensures s.owner.Idle? ==>
              (s.slot % 2 == s.localSlot % 2 <==> exists b :: 0 <= b < |s.batches| && s.batches[b].status.Open?)
    ensures s.owner.Added? ==>
              (s.slot % 2 == s.owner.base % 2 <==> exists b :: 0 <= b < |s.batches| && !s.batches[b].Ended())
  {
    ReachedInv(n, actions, s);
    if HasOpen(s) {
      assert !s.batches[|s.batches| - 1].Ended();
    }
  }

  function Closes<T>(actions: seq<Action<T>>): nat {
    if actions == [] then 0 else (if actions[0].Close? then 1 else 0) + Closes(actions[1..])
  }

  /** Only a `fetch_add` opens a batch, and closing one leaves none open. */
  lemma FlipStep<T>(n: nat, s: State<T>, a: Action<T>)
    requires ValidSize(n) && Contiguous(s) && HandOverTracks(s) && Step(n, s, a).Some? && !a.AddSlot?
    ensures HasOpen(Step(n, s, a).value) ==> HasOpen(s) && !a.Close?
    ensures a.Close? ==> HasOpen(s)
  {
  }

  /** Without a `fetch_add` in between, the phase flips at most once, so that two flips can
      never hide the boundary between two batches. */
  lemma {:induction false} AtMostOneFlip<T>(n: nat, s: State<T>, actions: seq<Action<T>>)
    requires ValidSize(n) && Shape(n, s) && Run(n, s, actions).Some?
    requires forall k :: 0 <= k < |actions| ==> !actions[k].AddSlot?
    ensures Closes(actions) <= if HasOpen(s) then 1 else 0
    decreases |actions|
  {
    if actions != [] {
      StepShape(n, s, actions[0]);
      FlipStep(n, s, actions[0]);
      AtMostOneFlip(n, Step(n, s, actions[0]).value, actions[1..]);
    }
  }

  // ---------------------------------------------------------------- one close and one release

  ghost function Times<T>(actions: seq<Action<T>>, a: Action<T>): nat {
    if actions == [] then 0 else (if actions[0] == a then 1 else 0) + Times(actions[1..], a)
  }

  /** How often batch b has been closed, and how often given back. */
  ghost function TimesClosed<T>(s: State<T>, b: nat): nat {
    if b < |s.batches| && s.batches[b].Ended() then 1 else 0
  }

  ghost function TimesReleased<T>(s: State<T>, b: nat): nat {
    if b < |s.batches| && s.batches[b].status.Released? then 1 else 0
  }

  lemma StageStep<T>(n: nat, s: State<T>, a: Action<T>, b: nat)
    requires ValidSize(n) && HandOverTracks(s) && Step(n, s, a).Some?
    ensures var t := Step(n, s, a).value;
            && TimesClosed(t, b) == TimesClosed(s, b) + (if a == Close(b) then 1 else 0)
            && TimesReleased(t, b) == TimesReleased(s, b) + (if a == Deoccupy(b) then 1 else 0)
  {
  }

  /** Every run flips the phase once for each batch that was bounded, and takes each batch that
      was given back out of the occupancy word once. */
  lemma {:induction false} ClosedOnceReleasedOnce<T>(n: nat, s: State<T>, actions: seq<Action<T>>, b: nat)
    requires ValidSize(n) && Shape(n, s) && Run(n, s, actions).Some?
    ensures var t := Run(n, s, actions).value;
            && TimesClosed(s, b) + Times(actions, Close(b)) == TimesClosed(t, b) <= 1
            && TimesReleased(s, b) + Times(actions, Deoccupy(b)) == TimesReleased(t, b) <= TimesClosed(t, b)
    decreases |actions|
  {
    hide Shape;
    if actions != [] {
      StepShape(n, s, actions[0]);
      HandOverOf(n, s);
      StageStep(n, s, actions[0], b);
      ClosedOnceReleasedOnce(n, Step(n, s, actions[0]).value, actions[1..], b);
    }
  }

  lemma HandOverOf<T>(n: nat, s: State<T>)
    requires ValidSize(n) && Shape(n, s)
    ensures HandOverTracks(s)
  {
  }

  // ---------------------------------------------------------------- occupancy

  /** The occupancy word refines the set of outstanding batches: its bytes are the counters, and
      a region's masked word is zero exactly when no outstanding batch starts there. */
  lemma WordRefinesBatches<T>(n: nat, actions: seq<Action<T>>, s: State<T>, index: nat)
    requires ValidSize(n) && Reached(n, actions, s) && index < n
    ensures s.occupancy == Pack(Counts(n, s.batches))
    ensures var r := CurrentRegion(n, index); Byte(s.occupancy, r) == CountIn(n, s.batches, r) <= RegionSize(n)
    ensures And(s.occupancy, RegionMask(n, index)) == 0 <==>
            forall b :: 0 <= b < |s.batches| && s.batches[b].InWord() ==>
              RegionOf(n, s.batches[b].start) != CurrentRegion(n, index)
  {
    ReachedInv(n, actions, s);
    var r := CurrentRegion(n, index);
    PackedWordIsExact(Counts(n, s.batches));
    MaskCounts(n, s, index);
    CountAtMostRegion(n, s, r);
    CountZero(n, s.batches, r);
  }

  /** The owner's stale copy may call a free region full, never a full region free. */
  lemma StaleCopyErrsOnTheSafeSide<T>(n: nat, actions: seq<Action<T>>, s: State<T>, index: nat)
    requires ValidSize(n) && Reached(n, actions, s) && index < n && !s.owner.Occupied?
    ensures Byte(s.occupancy, CurrentRegion(n, index)) <= Byte(s.localOccupancy, CurrentRegion(n, index))
    ensures And(s.localOccupancy, RegionMask(n, index)) == 0 ==> And(s.occupancy, RegionMask(n, index)) == 0
  {
    WordRefinesBatches(n, actions, s, index);
    ReachedInv(n, actions, s);
    RegionWords(n, index);
    assert Counts(n, s.batches)[CurrentRegion(n, index)] <= Byte(s.localOccupancy, CurrentRegion(n, index));
    MaskReadsByte(n, index, s.occupancy);
    MaskReadsByte(n, index, s.localOccupancy);
  }

  /** A push is turned away exactly when, at the atomic load, an outstanding batch starts in the
      region it is about to enter; the load happens only at a region boundary. */
  lemma FullIsPrecise<T>(n: nat, actions: seq<Action<T>>, s: State<T>)
    requires ValidSize(n) && Reached(n, actions, s) && s.owner.Contended?
    ensures RegionStart(n, Total(s)) == Total(s) && s.owner.index == Total(s) % n
    ensures Decide(n, LoadOccupancy(s)).owner == Idle(Rejected(s.owner.task)) <==>
            exists b :: 0 <= b < |s.batches| && s.batches[b].InWord()
                        && RegionOf(n, s.batches[b].start) == RegionOf(n, Total(s))
  {
    ReachedInv(n, actions, s);
    BoundaryOf(n, Total(s));
    WordRefinesBatches(n, actions, s, s.owner.index);
  }

  /** The owner never gets stuck inside a push. */
  lemma OwnerProgress<T>(n: nat, actions: seq<Action<T>>, s: State<T>)
    requires ValidSize(n) && Reached(n, actions, s) && !s.owner.Idle?
    ensures exists a: Action<T> :: !a.Close? && !a.Deoccupy? && !a.Begin? && Step(n, s, a).Some?
  {
    ReachedInv(n, actions, s);
    var a: Action<T> :=
      match s.owner
      case Contended(_, _) => Load
      case Loaded(_, _, _) => StoreLoaded
      case Ready(_, _) => Write
      case Written(_, _) => AddSlot
      case Added(_, _) => ReplaceSlot
      case Opening(_) => Occupy
      case Occupied(_) => StoreOccupied
      case Idle(_) => Load;
    assert Step(n, s, a).Some?;
  }
}
