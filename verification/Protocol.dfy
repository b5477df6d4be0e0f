/** The batching protocol of the queue as an interleaved step system
    (crates/stack-queue/src/queue.rs, crates/stack-queue/src/assignment.rs).

    One owner pushes; any number of processors close and release batches. Every atomic operation
    is one step; runs of steps are sequentially consistent interleavings. Next to the words the
    program keeps, the state records every task ever pushed and every batch ever opened, in
    the order they were opened. */
module Protocol {
  import opened Wrappers
  import opened Bits
  import opened Helpers
  import opened Occupancy

  /** How a push ended: it joined the open batch, opened a batch, or was turned away. */
  datatype Outcome<+T> = Nothing | Joined | Opened(batch: nat) | Rejected(task: T)

  /** Where the owner stands inside a push. */
  datatype Owner<+T> =
    | Idle(last: Outcome<T>)
    | Contended(task: T, index: nat)          // the local copy says occupied; the atomic load is next
    | Loaded(task: T, index: nat, seen: nat)  // the atomic word was loaded
    | Ready(task: T, index: nat)              // the cell may be written
    | Written(task: T, index: nat)            // the cell was written; `fetch_add` is next
    | Added(index: nat, base: nat)            // the shared slot moved; the local slot is next
    | Opening(index: nat)                     // the phases differed; the region is to be occupied
    | Occupied(seen: nat)                     // the region was occupied; the local copy is next

  /** The life of a batch. Its guard exists from Open on; a bounded batch knows its counter range. */
  datatype Status =
    | Forming
    | Counted
    | Open
    | Bounded(end: nat, lo: nat, hi: nat)
    | Released(end: nat)

  datatype Batch = Batch(start: nat, base: nat, status: Status) {
    predicate Ended() {
      status.Bounded? || status.Released?
    }

    /** Not yet given back: its cells must not be written. */
    predicate Live() {
      !status.Released?
    }

    /** Included in the occupancy word. */
    predicate InWord() {
      status.Counted? || status.Open? || status.Bounded?
    }
  }

  datatype State<T> = State(
    slot: nat, occupancy: nat, buffer: seq<Option<T>>,
    localSlot: nat, localOccupancy: nat, owner: Owner<T>,
    pushed: seq<T>, batches: seq<Batch>)

  datatype Action<+T> =
    | Begin(task: T) | Load | StoreLoaded | Write | AddSlot | ReplaceSlot | Occupy | StoreOccupied
    | Close(batch: nat) | Deoccupy(batch: nat)

  function Initial<T>(n: nat): State<T> {
    State(0, 0, seq(n, _ => None), PHASE, 0, Idle(Nothing), [], [])
  }

  function WithStatus(batches: seq<Batch>, b: nat, status: Status): seq<Batch>
    requires b < |batches|
  {
    batches[b := batches[b].(status := status)]
  }

  function Min(a: nat, b: nat): nat {
    if a <= b then a else b
  }

  /** No batch is counted in the occupancy word. */
  predicate NoneOutstanding(batches: seq<Batch>) {
    forall c :: 0 <= c < |batches| ==> !batches[c].InWord()
  }

  /** How many of the pending wakers a release must wake, told by what is outstanding after it: at
      most one region's worth if nothing is, and none otherwise. */
  function DueWakers(n: nat, batches: seq<Batch>, pending: nat): nat
    requires ValidSize(n)
  {
    if NoneOutstanding(batches) then Min(RegionSize(n), pending) else 0
  }

  /** One atomic step, or None where the program cannot take it. */
  function Step<T>(n: nat, s: State<T>, a: Action<T>): Option<State<T>>
    requires ValidSize(n)
  {
    match a
    case Begin(task) => if s.owner.Idle? then Some(BeginPush(n, s, task)) else None
    case Load => if s.owner.Contended? then Some(LoadOccupancy(s)) else None
    case StoreLoaded => if s.owner.Loaded? then Some(Decide(n, s)) else None
    case Write =>
      if s.owner.Ready? && s.owner.index < |s.buffer| then Some(WriteCell(s)) else None
    case AddSlot => if s.owner.Written? then Some(AdvanceSlot(s)) else None
    case ReplaceSlot => if s.owner.Added? then Some(ReplaceLocal(s)) else None
    case Occupy => if s.owner.Opening? && s.batches != [] then Some(OccupyRegion(n, s)) else None
    case StoreOccupied => if s.owner.Occupied? && s.batches != [] then Some(HandOver(s)) else None
    case Close(b) => if b < |s.batches| && s.batches[b].status.Open? then Some(CloseBatch(s, b)) else None
    case Deoccupy(b) =>
      if b < |s.batches| && s.batches[b].status.Bounded? then Some(ReleaseBatch(n, s, b)) else None
  }

  function BeginPush<T>(n: nat, s: State<T>, task: T): State<T>
    requires ValidSize(n)
  {
    var index := SlotIndex(n, s.localSlot);
    if AtBoundary(n, index) && And(s.localOccupancy, RegionMask(n, index)) != 0
    then s.(owner := Contended(task, index))
    else s.(owner := Ready(task, index))
  }

  function LoadOccupancy<T>(s: State<T>): State<T>
    requires s.owner.Contended?
  {
    s.(owner := Loaded(s.owner.task, s.owner.index, s.occupancy))
  }

  function Decide<T>(n: nat, s: State<T>): State<T>
    requires ValidSize(n) && s.owner.Loaded?
  {
    var Loaded(task, index, seen) := s.owner;
    if And(seen, RegionMask(n, index)) == 0
    then s.(localOccupancy := seen, owner := Ready(task, index))
    else s.(localOccupancy := seen, owner := Idle(Rejected(task)))
  }

  function WriteCell<T>(s: State<T>): State<T>
    requires s.owner.Ready? && s.owner.index < |s.buffer|
  {
    var Ready(task, index) := s.owner;
    s.(buffer := s.buffer[index := Some(task)], owner := Written(task, index))
  }

  /** The `fetch_add`: the task becomes part of the queue, in the open batch or as a new one. */
  function AdvanceSlot<T>(s: State<T>): State<T>
    requires s.owner.Written?
  {
    var Written(task, index) := s.owner;
    s.(slot := WrappingAdd(s.slot, SLOT_STEP),
       owner := Added(index, s.slot),
       pushed := s.pushed + [task],
       batches := if And(Xor(s.slot, s.localSlot), PHASE) == 0 then s.batches
                  else s.batches + [Batch(|s.pushed|, s.slot, Forming)])
  }

  function ReplaceLocal<T>(s: State<T>): State<T>
    requires s.owner.Added?
  {
    var Added(index, base) := s.owner;
    s.(localSlot := WrappingAdd(base, SLOT_STEP),
       owner := if And(Xor(base, s.localSlot), PHASE) == 0 then Idle(Joined) else Opening(index))
  }

  function OccupyRegion<T>(n: nat, s: State<T>): State<T>
    requires ValidSize(n) && s.owner.Opening? && s.batches != []
  {
    var occupancy := WrappingAdd(s.occupancy, OneShifted(n, s.owner.index));
    s.(occupancy := occupancy,
       owner := Occupied(occupancy),
       batches := WithStatus(s.batches, |s.batches| - 1, Counted))
  }

  function HandOver<T>(s: State<T>): State<T>
    requires s.owner.Occupied? && s.batches != []
  {
    var last := |s.batches| - 1;
    s.(localOccupancy := s.owner.seen,
       owner := Idle(Opened(last)),
       batches := WithStatus(s.batches, last, Open))
  }

  /** The `fetch_xor` by the holder of the guard: the batch ends at the counter it finds. */
  function CloseBatch<T>(s: State<T>, b: nat): State<T>
    requires b < |s.batches|
  {
    var bounds := Bounded(|s.pushed|, Shr(s.batches[b].base, INDEX_SHIFT), Shr(s.slot, INDEX_SHIFT));
    s.(slot := Xor(s.slot, PHASE), batches := WithStatus(s.batches, b, bounds))
  }

  function ReleaseBatch<T>(n: nat, s: State<T>, b: nat): State<T>
    requires ValidSize(n) && b < |s.batches| && s.batches[b].status.Bounded?
  {
    var Bounded(end, lo, _) := s.batches[b].status;
    s.(occupancy := WrappingSub(s.occupancy, OneShifted(n, And(lo, n - 1))),
       batches := WithStatus(s.batches, b, Released(end)))
  }

  /** A run: None as soon as a step cannot be taken. */
  function Run<T>(n: nat, s: State<T>, actions: seq<Action<T>>): Option<State<T>>
    requires ValidSize(n)
    decreases |actions|
  {
    if actions == [] then Some(s)
    else
      match Step(n, s, actions[0])
      case None => None
      case Some(next) => Run(n, next, actions[1..])
  }

  lemma {:induction false} RunConcat<T>(n: nat, s: State<T>, xs: seq<Action<T>>, ys: seq<Action<T>>)
    requires ValidSize(n) && Run(n, s, xs).Some?
    ensures Run(n, s, xs + ys) == Run(n, Run(n, s, xs).value, ys)
    decreases |xs|
  {
    if xs == [] {
      assert xs + ys == ys;
    } else {
      assert (xs + ys)[0] == xs[0] && (xs + ys)[1..] == xs[1..] + ys;
      RunConcat(n, Step(n, s, xs[0]).value, xs[1..], ys);
    }
  }

  lemma RunSnoc<T>(n: nat, s: State<T>, xs: seq<Action<T>>, a: Action<T>)
    requires ValidSize(n) && Run(n, s, xs).Some? && Step(n, Run(n, s, xs).value, a).Some?
    ensures Run(n, s, xs + [a]) == Step(n, Run(n, s, xs).value, a)
  {
    RunConcat(n, s, xs, [a]);
    var t := Run(n, s, xs).value;
    assert Run(n, t, [a]) == Run(n, Step(n, t, a).value, []);
  }

  // ---------------------------------------------------------------- invariant

  function Total<T>(s: State<T>): nat {
    |s.pushed|
  }

  /** Where batch b ends; an open batch ends at the latest push. */
  function EndOf<T>(s: State<T>, b: nat): nat
    requires b < |s.batches|
  {
    match s.batches[b].status
    case Bounded(end, _, _) => end
    case Released(end) => end
    case _ => Total(s)
  }

  ghost predicate HasOpen<T>(s: State<T>) {
    s.batches != [] && !s.batches[|s.batches| - 1].Ended()
  }

  /** The owner's copy of the slot lags by one push between `fetch_add` and the replacement. */
  function LocalTotal<T>(s: State<T>): int {
    if s.owner.Added? then Total(s) - 1 else Total(s)
  }

  ghost predicate SlotsTrack<T>(n: nat, s: State<T>)
    requires ValidSize(n)
  {
    && |s.buffer| == n
    && LocalTotal(s) >= 0
    && s.slot == SlotWord(Total(s), s.slot % 2)
    && s.localSlot == SlotWord(LocalTotal(s), s.localSlot % 2)
  }

  ghost predicate OwnerTracks<T>(n: nat, s: State<T>)
    requires ValidSize(n)
  {
    match s.owner
    case Idle(_) => true
    case Contended(_, index) => index == Total(s) % n && AtBoundary(n, index)
    case Loaded(_, index, _) => index == Total(s) % n && AtBoundary(n, index)
    case Ready(_, index) => index == Total(s) % n
    case Written(_, index) => index == Total(s) % n
    case Added(index, base) =>
      Total(s) > 0 && index == (Total(s) - 1) % n && base == SlotWord(Total(s) - 1, base % 2)
    case Opening(index) => Total(s) > 0 && index == (Total(s) - 1) % n
    case Occupied(_) => true
  }

  /** Only the last batch can be between its opening and the hand-over of its guard, and only
      while the owner is at the matching point of its push. */
  ghost predicate HandOverTracks<T>(s: State<T>) {
    && (forall b :: 0 <= b < |s.batches| && s.batches[b].status.Forming? ==>
          b == |s.batches| - 1 && (s.owner.Added? || s.owner.Opening?) && s.batches[b].start == Total(s) - 1)
    && (forall b :: 0 <= b < |s.batches| && s.batches[b].status.Counted? ==>
          b == |s.batches| - 1 && s.owner.Occupied?)
    && (s.owner.Added? ==>
          (s.owner.base % 2 != s.localSlot % 2 <==>
           s.batches != [] && s.batches[|s.batches| - 1].status.Forming?))
    && (s.owner.Opening? ==> s.batches != [] && s.batches[|s.batches| - 1].status.Forming?)
    && (s.owner.Occupied? ==> s.batches != [] && s.batches[|s.batches| - 1].status.Counted?)
  }

  /** The phase a further push compares with. */
  function JoinPhase<T>(s: State<T>): nat {
    if s.owner.Added? then s.owner.base % 2 else s.localSlot % 2
  }

  /** The phases agree exactly while a batch is open. */
  ghost predicate PhaseTracks<T>(s: State<T>) {
    HasOpen(s) <==> s.slot % 2 == JoinPhase(s)
  }

  /** Listed in the order they were opened, the batches are non-empty, each begins where the one
      before it ended, and together they cover every push. */
  ghost predicate Contiguous<T>(s: State<T>) {
    && (s.batches == [] ==> Total(s) == 0)
    && (s.batches != [] ==> s.batches[0].start == 0 && EndOf(s, |s.batches| - 1) == Total(s))
    && (forall b :: 0 <= b < |s.batches| ==> s.batches[b].start < EndOf(s, b) <= Total(s))
    && (forall b :: 0 <= b < |s.batches| - 1 ==>
          s.batches[b].Ended() && EndOf(s, b) == s.batches[b + 1].start)
  }

  /** The words a guard carries are those of its range. */
  ghost predicate GuardsTrack<T>(s: State<T>) {
    forall b :: 0 <= b < |s.batches| ==>
      var batch := s.batches[b];
      && batch.base == SlotWord(batch.start, batch.base % 2)
      && (batch.status.Bounded? ==>
            batch.status.lo == batch.start % COUNTER && batch.status.hi == batch.status.end % COUNTER)
  }

  ghost predicate Shape<T>(n: nat, s: State<T>)
    requires ValidSize(n)
  {
    && SlotsTrack(n, s) && OwnerTracks(n, s) && HandOverTracks(s)
    && PhaseTracks(s) && Contiguous(s) && GuardsTrack(s)
  }

  /** The producer never gets a full lap ahead of the region a live batch starts in. */
  ghost predicate Protected<T>(n: nat, s: State<T>)
    requires ValidSize(n)
  {
    forall b :: 0 <= b < |s.batches| && s.batches[b].Live() ==>
      Total(s) <= RegionStart(n, s.batches[b].start) + n
  }

  /** Once the check has passed at a boundary, no counted batch starts in the region. */
  ghost predicate Cleared<T>(n: nat, s: State<T>)
    requires ValidSize(n)
  {
    (s.owner.Ready? || s.owner.Written?) && AtBoundary(n, s.owner.index) ==>
      forall b :: 0 <= b < |s.batches| && s.batches[b].InWord() ==>
        RegionOf(n, s.batches[b].start) != CurrentRegion(n, s.owner.index)
  }

  /** If push i belongs to live batch b, its task is still in its cell. */
  ghost predicate CellHolds<T>(n: nat, s: State<T>, b: nat, i: nat)
    requires ValidSize(n) && |s.buffer| == n && b < |s.batches|
  {
    s.batches[b].Live() && s.batches[b].start <= i < EndOf(s, b) ==>
      i < Total(s) && s.buffer[i % n] == Some(s.pushed[i])
  }

  /** Every cell of every live batch holds the task pushed at its position. */
  ghost predicate CellsHold<T>(n: nat, s: State<T>)
    requires ValidSize(n)
  {
    && |s.buffer| == n
    && (s.owner.Written? ==> s.owner.index < n && s.buffer[s.owner.index] == Some(s.owner.task))
    && forall b: nat, i: nat :: b < |s.batches| ==> CellHolds(n, s, b, i)
  }

  /** Batches counted in the word that start in region r. */
  function CountIn(n: nat, batches: seq<Batch>, r: nat): nat
    requires ValidSize(n)
  {
    if batches == [] then 0
    else
      var init, last := batches[..|batches| - 1], batches[|batches| - 1];
      CountIn(n, init, r) + (if last.InWord() && RegionOf(n, last.start) == r then 1 else 0)
  }

  function Counts(n: nat, batches: seq<Batch>): (counts: seq<nat>)
    requires ValidSize(n)
    ensures |counts| == REGION_COUNT
  {
    seq(REGION_COUNT, r requires 0 <= r < REGION_COUNT => CountIn(n, batches, r))
  }

  /** A copy of the word is stale but safe: no region has more batches than the copy says. */
  ghost predicate AtLeast(word: nat, counts: seq<nat>) {
    forall r :: 0 <= r < |counts| ==> counts[r] <= Byte(word, r)
  }

  predicate SmallCounts<T>(n: nat, s: State<T>)
    requires ValidSize(n)
  {
    Small(Counts(n, s.batches))
  }

  ghost predicate WordTracks<T>(n: nat, s: State<T>)
    requires ValidSize(n)
  {
    s.occupancy == Pack(Counts(n, s.batches)) % WORD
  }

  /** Outside the add-then-store window of an occupy, the owner's copy covers the word; so does
      any copy it holds in a register. */
  ghost predicate CopiesCover<T>(n: nat, s: State<T>)
    requires ValidSize(n)
  {
    && (!s.owner.Occupied? ==> AtLeast(s.localOccupancy, Counts(n, s.batches)))
    && (s.owner.Occupied? ==> AtLeast(s.owner.seen, Counts(n, s.batches)))
    && (s.owner.Loaded? ==> AtLeast(s.owner.seen, Counts(n, s.batches)))
  }

  ghost predicate Inv<T>(n: nat, s: State<T>)
    requires ValidSize(n)
  {
    && Shape(n, s) && Protected(n, s) && Cleared(n, s) && CellsHold(n, s)
    && WordTracks(n, s) && SmallCounts(n, s) && CopiesCover(n, s)
  }
}
