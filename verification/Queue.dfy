/** The queue as the program has it: atomic words, the owner's copies and the ring of cells,
    updated in place (crates/stack-queue/src/queue.rs, crates/stack-queue/src/assignment.rs).

    Next to them the class keeps the history the protocol speaks of: where the owner stands, every
    task pushed and every batch opened. Between any two atomic operations other threads may run;
    a method takes what they try as schedules, and its contract says which turns, its own and theirs,
    lead from the state before to the state after. */
module Queue {
  import opened Wrappers
  import opened Bits
  import opened Helpers
  import opened Occupancy
  import opened Protocol
  import opened ProtocolSteps
  import opened Guarantees
  import opened Ranges
  import opened Turns
  import opened Outcomes

  type Waker = nat

  /** The outcomes of an attempt to steal from the pending wakers. */
  datatype Steal = Empty | Success(waker: Waker) | Retry

  /** What the threads that hold guards do between two operations of the owner. */
  predicate ByProcessors<T>(schedule: seq<Action<T>>) {
    forall k :: 0 <= k < |schedule| ==> schedule[k].Close? || schedule[k].Deoccupy?
  }

  /** The status of the latest batch; Released if there was none. */
  function Latest(batches: seq<Batch>): Status {
    if batches == [] then Released(0) else batches[|batches| - 1].status
  }

  /** What the holder of a bounded batch can rely on as long as nobody else gives it back. */
  ghost predicate GuardHeld<T>(s: State<T>, t: State<T>, b: nat, schedule: seq<Action<T>>) {
    b < |s.batches| && s.batches[b].status.Bounded? && Deoccupy(b) !in schedule ==>
      b < |t.batches| && t.batches[b] == s.batches[b] && Contents(t, b) == Contents(s, b)
  }

  lemma GuardStep<T>(n: nat, s: State<T>, a: Action<T>, b: nat, schedule: seq<Action<T>>)
    requires ValidSize(n) && Inv(n, s) && Step(n, s, a).Some? && a in schedule
    ensures GuardHeld(s, Step(n, s, a).value, b, schedule)
  {
    if b < |s.batches| && s.batches[b].status.Bounded? {
      StepKeepsClosed(n, s, a, b);
    }
  }

  /** What the owner can rely on while processors run. */
  ghost predicate OwnerUndisturbed<T>(n: nat, s: State<T>, t: State<T>)
    requires ValidSize(n)
  {
    && t.owner == s.owner && t.pushed == s.pushed && t.buffer == s.buffer
    && t.localSlot == s.localSlot && t.localOccupancy == s.localOccupancy && |t.batches| == |s.batches|
    && (forall b :: 0 <= b < |s.batches| ==>
          && t.batches[b].start == s.batches[b].start
          && t.batches[b].status.Forming? == s.batches[b].status.Forming?
          && t.batches[b].status.Counted? == s.batches[b].status.Counted?)
    && (forall r :: 0 <= r < REGION_COUNT ==> CountIn(n, t.batches, r) <= CountIn(n, s.batches, r))
  }

  lemma ProcessorStep<T>(n: nat, s: State<T>, a: Action<T>)
    requires ValidSize(n) && Inv(n, s) && Step(n, s, a).Some?
    ensures a.Close? || a.Deoccupy? ==> OwnerUndisturbed(n, s, Step(n, s, a).value)
    ensures |Step(n, s, a).value.buffer| == |s.buffer|
  {
    if a.Close? || a.Deoccupy? {
      OnlyOccupyCounts(n, s, a);
    }
  }

  lemma NobodyActs<T>(n: nat, s: State<T>, schedule: seq<Action<T>>)
    requires ValidSize(n)
    ensures RunOf(Mover<T>(n), s, []) == Some(s) && OwnerUndisturbed(n, s, s)
    ensures forall b :: GuardHeld(s, s, b, schedule)
    ensures schedule[0..] == schedule
  {
  }

  /** One more step by others carries all of it on. */
  lemma OthersStep<T>(n: nat, from: State<T>, trace: seq<Action<T>>, s: State<T>, a: Action<T>,
                      schedule: seq<Action<T>>)
    requires ValidSize(n) && Inv(n, s) && RunOf(Mover<T>(n), from, trace) == Some(s) && a in schedule
    requires BoundedStep(n, s, a).Some?
    ensures var t := BoundedStep(n, s, a).value;
            && Inv(n, t) && |t.buffer| == |s.buffer| && RunOf(Mover<T>(n), from, trace + [a]) == Some(t)
            && (ByProcessors(schedule) && OwnerUndisturbed(n, from, s) ==> OwnerUndisturbed(n, from, t))
            && (forall b :: GuardHeld(from, s, b, schedule) ==> GuardHeld(from, t, b, schedule))
  {
    hide Inv, RunOf, SmallCounts, Step, CountIn;
    StepInv(n, s, a);
    RunOfSnoc(Mover<T>(n), from, trace, a);
    ProcessorStep(n, s, a);
    forall b: nat | GuardHeld(from, s, b, schedule)
      ensures GuardHeld(from, Step(n, s, a).value, b, schedule)
    {
      GuardStep(n, s, a, b, schedule);
    }
  }

  /** The owner's step, or a holder's, comes next. */
  lemma OwnTurn<T>(n: nat, from: State<T>, before: seq<Turn<Action<T>>>, s: State<T>, a: Action<T>, t: State<T>)
    returns (turns: seq<Turn<Action<T>>>)
    requires ValidSize(n) && Played(Mover<T>(n), from, before, s) && Step(n, s, a) == Some(t) && Inv(n, t)
    ensures turns == before + [Own(a)] && Played(Mover<T>(n), from, turns, t)
  {
    hide Played, Step;
    turns := ThenOwn(Mover<T>(n), from, before, s, a, t);
  }

  lemma AddSlotBatches<T>(n: nat, s: State<T>)
    requires ValidSize(n) && Inv(n, s) && s.owner.Written?
    ensures var t := AdvanceSlot(s);
            && (Latest(t.batches).Forming? <==> |t.batches| != |s.batches|)
            && (Latest(t.batches).Forming? ==>
                  |t.batches| == |s.batches| + 1 && t.batches[|s.batches|].start == Total(s))
            && forall r :: 0 <= r < REGION_COUNT ==> CountIn(n, t.batches, r) <= CountIn(n, s.batches, r)
  {
    OnlyOccupyCounts(n, s, AddSlot);
  }

  class StackQueue<T> {
    const n: nat
    var slot: nat
    var occupancy: nat
    const buffer: array<Option<T>>
    var localSlot: nat
    var localOccupancy: nat

    var owner: Owner<T>
    var pushed: seq<T>
    var batches: seq<Batch>

    /** Wakers of futures that found the queue full, oldest first. */
    var pending: seq<Waker>

    function Abs(): State<T>
      reads this, buffer
    {
      State(slot, occupancy, buffer[..], localSlot, localOccupancy, owner, pushed, batches)
    }

    ghost predicate Valid()
      reads this, buffer
    {
      ValidSize(n) && Inv(n, Abs())
    }

    constructor (size: nat)
      requires ValidSize(size)
      ensures n == size && fresh(buffer) && Abs() == Initial(size) && Valid()
    {
      n := size;
      slot := 0;
      occupancy := 0;
      buffer := new Option<T>[size](_ => None);
      localSlot := PHASE;
      localOccupancy := 0;
      owner := Idle(Nothing);
      pushed := [];
      batches := [];
      pending := [];
      new;
      assert buffer[..] == seq(size, _ => None);
      InitialInv<T>(size);
    }

    /** Other threads take their turn: of the schedule happens just what is possible when it comes
        up, by the protocol and within the bound on the counters. */
    method Interfere(schedule: seq<Action<T>>)
      requires Valid()
      modifies this, buffer
      ensures Valid() && RunOf(Mover<T>(n), old(Abs()), Applied(Mover<T>(n), old(Abs()), schedule)) == Some(Abs())
      ensures ByProcessors(schedule) ==> OwnerUndisturbed(n, old(Abs()), Abs())
      ensures forall b :: GuardHeld(old(Abs()), Abs(), b, schedule)
      ensures pending == old(pending)
    {
      hide Inv, RunOf, Step, OwnerUndisturbed, GuardHeld, SmallCounts, CountIn;
      ghost var trace: seq<Action<T>> := [];
      NobodyActs(n, Abs(), schedule);
      for k := 0 to |schedule|
        invariant Valid() && RunOf(Mover<T>(n), old(Abs()), trace) == Some(Abs())
        invariant Applied(Mover<T>(n), old(Abs()), schedule) == trace + Applied(Mover<T>(n), Abs(), schedule[k..])
        invariant ByProcessors(schedule) ==> OwnerUndisturbed(n, old(Abs()), Abs())
        invariant forall b :: GuardHeld(old(Abs()), Abs(), b, schedule)
        invariant pending == old(pending)
      {
        assert schedule[k..][0] == schedule[k] && schedule[k..][1..] == schedule[k + 1..];
        var next := BoundedStep(n, Abs(), schedule[k]);
        if next.Some? {
          OthersStep(n, old(Abs()), trace, Abs(), schedule[k], schedule);
          trace := trace + [schedule[k]];
          Become(next.value);
        }
      }
      assert schedule[|schedule|..] == [] && trace + [] == trace;
    }

    method Become(s: State<T>)
      requires |s.buffer| == buffer.Length
      modifies this, buffer
      ensures Abs() == s && pending == old(pending)
    {
      slot, occupancy, localSlot, localOccupancy := s.slot, s.occupancy, s.localSlot, s.localOccupancy;
      owner, pushed, batches := s.owner, s.pushed, s.batches;
      forall k | 0 <= k < buffer.Length {
        buffer[k] := s.buffer[k];
      }
      assert buffer[..] == s.buffer;
    }

    // -------------------------------------------------------------- single operations

    method CurrentWriteIndex(task: T) returns (index: nat, contended: bool)
      requires Valid() && owner.Idle?
      modifies this`owner
      ensures Valid() && Step(n, old(Abs()), Begin(task)) == Some(Abs())
      ensures owner == if contended then Contended(task, index) else Ready(task, index)
      ensures index == |pushed| % n && (contended ==> AtBoundary(n, index))
    {
      index := SlotIndex(n, localSlot);
      contended := AtBoundary(n, index) && And(localOccupancy, RegionMask(n, index)) != 0;
      SlotIndexOf(n, |pushed|, localSlot % 2);
      QuietStepInv(n, Abs(), Begin(task));
      owner := if contended then Contended(task, index) else Ready(task, index);
    }

    method LoadShared() returns (seen: nat)
      requires Valid() && owner.Contended?
      modifies this`owner
      ensures Valid() && Step(n, old(Abs()), Load) == Some(Abs())
      ensures seen == occupancy && owner == Loaded(old(owner).task, old(owner).index, seen)
      ensures And(seen, RegionMask(n, old(owner).index)) != 0 <==> CountIn(n, batches, RegionOf(n, |pushed|)) > 0
    {
      MaskCounts(n, Abs(), owner.index);
      QuietStepInv(n, Abs(), Load);
      seen := occupancy;
      owner := Loaded(owner.task, owner.index, seen);
    }

    method SyncLocal(seen: nat) returns (full: bool)
      requires Valid() && owner.Loaded? && seen == owner.seen
      modifies this`owner, this`localOccupancy
      ensures Valid() && Step(n, old(Abs()), StoreLoaded) == Some(Abs())
      ensures localOccupancy == seen && (full <==> And(seen, RegionMask(n, old(owner).index)) != 0)
      ensures owner == if full then Idle(Rejected(old(owner).task)) else Ready(old(owner).task, old(owner).index)
    {
      QuietStepInv(n, Abs(), StoreLoaded);
      localOccupancy := seen;
      full := And(seen, RegionMask(n, owner.index)) != 0;
      owner := if full then Idle(Rejected(owner.task)) else Ready(owner.task, owner.index);
    }

    method WriteBuffer(index: nat, task: T)
      requires Valid() && owner == Ready(task, index)
      modifies this`owner, buffer
      ensures Valid() && Step(n, old(Abs()), Write) == Some(Abs())
      ensures owner == Written(task, index)
    {
      QuietStepInv(n, Abs(), Write);
      buffer[index] := Some(task);
      owner := Written(task, index);
      assert buffer[..] == old(buffer[..])[index := Some(task)];
    }

    method FetchAddSlot() returns (base: nat)
      requires Valid() && owner.Written?
      modifies this`slot, this`owner, this`pushed, this`batches
      ensures Valid() && Step(n, old(Abs()), AddSlot) == Some(Abs())
      ensures base == old(slot) && owner == Added(old(owner).index, base)
      ensures pushed == old(pushed) + [old(owner).task]
      ensures Latest(batches).Forming? <==> |batches| != old(|batches|)
      ensures Latest(batches).Forming? ==>
                |batches| == old(|batches|) + 1 && batches[|batches| - 1].start == old(|pushed|)
      ensures forall r :: 0 <= r < REGION_COUNT ==> CountIn(n, batches, r) <= old(CountIn(n, batches, r))
    {
      hide Inv, CountIn, RegionOf;
      QuietStepInv(n, Abs(), AddSlot);
      AddSlotBatches(n, Abs());
      base := slot;
      slot := WrappingAdd(slot, SLOT_STEP);
      batches := if And(Xor(base, localSlot), PHASE) == 0 then batches
                 else batches + [Batch(|pushed|, base, Forming)];
      pushed := pushed + [owner.task];
      owner := Added(owner.index, base);
    }

    method ReplaceSlot(base: nat) returns (opens: bool)
      requires Valid() && owner.Added? && base == owner.base
      modifies this`localSlot, this`owner
      ensures Valid() && Step(n, old(Abs()), Action.ReplaceSlot) == Some(Abs())
      ensures owner == if opens then Opening(old(owner).index) else Idle(Joined)
      ensures opens <==> Latest(batches).Forming?
      ensures batches != [] && |pushed| > 0
    {
      QuietStepInv(n, Abs(), Action.ReplaceSlot);
      var prev := localSlot;
      localSlot := WrappingAdd(base, SLOT_STEP);
      opens := And(Xor(base, prev), PHASE) != 0;
      owner := if opens then Opening(owner.index) else Idle(Joined);
    }

    method FetchAddOccupancy(index: nat) returns (seen: nat)
      requires Valid() && owner == Opening(index) && |pushed| > 0 && Headroom(n, batches, |pushed| - 1)
      modifies this`occupancy, this`owner, this`batches
      ensures Valid() && Step(n, old(Abs()), Occupy) == Some(Abs())
      ensures seen == occupancy && owner == Occupied(seen)
      ensures |batches| == old(|batches|) > 0
      ensures forall b :: 0 <= b < |batches| ==> batches[b].start == old(batches)[b].start
    {
      hide Inv, CountIn, RegionOf, SmallCounts;
      OccupySmall(n, Abs());
      StepInv(n, Abs(), Occupy);
      seen := WrappingAdd(occupancy, OneShifted(n, index));
      occupancy := seen;
      owner := Occupied(seen);
      batches := WithStatus(batches, |batches| - 1, Counted);
    }

    method StoreLocal(seen: nat) returns (batch: nat)
      requires Valid() && owner == Occupied(seen)
      modifies this`localOccupancy, this`owner, this`batches
      ensures Valid() && Step(n, old(Abs()), StoreOccupied) == Some(Abs())
      ensures owner == Idle(Opened(batch)) && |batches| == batch + 1 && batches[batch].status.Open?
      ensures |batches| == old(|batches|) && batches[batch].start == old(batches)[batch].start
    {
      QuietStepInv(n, Abs(), StoreOccupied);
      batch := |batches| - 1;
      localOccupancy := seen;
      owner := Idle(Opened(batch));
      batches := WithStatus(batches, batch, Open);
    }

    // -------------------------------------------------------------- pushing

    /** What other threads do at the numbered points of a push. */
    ghost predicate Admissible(env: nat -> seq<Action<T>>)
      reads this
    {
      && (forall k :: ByProcessors(env(k)))
      && ValidSize(n) && Headroom(n, batches, |pushed|)
    }

    /** The processors take their turn. */
    method Yield(schedule: seq<Action<T>>,
                ghost from: State<T>, ghost before: seq<Turn<Action<T>>>)
      returns (ghost turns: seq<Turn<Action<T>>>)
      requires Valid() && Played(Mover<T>(n), from, before, Abs()) && ByProcessors(schedule)
      modifies this, buffer
      ensures pending == old(pending)
      ensures Valid() && Played(Mover<T>(n), from, turns, Abs())
      ensures turns == before + [Others(schedule)] && OwnerUndisturbed(n, old(Abs()), Abs())
    {
      hide Inv, Run, Step, Played;
      ghost var s := Abs();
      Interfere(schedule);
      turns := ThenOthers(Mover<T>(n), from, before, s, schedule, Abs());
    }

    /** The slow path of the check: one atomic load, then the owner's copy is replaced by it. */
    method CheckRegionalOccupancy(env: nat -> seq<Action<T>>,
                ghost from: State<T>, ghost before: seq<Turn<Action<T>>>)
      returns (full: bool, ghost turns: seq<Turn<Action<T>>>)
      requires Valid() && owner.Contended? && Played(Mover<T>(n), from, before, Abs())
      requires forall k :: ByProcessors(env(k))
      modifies this, buffer
      ensures pending == old(pending)
      ensures turns == before + CheckTurns(env, Plain)
      ensures Valid() && Played(Mover<T>(n), from, turns, Abs())
      ensures owner == if full then Idle(Rejected(old(owner).task)) else Ready(old(owner).task, old(owner).index)
      ensures pushed == old(pushed) && buffer[..] == old(buffer[..])
      ensures localSlot == old(localSlot) && |batches| == old(|batches|)
      ensures forall r :: 0 <= r < REGION_COUNT ==> CountIn(n, batches, r) <= old(CountIn(n, batches, r))
      ensures full ==> old(CountIn(n, batches, RegionOf(n, |pushed|))) > 0
    {
      hide Played, Inv, CountIn, RegionOf, RegionMask, And, Run, Step;
      RegionInRange(n, |pushed|);
      turns := Yield(env(1), from, before);
      ghost var s1 := Abs();
      var seen := LoadShared();
      turns := OwnTurn(n, from, turns, s1, Load, Abs());
      turns := Yield(env(2), from, turns);
      ghost var s2 := Abs();
      full := SyncLocal(seen);
      turns := OwnTurn(n, from, turns, s2, StoreLoaded, Abs());
    }

    method OccupyRegion(index: nat, env: nat -> seq<Action<T>>,
                ghost from: State<T>, ghost before: seq<Turn<Action<T>>>)
      returns (batch: nat, ghost turns: seq<Turn<Action<T>>>)
      requires Valid() && owner == Opening(index) && |pushed| > 0 && Played(Mover<T>(n), from, before, Abs())
      requires (forall k :: ByProcessors(env(k))) && Headroom(n, batches, |pushed| - 1)
      modifies this, buffer
      ensures pending == old(pending)
      ensures turns == before + OccupyTurns(env, Plain)
      ensures Valid() && Played(Mover<T>(n), from, turns, Abs()) && pushed == old(pushed)
      ensures |batches| == old(|batches|) == batch + 1 && batches[batch].status.Open? && owner == Idle(Opened(batch))
      ensures batches[batch].start == old(batches)[batch].start
    {
      hide Played, Inv, CountIn, RegionOf, Run, Step, IsPowerOfTwo;
      turns := Yield(env(6), from, before);
      RegionInRange(n, |pushed| - 1);
      ghost var s1 := Abs();
      var seen := FetchAddOccupancy(index);
      turns := OwnTurn(n, from, turns, s1, Occupy, Abs());
      turns := Yield(env(7), from, turns);
      ghost var s2 := Abs();
      batch := StoreLocal(seen);
      turns := OwnTurn(n, from, turns, s2, StoreOccupied, Abs());
    }

    /** A push, whatever the processors do in between. It takes the turns of a push and no others;
        it ends either with the task at the end of the queue, in the batch that was open at the
        `fetch_add` or in one of its own whose guard is handed out, or with the task turned away and
        nothing of the queue changed by the owner; and which of these is decided by what it found
        and what the others scheduled. */
    method Push(task: T, env: nat -> seq<Action<T>>)
      returns (outcome: Outcome<T>, ghost slow: bool, ghost turns: seq<Turn<Action<T>>>)
      requires Valid() && owner.Idle? && Admissible(env)
      modifies this, buffer
      ensures pending == old(pending)
      ensures Valid() && Played(Mover<T>(n), old(Abs()), turns, Abs()) && owner == Idle(outcome)
      ensures turns == PushTurns(env, Plain, task, slow, outcome) && (outcome.Rejected? ==> slow)
      ensures Decided(n, old(Abs()), Abs(), outcome, Scheduled(env, b => Close(b)), Scheduled(env, b => Deoccupy(b)))
      ensures outcome.Rejected? ==>
                && outcome.task == task
                && pushed == old(pushed) && buffer[..] == old(buffer[..])
                && localSlot == old(localSlot) && |batches| == old(|batches|)
      ensures outcome.Rejected? ==>
                && RegionStart(n, |pushed|) == |pushed|
                && old(CountIn(n, batches, RegionOf(n, |pushed|))) > 0
      ensures !outcome.Rejected? ==> pushed == old(pushed) + [task]
      ensures outcome.Joined? ==> |batches| == old(|batches|) > 0
      ensures outcome.Opened? ==>
                && outcome.batch == old(|batches|) == |batches| - 1
                && batches[outcome.batch].start == old(|pushed|)
                && batches[outcome.batch].status.Open?
      ensures outcome != Nothing
    {
      hide Played, Inv, CountIn, RegionOf, RegionStart, Step, Run, CheckTurns, CommitTurns, Decided, IsPowerOfTwo;
      ghost var from := Abs();
      RegionInRange(n, |pushed|);
      var index, full;
      index, full, slow, turns := Admit(task, env);
      if full {
        outcome := Rejected(task);
      } else {
        outcome, turns := Commit(index, task, env, from, turns);
      }
      assert turns == PushTurns(env, Plain, task, slow, outcome);
      PushDecides(n, from, env, task, slow, outcome, Abs());
    }

    /** The first half of a push: the index, and the check where it begins a region. */
    method Admit(task: T, env: nat -> seq<Action<T>>)
      returns (index: nat, full: bool, ghost slow: bool, ghost turns: seq<Turn<Action<T>>>)
      requires Valid() && owner.Idle? && forall k :: ByProcessors(env(k))
      modifies this, buffer
      ensures pending == old(pending)
      ensures turns == [Others(env(0)), Own(Begin(task))] + (if slow then CheckTurns(env, Plain) else [])
      ensures Valid() && Played(Mover<T>(n), old(Abs()), turns, Abs()) && (full ==> slow)
      ensures owner == if full then Idle(Rejected(task)) else Ready(task, index)
      ensures pushed == old(pushed) && buffer[..] == old(buffer[..])
      ensures localSlot == old(localSlot) && |batches| == old(|batches|)
      ensures forall r :: 0 <= r < REGION_COUNT ==> CountIn(n, batches, r) <= old(CountIn(n, batches, r))
      ensures full ==> RegionStart(n, |pushed|) == |pushed| && old(CountIn(n, batches, RegionOf(n, |pushed|))) > 0
    {
      hide Played, Inv, CountIn, RegionOf, RegionStart, Step, Run, CheckTurns, IsPowerOfTwo;
      ghost var from := Abs();
      NoTurns(Mover<T>(n), from);
      RegionInRange(n, |pushed|);
      turns := Yield(env(0), from, []);
      ghost var s1 := Abs();
      var contended;
      index, contended := CurrentWriteIndex(task);
      turns := OwnTurn(n, from, turns, s1, Begin(task), Abs());
      full, slow := false, contended;
      if contended {
        BoundaryOf(n, |pushed|);
        full, turns := CheckRegionalOccupancy(env, from, turns);
      }
    }

    /** The rest of a push once its cell is known to be free. */
    method Commit(index: nat, task: T, env: nat -> seq<Action<T>>,
                ghost from: State<T>, ghost before: seq<Turn<Action<T>>>)
      returns (outcome: Outcome<T>, ghost turns: seq<Turn<Action<T>>>)
      requires Valid() && owner == Ready(task, index) && Played(Mover<T>(n), from, before, Abs()) && Admissible(env)
      modifies this, buffer
      ensures pending == old(pending)
      ensures turns == before + CommitTurns(env, Plain, outcome)
      ensures Valid() && Played(Mover<T>(n), from, turns, Abs()) && owner == Idle(outcome)
      ensures pushed == old(pushed) + [task]
      ensures outcome.Joined? || outcome.Opened?
      ensures outcome.Joined? ==> |batches| == old(|batches|) > 0
      ensures outcome.Opened? ==>
                && outcome.batch == old(|batches|) == |batches| - 1
                && batches[outcome.batch].start == old(|pushed|)
                && batches[outcome.batch].status.Open?
    {
      var base;
      hide Played, Inv, CountIn, RegionOf, Run, Step, IsPowerOfTwo;
      base, turns := Append(index, task, env, from, before);
      outcome, turns := Settle(base, env, from, turns);
    }

    /** The cell is written and the task becomes part of the queue. */
    method Append(index: nat, task: T, env: nat -> seq<Action<T>>,
                ghost from: State<T>, ghost before: seq<Turn<Action<T>>>)
      returns (base: nat, ghost turns: seq<Turn<Action<T>>>)
      requires Valid() && owner == Ready(task, index) && Played(Mover<T>(n), from, before, Abs()) && Admissible(env)
      modifies this, buffer
      ensures pending == old(pending)
      ensures turns == before + AppendTurns(env, Plain)
      ensures Valid() && Played(Mover<T>(n), from, turns, Abs()) && owner == Added(index, base)
      ensures pushed == old(pushed) + [task] && Headroom(n, batches, |pushed| - 1)
      ensures Latest(batches).Forming? <==> |batches| != old(|batches|)
      ensures Latest(batches).Forming? ==>
                |batches| == old(|batches|) + 1 && batches[|batches| - 1].start == old(|pushed|)
    {
      hide Played, Inv, CountIn, RegionOf, Run, Step, IsPowerOfTwo;
      RegionInRange(n, |pushed|);
      turns := Yield(env(3), from, before);
      ghost var s1 := Abs();
      WriteBuffer(index, task);
      turns := OwnTurn(n, from, turns, s1, Write, Abs());
      turns := Yield(env(4), from, turns);
      ghost var s2 := Abs();
      base := FetchAddSlot();
      turns := OwnTurn(n, from, turns, s2, AddSlot, Abs());
    }

    /** The phases of the slot before and after tell whether the task opened a batch. */
    method Settle(base: nat, env: nat -> seq<Action<T>>,
                ghost from: State<T>, ghost before: seq<Turn<Action<T>>>)
      returns (outcome: Outcome<T>, ghost turns: seq<Turn<Action<T>>>)
      requires Valid() && owner.Added? && owner.base == base && |pushed| > 0 && Played(Mover<T>(n), from, before, Abs())
      requires (forall k :: ByProcessors(env(k))) && Headroom(n, batches, |pushed| - 1)
      modifies this, buffer
      ensures pending == old(pending)
      ensures turns == before + SettleTurns(env, Plain, outcome)
      ensures Valid() && Played(Mover<T>(n), from, turns, Abs()) && owner == Idle(outcome)
      ensures pushed == old(pushed) && |batches| == old(|batches|) > 0
      ensures outcome == if old(Latest(batches)).Forming? then Opened(|batches| - 1) else Joined
      ensures outcome.Opened? ==>
                Latest(batches).Open? && batches[|batches| - 1].start == old(batches)[|batches| - 1].start
    {
      hide Played, Inv, CountIn, RegionOf, Run, Step, IsPowerOfTwo, Counts;
      RegionInRange(n, |pushed| - 1);
      turns := Yield(env(5), from, before);
      ghost var s1 := Abs();
      var opens := ReplaceSlot(base);
      turns := OwnTurn(n, from, turns, s1, Action.ReplaceSlot, Abs());
      if opens {
        var batch;
        batch, turns := OccupyRegion(owner.index, env, from, turns);
        outcome := Opened(batch);
      } else {
        outcome := Joined;
      }
    }

    // -------------------------------------------------------------- consuming a batch

    /** `set_bounds`: one flip of the phase fixes the end of the batch. */
    method IntoBounded(b: nat) returns (lo: nat, hi: nat)
      requires Valid() && b < |batches| && batches[b].status.Open?
      modifies this`slot, this`batches
      ensures Valid() && Step(n, old(Abs()), Close(b)) == Some(Abs())
      ensures |batches| == old(|batches|) && batches[b].status == Bounded(|pushed|, lo, hi)
      ensures batches[b].start == old(batches)[b].start && Contents(Abs(), b) == old(Contents(Abs(), b))
    {
      QuietStepInv(n, Abs(), Close(b));
      var endSlot := slot;
      slot := Xor(slot, PHASE);
      lo, hi := Shr(batches[b].base, INDEX_SHIFT), Shr(endSlot, INDEX_SHIFT);
      batches := WithStatus(batches, b, Bounded(|pushed|, lo, hi));
    }

    /** Retries are spurious and may happen a bounded number of times. */
    method StealOne(budget: nat) returns (result: Steal, left: nat)
      modifies this`pending
      ensures result.Retry? ==> left < budget && pending == old(pending)
      ensures result.Empty? ==> left <= budget && pending == old(pending) == []
      ensures result.Success? ==> left <= budget && old(pending) == [result.waker] + pending
    {
      left := budget;
      if * {
        if budget > 0 {
          return Retry, budget - 1;
        }
      }
      if pending == [] {
        result := Empty;
      } else {
        result := Success(pending[0]);
        pending := pending[1..];
      }
    }

    /** The batch is given back. If none is outstanding any more, the oldest pending wakers are
        woken, at most one region's worth; a retry does not use up the limit. */
    method DeoccupyRegion(b: nat, retries: nat) returns (woken: seq<Waker>)
      requires Valid() && b < |batches| && batches[b].status.Bounded?
      modifies this`occupancy, this`batches, this`pending
      ensures Valid() && Step(n, old(Abs()), Deoccupy(b)) == Some(Abs())
      ensures |batches| == old(|batches|) && batches[b].status.Released?
      ensures woken + pending == old(pending) && |woken| == DueWakers(n, batches, old(|pending|))
    {
      hide Inv, Counts, CountIn, RegionOf, Pack;
      QuietStepInv(n, Abs(), Deoccupy(b));
      ZeroAfterRelease(n, Abs(), b);
      var Bounded(end, lo, _) := batches[b].status;
      var one := OneShifted(n, And(lo, n - 1));
      var before := occupancy;
      occupancy := WrappingSub(occupancy, one);
      batches := WithStatus(batches, b, Released(end));
      woken := [];
      if before == one {
        woken := Drain(retries);
      }
    }

    method Drain(retries: nat) returns (woken: seq<Waker>)
      requires ValidSize(n)
      modifies this`pending
      ensures woken + pending == old(pending) && |woken| == Min(RegionSize(n), old(|pending|))
    {
      woken := [];
      var limit, budget := RegionSize(n), retries;
      while limit > 0
        invariant woken + pending == old(pending) && |woken| + |pending| == old(|pending|)
        invariant 0 <= limit == RegionSize(n) - |woken|
        decreases limit, budget
      {
        var result;
        result, budget := StealOne(budget);
        match result {
          case Empty => break;
          case Success(waker) =>
            woken := woken + [waker];
            limit := limit - 1;
          case Retry => continue;
        }
      }
    }

    /** The batch is bounded, and by the ownership of its guard nobody else gives it back. */
    ghost predicate Holding(b: nat)
      reads this, buffer
    {
      Valid() && b < |batches| && batches[b].status.Bounded?
    }

    /** Others run, including the owner; the batch stays what it was. */
    method YieldHolding(b: nat, schedule: seq<Action<T>>,
                        ghost origin: State<T>, ghost before: seq<Turn<Action<T>>>)
      returns (ghost turns: seq<Turn<Action<T>>>)
      requires Holding(b) && Deoccupy(b) !in schedule && Played(Mover<T>(n), origin, before, Abs())
      modifies this, buffer
      ensures turns == before + [Others(schedule)]
      ensures Holding(b) && Played(Mover<T>(n), origin, turns, Abs()) && pending == old(pending)
      ensures batches[b] == old(batches)[b] && Contents(Abs(), b) == old(Contents(Abs(), b))
    {
      hide Inv, Run, Step, Contents, Played;
      ghost var s := Abs();
      Interfere(schedule);
      assert GuardHeld(old(Abs()), Abs(), b, schedule);
      turns := ThenOthers(Mover<T>(n), origin, before, s, schedule, Abs());
    }

    method ReadCell(b: nat, k: nat, index: nat) returns (task: T)
      requires Holding(b) && k < |Contents(Abs(), b)| && index == (batches[b].start + k) % n
      ensures task == Contents(Abs(), b)[k]
    {
      CellAt(n, Abs(), b, k, index);
      task := buffer[index].value;
    }

    /** One slice of the batch is copied out, while other threads go on. Position `at` of the
        batch is cell `from`. */
    method CopySlice(b: nat, at: nat, from: nat, to: nat, env: nat -> seq<Action<T>>,
                     ghost origin: State<T>, ghost before: seq<Turn<Action<T>>>)
      returns (items: seq<T>, ghost turns: seq<Turn<Action<T>>>)
      requires Holding(b) && Played(Mover<T>(n), origin, before, Abs()) && forall k :: Deoccupy(b) !in env(k)
      requires from <= to <= n && at + (to - from) <= |Contents(Abs(), b)|
      requires from < to ==> (batches[b].start + at) % n == from
      modifies this, buffer
      ensures turns == before + OthersTurns(env, at, at + (to - from))
      ensures Holding(b) && Played(Mover<T>(n), origin, turns, Abs()) && pending == old(pending)
      ensures batches[b] == old(batches)[b] && Contents(Abs(), b) == old(Contents(Abs(), b))
      ensures items == old(Contents(Abs(), b))[at..at + (to - from)]
    {
      hide Inv, Run, Step, Contents, Played;
      items, turns := [], before;
      for k := from to to
        invariant turns == before + OthersTurns(env, at, at + (k - from))
        invariant Holding(b) && Played(Mover<T>(n), origin, turns, Abs()) && pending == old(pending)
        invariant batches[b] == old(batches)[b] && Contents(Abs(), b) == old(Contents(Abs(), b))
        invariant items == old(Contents(Abs(), b))[at..at + (k - from)]
      {
        turns := YieldHolding(b, env(at + (k - from)), origin, turns);
        OneMore(env, at, at + (k - from));
        WrappedEnd(n, batches[b].start + at, k - from);
        var item := ReadCell(b, at + (k - from), k);
        items := items + [item];
      }
    }

    /** `to_vec`: the two slices, one after the other; then the batch is given back, once, and
        whoever is due is woken. */
    method ToVec(b: nat, env: nat -> seq<Action<T>>, retries: nat)
      returns (vec: seq<T>, woken: seq<Waker>, ghost turns: seq<Turn<Action<T>>>)
      requires Holding(b) && forall k :: Deoccupy(b) !in env(k)
      modifies this, buffer
      ensures Valid() && vec == old(Contents(Abs(), b))
      ensures Played(Mover<T>(n), old(Abs()), turns, Abs()) && turns == OthersTurns(env, 0, |vec|) + [Own(Deoccupy(b))]
      ensures b < |batches| && batches[b].status.Released?
      ensures woken + pending == old(pending) && |woken| == DueWakers(n, batches, old(|pending|))
    {
      hide Inv, Contents, And, RangeCells, SliceCells, Played, Step, IsPowerOfTwo, DueWakers, NoneOutstanding;
      ghost var origin, tasks := Abs(), Contents(Abs(), b);
      var Bounded(end, lo, hi) := batches[b].status;
      var (from, to, wrapped) := Slices(n, lo, hi);
      SlicesOfBatch(n, Abs(), b);
      NoTurns(Mover<T>(n), origin);
      var back;
      vec, turns := CopySlice(b, 0, from, to, env, origin, []);
      back, turns := CopySlice(b, to - from, 0, wrapped, env, origin, turns);
      vec := vec + back;
      assert vec == tasks;
      assert turns == OthersTurns(env, 0, |tasks|);
      woken, turns := Release(b, retries, origin, turns);
    }

    method Release(b: nat, retries: nat, ghost origin: State<T>, ghost before: seq<Turn<Action<T>>>)
      returns (woken: seq<Waker>, ghost turns: seq<Turn<Action<T>>>)
      requires Holding(b) && Played(Mover<T>(n), origin, before, Abs())
      modifies this`occupancy, this`batches, this`pending
      ensures turns == before + [Own(Deoccupy(b))] && Valid() && Played(Mover<T>(n), origin, turns, Abs())
      ensures b < |batches| && batches[b].status.Released?
      ensures woken + pending == old(pending) && |woken| == DueWakers(n, batches, old(|pending|))
    {
      hide Inv, Run, Step, Played;
      ghost var s := Abs();
      woken := DeoccupyRegion(b, retries);
      turns := OwnTurn(n, origin, before, s, Deoccupy(b), Abs());
    }

    /** Dropping a bounded guard: tasks that need dropping are dropped cell by cell along the
        32-bit range, while other threads go on; then the batch is given back, once, and whoever is
        due is woken. */
    method DropBounded(b: nat, needsDrop: bool, env: nat -> seq<Action<T>>, retries: nat)
      returns (dropped: seq<T>, woken: seq<Waker>, ghost turns: seq<Turn<Action<T>>>)
      requires Holding(b) && forall k :: Deoccupy(b) !in env(k)
      modifies this, buffer
      ensures Valid() && b < |batches| && batches[b].status.Released?
      ensures Played(Mover<T>(n), old(Abs()), turns, Abs())
      ensures turns == OthersTurns(env, 0, |dropped| + 1) + [Own(Deoccupy(b))]
      ensures dropped == if needsDrop && WithinLap(old(batches)[b].start, old(EndOf(Abs(), b)))
                         then old(Contents(Abs(), b)) else []
      ensures woken + pending == old(pending) && |woken| == DueWakers(n, batches, old(|pending|))
    {
      hide Inv, Run, Contents, Played;
      ghost var origin := Abs();
      NoTurns(Mover<T>(n), origin);
      dropped, turns := DropCells(b, needsDrop, env, origin, []);
      woken, turns := Release(b, retries, origin, turns);
    }

    method DropCells(b: nat, needsDrop: bool, env: nat -> seq<Action<T>>,
                     ghost origin: State<T>, ghost before: seq<Turn<Action<T>>>)
      returns (dropped: seq<T>, ghost turns: seq<Turn<Action<T>>>)
      requires Holding(b) && Played(Mover<T>(n), origin, before, Abs()) && forall k :: Deoccupy(b) !in env(k)
      modifies this, buffer
      ensures turns == before + OthersTurns(env, 0, |dropped| + 1)
      ensures Holding(b) && Played(Mover<T>(n), origin, turns, Abs()) && pending == old(pending)
      ensures dropped == if needsDrop && WithinLap(old(batches)[b].start, old(EndOf(Abs(), b)))
                         then old(Contents(Abs(), b)) else []
    {
      hide Inv, Run, Contents, Played;
      BoundedCounters(n, Abs(), b);
      turns := YieldHolding(b, env(0), origin, before);
      OneMore(env, 0, 0);
      dropped := [];
      if needsDrop {
        var Bounded(_, lo, hi) := batches[b].status;
        var index := lo;
        ghost var tasks := Contents(Abs(), b);
        assert lo < hi ==> hi - lo == |tasks|;
        while index < hi
          invariant lo <= index && (if lo < hi then index <= hi else index == lo)
          invariant turns == before + OthersTurns(env, 0, index - lo + 1)
          invariant Holding(b) && batches[b] == old(batches)[b] && Contents(Abs(), b) == tasks
          invariant Played(Mover<T>(n), origin, turns, Abs())
          invariant pending == old(pending) && dropped == tasks[..index - lo]
        {
          MaskedPosition(n, batches[b].start, lo, index - lo);
          var task := ReadCell(b, index - lo, And(index, n - 1));
          dropped := dropped + [task];
          index := index + 1;
          OneMore(env, 0, index - lo);
          turns := YieldHolding(b, env(index - lo), origin, turns);
        }
      }
    }

    /** Dropping an unbounded guard closes the batch first. */
    method DropUnbounded(b: nat, needsDrop: bool, env: nat -> seq<Action<T>>, retries: nat)
      returns (dropped: seq<T>, woken: seq<Waker>, ghost turns: seq<Turn<Action<T>>>)
      requires Valid() && b < |batches| && batches[b].status.Open? && forall k :: Deoccupy(b) !in env(k)
      modifies this, buffer
      ensures Valid() && b < |batches| && batches[b].status.Released?
      ensures Played(Mover<T>(n), old(Abs()), turns, Abs())
      ensures turns == [Own(Close(b))] + OthersTurns(env, 0, |dropped| + 1) + [Own(Deoccupy(b))]
      ensures dropped == if needsDrop && WithinLap(old(batches)[b].start, old(|pushed|))
                         then old(Contents(Abs(), b)) else []
      ensures woken + pending == old(pending) && |woken| == DueWakers(n, batches, old(|pending|))
    {
      hide Inv, Run, Contents, Step, Played;
      ghost var origin := Abs();
      NoTurns(Mover<T>(n), origin);
      var lo, hi := IntoBounded(b);
      turns := OwnTurn(n, origin, [], origin, Close(b), Abs());
      dropped, turns := DropCells(b, needsDrop, env, origin, turns);
      woken, turns := Release(b, retries, origin, turns);
    }
  }

  /** The slices of a bounded batch cover its positions, the second from the ring's first cell. */
  lemma SlicesOfBatch<T>(n: nat, s: State<T>, b: nat)
    requires ValidSize(n) && Inv(n, s) && b < |s.batches| && s.batches[b].status.Bounded?
    ensures var batch := s.batches[b];
            var (from, to, wrapped) := Slices(n, batch.status.lo, batch.status.hi);
            && from < to <= n && wrapped <= n && (to - from) + wrapped == |Contents(s, b)|
            && batch.start % n == from
            && (wrapped > 0 ==> (batch.start + (to - from)) % n == 0)
  {
    var batch := s.batches[b];
    var end := batch.status.end;
    assert 1 <= end - batch.start <= n;
    assert |Contents(s, b)| == end - batch.start;
    SlicePlaces(n, batch.start, end);
  }

  /** After every run the two slices of a closed batch show its tasks, one after the other. */
  lemma SlicesShowBatch<T>(n: nat, actions: seq<Action<T>>, s: State<T>, b: nat)
    requires ValidSize(n) && Reached(n, actions, s) && b < |s.batches| && s.batches[b].status.Bounded?
    ensures var (status, tasks) := (s.batches[b].status, Contents(s, b));
            && |s.buffer| == n
            && SliceCells(n, s.buffer, status.lo, status.hi)
               == seq(|tasks|, k requires 0 <= k < |tasks| => Some(tasks[k]))
  {
    hide Contents, SliceCells;
    EveryPushInExactlyOneBatch(n, actions, s);
    ReachedInv(n, actions, s);
    BatchLengths(n, actions, s, b);
    RangeOfBatch(n, s, b);
    SlicesAreTheRange(n, s.buffer, s.batches[b].start, s.batches[b].status.end);
  }

  lemma RangeOfBatch<T>(n: nat, s: State<T>, b: nat)
    requires ValidSize(n) && Inv(n, s) && b < |s.batches| && s.batches[b].status.Bounded?
    ensures var (start, status, tasks) := (s.batches[b].start, s.batches[b].status, Contents(s, b));
            && status.lo == start % COUNTER && status.hi == status.end % COUNTER && |s.buffer| == n
            && start <= status.end
            && RangeCells(n, s.buffer, start, status.end) == seq(|tasks|, k requires 0 <= k < |tasks| => Some(tasks[k]))
  {
    hide Cleared, WordTracks, SmallCounts, CopiesCover;
    forall k: nat | k < |Contents(s, b)|
      ensures s.buffer[(s.batches[b].start + k) % n] == Some(Contents(s, b)[k])
    {
      CellOfContents(n, s, b, k);
    }
  }

  /** Counting along the 32-bit range meets every position, or none if the range straddles. */
  lemma BoundedCounters<T>(n: nat, s: State<T>, b: nat)
    requires ValidSize(n) && Inv(n, s) && b < |s.batches| && s.batches[b].status.Bounded?
    ensures var batch := s.batches[b];
            && batch.status.lo == batch.start % COUNTER
            && (WithinLap(batch.start, EndOf(s, b)) <==> batch.status.lo < batch.status.hi)
            && (batch.status.lo < batch.status.hi ==> batch.status.hi - batch.status.lo == |Contents(s, b)|)
  {
    SizeDividesCounter(n);
    var batch := s.batches[b];
    assert 1 <= batch.status.end - batch.start <= n;
    CountersOfRange(batch.start, batch.status.end);
  }

  lemma CountersOfRange(start: nat, end: nat)
    requires start < end <= start + COUNTER / 2
    ensures WithinLap(start, end) <==> start % COUNTER < end % COUNTER
    ensures WithinLap(start, end) ==> end % COUNTER - start % COUNTER == end - start
  {
  }

  lemma MaskedPosition(n: nat, start: nat, lo: nat, k: nat)
    requires ValidSize(n) && lo == start % COUNTER
    ensures And(lo + k, n - 1) == (start + k) % n
  {
    AndLowMask(lo + k, TrailingZeros(n));
    SizeDividesCounter(n);
    ShiftedMod(n, start, k);
  }

  lemma ShiftedMod(n: nat, start: nat, k: nat)
    requires n > 0 && COUNTER % n == 0
    ensures (start % COUNTER + k) % n == (start + k) % n
  {
    var q, d := start / COUNTER, COUNTER / n;
    var x := start % COUNTER + k;
    assert start + k == q * (d * n) + x;
    assert q * (d * n) == q * d * n;
    assert x == x / n * n + x % n;
    Distribute(q * d, x / n, n);
    Remainder(start + k, n, q * d + x / n, x % n);
  }

  /** The cell a position of the batch is read from holds the task at that position. */
  lemma CellAt<T>(n: nat, s: State<T>, b: nat, k: nat, index: nat)
    requires ValidSize(n) && Inv(n, s) && b < |s.batches| && s.batches[b].Live()
    requires k < |Contents(s, b)| && index == (s.batches[b].start + k) % n
    ensures index < |s.buffer| && s.buffer[index] == Some(Contents(s, b)[k])
  {
    assert CellHolds(n, s, b, s.batches[b].start + k);
  }

  /** The word held exactly this batch's increment iff nothing stays outstanding. */
  lemma ZeroAfterRelease<T>(n: nat, s: State<T>, b: nat)
    requires ValidSize(n) && Inv(n, s) && b < |s.batches| && s.batches[b].status.Bounded?
    ensures s.occupancy == OneShifted(n, And(s.batches[b].status.lo, n - 1)) <==>
            forall c :: 0 <= c < |s.batches| ==> !ReleaseBatch(n, s, b).batches[c].InWord()
  {
    var t := ReleaseBatch(n, s, b);
    QuietStepInv(n, s, Deoccupy(b));
    WordZero(n, t);
    OneFits(n, s.batches[b].status.lo);
    SubtractsToZero(s.occupancy, OneShifted(n, And(s.batches[b].status.lo, n - 1)));
  }

  lemma OneFits(n: nat, lo: nat)
    requires ValidSize(n)
    ensures 0 < OneShifted(n, And(lo, n - 1)) < WORD
  {
    AndLowMask(lo, TrailingZeros(n));
    RegionWords(n, And(lo, n - 1));
    UnitMonotone(0, CurrentRegion(n, And(lo, n - 1)));
  }

  lemma SubtractsToZero(x: nat, y: nat)
    requires x < WORD && y < WORD
    ensures WrappingSub(x, y) == 0 <==> x == y
  {
  }

  /** The iterator over a bounded batch. */
  class BufferIter<T> {
    const queue: StackQueue<T>
    const batch: nat
    const lo: nat
    const hi: nat
    var current: nat

    ghost predicate Valid()
      reads this, queue, queue.buffer
    {
      && queue.Holding(batch)
      && queue.batches[batch].status.lo == lo && queue.batches[batch].status.hi == hi
      && lo <= current && (lo < hi ==> current <= hi) && (lo >= hi ==> current == lo)
    }

    /** The tasks still to come. */
    ghost function Rest(): seq<T>
      reads this, queue, queue.buffer
      requires Valid()
    {
      var tasks := Contents(queue.Abs(), batch);
      if lo < hi && current - lo <= |tasks| then tasks[current - lo..] else []
    }

    constructor (queue: StackQueue<T>, batch: nat)
      requires queue.Holding(batch)
      ensures Valid() && this.queue == queue && this.batch == batch
      ensures Rest() == if WithinLap(queue.batches[batch].start, EndOf(queue.Abs(), batch))
                        then Contents(queue.Abs(), batch) else []
    {
      this.queue := queue;
      this.batch := batch;
      var Bounded(_, lo, hi) := queue.batches[batch].status;
      this.lo := lo;
      this.hi := hi;
      this.current := lo;
      BoundedCounters(queue.n, queue.Abs(), batch);
    }

    /** The next task, whatever other threads did since the last one. */
    method Next(schedule: seq<Action<T>>, ghost origin: State<T>, ghost before: seq<Turn<Action<T>>>)
      returns (item: Option<T>, ghost turns: seq<Turn<Action<T>>>)
      requires Valid() && Deoccupy(batch) !in schedule && Played(Mover<T>(queue.n), origin, before, queue.Abs())
      modifies this, queue, queue.buffer
      ensures Valid() && queue.pending == old(queue.pending)
      ensures turns == before + [Others(schedule)] && Played(Mover<T>(queue.n), origin, turns, queue.Abs())
      ensures old(Rest()) == [] ==> item == None && Rest() == []
      ensures old(Rest()) != [] ==> item == Some(old(Rest())[0]) && Rest() == old(Rest())[1..]
    {
      hide Inv, Run, Contents, Played;
      turns := queue.YieldHolding(batch, schedule, origin, before);
      BoundedCounters(queue.n, queue.Abs(), batch);
      if current < hi {
        MaskedPosition(queue.n, queue.batches[batch].start, lo, current - lo);
        var task := queue.ReadCell(batch, current - lo, And(current, queue.n - 1));
        current := current + 1;
        item := Some(task);
      } else {
        item := None;
      }
    }

    /** Dropping the iterator drops what was not taken, if it needs dropping, and gives the
        batch back, once; whoever is due is woken. */
    method Drop(needsDrop: bool, env: nat -> seq<Action<T>>, retries: nat)
      returns (dropped: seq<T>, woken: seq<Waker>, ghost turns: seq<Turn<Action<T>>>)
      requires Valid() && forall k :: Deoccupy(batch) !in env(k)
      modifies this, queue, queue.buffer
      ensures queue.Valid() && batch < |queue.batches| && queue.batches[batch].status.Released?
      ensures Played(Mover<T>(queue.n), old(queue.Abs()), turns, queue.Abs())
      ensures turns == (if needsDrop then OthersTurns(env, 0, |dropped| + 1) else []) + [Own(Deoccupy(batch))]
      ensures dropped == if needsDrop then old(Rest()) else []
      ensures woken + queue.pending == old(queue.pending)
      ensures |woken| == DueWakers(queue.n, queue.batches, old(|queue.pending|))
    {
      hide Inv, Run, Contents, Step, Played;
      ghost var origin := queue.Abs();
      NoTurns(Mover<T>(queue.n), origin);
      dropped, turns := [], [];
      if needsDrop {
        dropped, turns := DropRest(env, origin);
      }
      woken, turns := queue.Release(batch, retries, origin, turns);
    }

    method DropRest(env: nat -> seq<Action<T>>, ghost origin: State<T>)
      returns (dropped: seq<T>, ghost turns: seq<Turn<Action<T>>>)
      requires Valid() && ValidSize(queue.n) && Played(Mover<T>(queue.n), origin, [], queue.Abs())
      requires forall k :: Deoccupy(batch) !in env(k)
      modifies this, queue, queue.buffer
      ensures Valid() && dropped == old(Rest()) && queue.pending == old(queue.pending)
      ensures turns == OthersTurns(env, 0, |dropped| + 1) && Played(Mover<T>(queue.n), origin, turns, queue.Abs())
    {
      hide Inv, Run, Contents, StackQueue.Holding, Rest, Played;
      ghost var all := Rest();
      dropped := [];
      var item;
      item, turns := Next(env(0), origin, []);
      OneMore(env, 0, 0);
      while item.Some?
        invariant Valid() && queue.pending == old(queue.pending)
        invariant ValidSize(queue.n) && Played(Mover<T>(queue.n), origin, turns, queue.Abs())
        invariant turns == OthersTurns(env, 0, |dropped| + 1)
        invariant all == if item.Some? then dropped + [item.value] + Rest() else dropped
        decreases |Rest()|, item.Some?
      {
        dropped := dropped + [item.value];
        OneMore(env, 0, |dropped|);
        item, turns := Next(env(|dropped|), origin, turns);
      }
    }
  }
}
