/** The queue of tasks that have receivers, as the program has it: the words and cells of the queue
    and, cell by cell, the tasks and links, updated in place (crates/stack-queue/src/queue.rs,
    crates/stack-queue/src/task.rs). The class records the turns taken since its construction, its
    own and those of others, who may run between any two atomic operations. */
module Enqueue {
  import opened Wrappers
  import opened Bits
  import opened Helpers
  import P = ProtocolSteps
  import opened Queue
  import opened TaskQueue
  import opened TaskProtocol
  import opened Turns
  import opened Outcomes
  import Q = Protocol
  import H = Handoff

  predicate AllByOthers<T, V>(schedule: seq<Action<T, V>>) {
    forall k :: 0 <= k < |schedule| ==> ByOthers(schedule[k])
  }

  predicate NotByHolder<T, V>(schedule: seq<Action<T, V>>, b: nat) {
    forall k :: 0 <= k < |schedule| ==> !ByHolder(schedule[k], b)
  }

  /** What the owner can rely on while others run. */
  ghost predicate Undisturbed<T, V>(n: nat, s: System<T, V>, t: System<T, V>)
    requires ValidSize(n)
  {
    && OwnerUndisturbed(n, s.queue, t.queue) && |t.links| == |s.links|
    && forall cell :: 0 <= cell < |s.links| && H.Retired(s.links[cell]) ==> H.Retired(t.links[cell])
  }

  lemma OthersDoNotDisturb<T, V(!new)>(n: nat, needsDrop: bool, s: System<T, V>, a: Action<T, V>)
    requires ValidSize(n) && Inv(n, needsDrop, s) && Step(n, needsDrop, s, a).Some? && ByOthers(a)
    ensures Undisturbed(n, s, Step(n, needsDrop, s, a).value)
  {
    hide Q.Inv, Q.Step, CellsAwait, LinksSound, H.Retired, Q.SmallCounts, OwnerUndisturbed, Step;
    var t := Step(n, needsDrop, s, a).value;
    QueuePart(n, needsDrop, s, a);
    forall cell: nat | cell < |s.links| && H.Retired(s.links[cell])
      ensures cell < |t.links| && H.Retired(t.links[cell])
    {
      RetiredStays(n, needsDrop, s, a, cell);
    }
  }

  lemma QueuePart<T, V(!new)>(n: nat, needsDrop: bool, s: System<T, V>, a: Action<T, V>)
    requires ValidSize(n) && Q.Inv(n, s.queue) && Step(n, needsDrop, s, a).Some? && ByOthers(a)
    ensures OwnerUndisturbed(n, s.queue, Step(n, needsDrop, s, a).value.queue)
    ensures |Step(n, needsDrop, s, a).value.links| == |s.links|
  {
    hide Q.Inv, Q.Step, Q.SmallCounts, H.Step, H.ReceiverStep;
    if a.Queue? {
      ProcessorStep(n, s.queue, a.step);
    }
  }

  lemma UndisturbedOn<T, V>(n: nat, r: System<T, V>, s: System<T, V>, t: System<T, V>)
    requires ValidSize(n) && Undisturbed(n, r, s) && Undisturbed(n, s, t)
    ensures Undisturbed(n, r, t)
  {
    hide Q.CountIn, H.Retired;
  }

  /** The steps of the system. */
  function TaskMover<T, V>(n: nat, needsDrop: bool): Stepper<System<T, V>, Action<T, V>>
    requires ValidSize(n)
  {
    (s, a) => Step(n, needsDrop, s, a)
  }

  /** How the owner's steps are told among the actions of the system. */
  function InQueue<T, V>(a: Q.Action<T>): Action<T, V> {
    Queue(a)
  }

  /** What turns lead to, a run of the system leads to. */
  lemma {:induction false} TurnsAreARun<T, V>(n: nat, needsDrop: bool, s: System<T, V>, actions: seq<Action<T, V>>)
    requires ValidSize(n)
    ensures Run(n, needsDrop, s, actions) == RunOf(TaskMover(n, needsDrop), s, actions)
    decreases |actions|
  {
    hide Step;
    if actions != [] && Step(n, needsDrop, s, actions[0]).Some? {
      TurnsAreARun(n, needsDrop, Step(n, needsDrop, s, actions[0]).value, actions[1..]);
    }
  }

  class TaskStackQueue<T, V(!new)> {
    const queue: StackQueue<T>
    const ring: TaskRing<T, V>

    /** Every turn since the construction, by whomever. */
    ghost var turns: seq<Turn<Action<T, V>>>

    ghost function Abs(): System<T, V>
      reads queue, queue.buffer, ring.tasks, ring.links
    {
      System(queue.Abs(), ring.tasks[..], ring.links[..])
    }

    ghost predicate Apart() {
      && ring.Valid() && ring.n == queue.n
      && {ring.tasks as object, ring.links} !! {queue.buffer as object}
    }

    /** The turns recorded lead to s. */
    ghost predicate Tracks(s: System<T, V>)
      reads `turns
    {
      && Apart() && Played(TaskMover<T, V>(queue.n, ring.needsDrop), Initial(queue.n), turns, s)
      && Inv(queue.n, ring.needsDrop, s)
    }

    ghost predicate Valid()
      reads this, queue, queue.buffer, ring.tasks, ring.links
    {
      Tracks(Abs())
    }

    lemma QueueValid()
      requires Valid()
      ensures queue.Valid() && Q.Inv(queue.n, queue.Abs()) && |queue.Abs().buffer| == queue.n && Apart()
    {
    }

    lemma Recorded()
      requires Valid()
      ensures Played(TaskMover<T, V>(queue.n, ring.needsDrop), Initial(queue.n), turns, Abs())
    {
    }

    constructor (n: nat, needsDrop: bool)
      requires ValidSize(n)
      ensures Valid() && Abs() == Initial(n) && turns == [] && queue.n == n && ring.needsDrop == needsDrop
      ensures fresh(queue) && fresh(queue.buffer) && fresh(ring.tasks) && fresh(ring.links)
    {
      var q := new StackQueue<T>(n);
      var r := new TaskRing<T, V>(n, needsDrop);
      queue, ring, turns := q, r, [];
      new;
      NoTurns(TaskMover<T, V>(n, needsDrop), Initial<T, V>(n));
      InitialInv<T, V>(n, needsDrop);
    }

    /** A step was made. */
    ghost method Note(before: System<T, V>, a: Action<T, V>)
      requires Tracks(before) && Step(queue.n, ring.needsDrop, before, a) == Some(Abs())
      modifies this`turns
      ensures Valid() && turns == old(turns) + [Own(a)]
    {
      hide Inv, Played, Step;
      StepInv(queue.n, ring.needsDrop, before, a);
      turns := ThenOwn(TaskMover<T, V>(queue.n, ring.needsDrop), Initial(queue.n), turns, before, a, Abs());
    }

    /** A step of the queue was made that leaves the cells alone. */
    ghost method NoteQueue(before: System<T, V>, a: Q.Action<T>)
      requires Tracks(before) && !a.Write?
      requires queue.Valid() && Q.Step(queue.n, before.queue, a) == Some(queue.Abs())
      requires ring.tasks[..] == before.tasks && ring.links[..] == before.links
      modifies this`turns
      ensures Valid() && turns == old(turns) + [Own(Queue(a))]
    {
      hide Inv, Played, Q.Step, Q.SmallCounts;
      InvParts(queue.n, queue.Abs());
      Note(before, Queue(a));
    }

    /** The others had their turn. */
    ghost method NoteOthers(before: System<T, V>, schedule: seq<Action<T, V>>)
      requires Tracks(before) && Inv(queue.n, ring.needsDrop, Abs())
      requires RunOf(TaskMover<T, V>(queue.n, ring.needsDrop), before,
                     Applied(TaskMover<T, V>(queue.n, ring.needsDrop), before, schedule)) == Some(Abs())
      modifies this`turns
      ensures Valid() && turns == old(turns) + [Others(schedule)]
    {
      hide Inv, RunOf, Step, Played;
      turns := ThenOthers(TaskMover<T, V>(queue.n, ring.needsDrop), Initial(queue.n), turns, before, schedule, Abs());
    }

    /** Other threads take their turn: of the schedule happens what is possible when it comes up. */
    method Interfere(schedule: seq<Action<T, V>>)
      requires Valid()
      modifies this, queue, queue.buffer, ring.tasks, ring.links
      ensures Valid() && queue.pending == old(queue.pending) && turns == old(turns) + [Others(schedule)]
      ensures AllByOthers(schedule) ==> Undisturbed(queue.n, old(Abs()), Abs())
      ensures forall b: nat :: NotByHolder(schedule, b) ==> BatchKept(queue.n, ring.needsDrop, old(Abs()), Abs(), b)
    {
      hide Inv, RunOf, Step, Undisturbed, BatchKept, Played;
      Untroubled(queue.n, ring.needsDrop, Abs(), schedule);
      ghost var steps: seq<Action<T, V>> := [];
      for k := 0 to |schedule|
        invariant Apart() && Inv(queue.n, ring.needsDrop, Abs()) && ValidSize(queue.n)
        invariant queue.pending == old(queue.pending) && turns == old(turns)
        invariant RunOf(TaskMover<T, V>(queue.n, ring.needsDrop), old(Abs()), steps) == Some(Abs())
        invariant Applied(TaskMover<T, V>(queue.n, ring.needsDrop), old(Abs()), schedule)
                  == steps + Applied(TaskMover<T, V>(queue.n, ring.needsDrop), Abs(), schedule[k..])
        invariant AllByOthers(schedule) ==> Undisturbed(queue.n, old(Abs()), Abs())
        invariant forall b: nat :: NotByHolder(schedule, b) ==> BatchKept(queue.n, ring.needsDrop, old(Abs()), Abs(), b)
      {
        ghost var before := Abs();
        assert schedule[k..][0] == schedule[k] && schedule[k..][1..] == schedule[k + 1..];
        var next := Step(queue.n, ring.needsDrop, System(queue.Abs(), ring.tasks[..], ring.links[..]), schedule[k]);
        if next.Some? {
          OthersTurn(queue.n, ring.needsDrop, old(Abs()), steps, before, schedule[k], schedule);
          queue.Become(next.value.queue);
          ring.Become(next.value.tasks, next.value.links);
          steps := steps + [schedule[k]];
        }
      }
      assert schedule[|schedule|..] == [] && steps + [] == steps;
      NoteOthers(old(Abs()), schedule);
    }

    // -------------------------------------------------------------- enqueueing

    /** The write of `enqueue`: the cell is initialised with the task and its link. */
    method WriteCell(index: nat, task: T)
      requires Valid() && queue.owner == Q.Ready(task, index)
      requires index < queue.n && H.Retired(ring.links[index])
      modifies this`turns, queue`owner, queue.buffer, ring.tasks, ring.links
      ensures Valid() && turns == old(turns) + [Own(Queue(Q.Write))]
      ensures queue.owner == Q.Written(task, index)
    {
      hide Inv, Played, Q.Step, Q.Inv, Q.SmallCounts, H.Retired;
      ghost var before := Abs();
      QueueValid();
      queue.WriteBuffer(index, task);
      ring.InitCell(index, task);
      InvParts(queue.n, queue.Abs());
      Note(before, Queue(Q.Write));
    }

    /** The slow path of the check, with others at work around its load. */
    method CheckRegionalOccupancy(env: nat -> seq<Action<T, V>>) returns (full: bool)
      requires Valid() && queue.owner.Contended? && forall k :: AllByOthers(env(k))
      modifies this, queue, queue.buffer, ring.tasks, ring.links
      ensures queue.pending == old(queue.pending)
      ensures turns == old(turns) + CheckTurns(env, InQueue)
      ensures Valid()
      ensures queue.owner == if full then Q.Idle(Q.Rejected(old(queue.owner).task))
                             else Q.Ready(old(queue.owner).task, old(queue.owner).index)
      ensures queue.pushed == old(queue.pushed) && queue.localSlot == old(queue.localSlot)
      ensures |queue.batches| == old(|queue.batches|)
      ensures forall r :: 0 <= r < REGION_COUNT ==>
                Q.CountIn(queue.n, queue.batches, r) <= old(Q.CountIn(queue.n, queue.batches, r))
      ensures full ==> old(Q.CountIn(queue.n, queue.batches, RegionOf(queue.n, |queue.pushed|))) > 0
      ensures RetiredStill(old(ring.links[..]))
    {
      hide Tracks, Inv, Q.Step, Q.Inv, Q.CountIn, RegionOf, H.Retired, Q.SmallCounts, TaskRing.Valid;
      QueueValid();
      P.RegionInRange(queue.n, |queue.pushed|);
      Interfere(env(1));
      QueueValid();
      ghost var s1 := Abs();
      var seen := queue.LoadShared();
      NoteQueue(s1, Q.Load);
      Interfere(env(2));
      QueueValid();
      ghost var s2 := Abs();
      full := queue.SyncLocal(seen);
      NoteQueue(s2, Q.StoreLoaded);
    }

    /** Cells that were retired are so still. */
    ghost predicate RetiredStill(links: seq<H.State<V>>)
      reads ring.links
    {
      && |links| == ring.links.Length
      && forall cell :: 0 <= cell < |links| && H.Retired(links[cell]) ==> H.Retired(ring.links[cell])
    }

    /** `enqueue`, whatever the holders of guards and the receivers do in between. It takes the turns
        of a push and no others. The task ends up at the end of the queue, in the batch that was open
        at the `fetch_add` or in one of its own whose guard is handed out, or is turned away, as
        decided by what it found and what the others scheduled. The receiver that used the next cell
        before is done with it, as `Handoff` asks. */
    method Enqueue(task: T, env: nat -> seq<Action<T, V>>) returns (outcome: Q.Outcome<T>, ghost slow: bool)
      requires Valid() && queue.owner.Idle? && forall k :: AllByOthers(env(k))
      requires P.Headroom(queue.n, queue.batches, |queue.pushed|)
      requires H.Retired(ring.links[|queue.pushed| % queue.n])
      modifies this, queue, queue.buffer, ring.tasks, ring.links
      ensures queue.pending == old(queue.pending)
      ensures Valid() && queue.owner == Q.Idle(outcome) && outcome != Q.Nothing
      ensures turns == old(turns) + PushTurns(env, InQueue, task, slow, outcome) && (outcome.Rejected? ==> slow)
      ensures Decided(queue.n, old(queue.Abs()), queue.Abs(), outcome,
                      Scheduled(env, b => Queue(Q.Close(b))), Scheduled(env, b => Queue(Q.Deoccupy(b))))
      ensures outcome.Rejected? ==>
                && outcome.task == task && queue.pushed == old(queue.pushed)
                && queue.localSlot == old(queue.localSlot) && |queue.batches| == old(|queue.batches|)
                && RegionStart(queue.n, |queue.pushed|) == |queue.pushed|
                && old(Q.CountIn(queue.n, queue.batches, RegionOf(queue.n, |queue.pushed|))) > 0
      ensures !outcome.Rejected? ==> queue.pushed == old(queue.pushed) + [task]
      ensures outcome.Joined? ==> |queue.batches| == old(|queue.batches|) > 0
      ensures outcome.Opened? ==>
                && outcome.batch == old(|queue.batches|) == |queue.batches| - 1
                && queue.batches[outcome.batch].start == old(|queue.pushed|)
                && queue.batches[outcome.batch].status.Open?
    {
      hide Tracks, Inv, Q.Step, Q.Inv, Q.CountIn, RegionOf, RegionStart, H.Retired, IsPowerOfTwo, Decided;
      hide CheckTurns, CommitTurns, Q.SmallCounts, Scheduled, Played;
      QueueValid();
      Recorded();
      ghost var from := Abs();
      P.RegionInRange(queue.n, |queue.pushed|);
      var index, full;
      index, full, slow := Admit(task, env);
      if full {
        outcome := Q.Rejected(task);
      } else {
        outcome := Commit(index, task, env);
      }
      Decides(from, old(turns), env, task, slow, outcome);
    }

    lemma Decides(from: System<T, V>, before: seq<Turn<Action<T, V>>>, env: nat -> seq<Action<T, V>>,
                  task: T, slow: bool, outcome: Q.Outcome<T>)
      requires Valid() && ValidSize(queue.n) && Q.Inv(queue.n, from.queue) && from.queue.owner.Idle?
      requires Ends(from.queue, queue.Abs(), outcome)
      requires Played(TaskMover<T, V>(queue.n, ring.needsDrop), Initial(queue.n), before, from)
      requires turns == before + PushTurns(env, InQueue, task, slow, outcome)
      ensures Decided(queue.n, from.queue, queue.Abs(), outcome,
                      Scheduled(env, b => Queue(Q.Close(b))), Scheduled(env, b => Queue(Q.Deoccupy(b))))
    {
      hide Tracks, Inv, Q.Inv, Ends, Played, PushTurns, Decided, Scheduled;
      QueueValid();
      Recorded();
      EnqueueDecides(queue.n, ring.needsDrop, from, before, env, task, slow, outcome, Abs(), turns);
    }

    /** The rest of an enqueue once its cell is known to be free. */
    method Commit(index: nat, task: T, env: nat -> seq<Action<T, V>>) returns (outcome: Q.Outcome<T>)
      requires Valid() && queue.owner == Q.Ready(task, index) && forall k :: AllByOthers(env(k))
      requires P.Headroom(queue.n, queue.batches, |queue.pushed|)
      requires index < queue.n && H.Retired(ring.links[index])
      modifies this, queue, queue.buffer, ring.tasks, ring.links
      ensures queue.pending == old(queue.pending)
      ensures turns == old(turns) + CommitTurns(env, InQueue, outcome)
      ensures Valid() && queue.owner == Q.Idle(outcome)
      ensures queue.pushed == old(queue.pushed) + [task]
      ensures outcome.Joined? || outcome.Opened?
      ensures outcome.Joined? ==> |queue.batches| == old(|queue.batches|) > 0
      ensures outcome.Opened? ==>
                && outcome.batch == old(|queue.batches|) == |queue.batches| - 1
                && queue.batches[outcome.batch].start == old(|queue.pushed|)
                && queue.batches[outcome.batch].status.Open?
    {
      hide Valid, Q.CountIn, RegionOf, RegionStart, H.Retired, IsPowerOfTwo, AppendTurns, SettleTurns;
      var base := Append(index, task, env);
      outcome := Settle(base, env);
    }

    /** The first half of an enqueue: the index, and the check where it begins a region. */
    method Admit(task: T, env: nat -> seq<Action<T, V>>) returns (index: nat, full: bool, ghost slow: bool)
      requires Valid() && queue.owner.Idle? && forall k :: AllByOthers(env(k))
      modifies this, queue, queue.buffer, ring.tasks, ring.links
      ensures queue.pending == old(queue.pending)
      ensures Valid() && RetiredStill(old(ring.links[..])) && (full ==> slow)
      ensures turns == old(turns) + [Others(env(0)), Own(Queue(Q.Begin(task)))]
                       + (if slow then CheckTurns(env, InQueue) else [])
      ensures queue.owner == if full then Q.Idle(Q.Rejected(task)) else Q.Ready(task, index)
      ensures index == |queue.pushed| % queue.n
      ensures queue.pushed == old(queue.pushed) && queue.localSlot == old(queue.localSlot)
      ensures |queue.batches| == old(|queue.batches|)
      ensures forall r :: 0 <= r < REGION_COUNT ==>
                Q.CountIn(queue.n, queue.batches, r) <= old(Q.CountIn(queue.n, queue.batches, r))
      ensures full ==>
                && RegionStart(queue.n, |queue.pushed|) == |queue.pushed|
                && old(Q.CountIn(queue.n, queue.batches, RegionOf(queue.n, |queue.pushed|))) > 0
    {
      hide Valid, Q.CountIn, RegionOf, RegionStart, H.Retired, CheckTurns, IsPowerOfTwo;
      var contended;
      index, contended := CurrentWriteIndex(task, env);
      P.RegionInRange(queue.n, |queue.pushed|);
      full, slow := false, contended;
      if contended {
        BoundaryOf(queue.n, |queue.pushed|);
        full := CheckRegionalOccupancy(env);
      }
    }

    /** The index, and whether the owner's own copies leave it in doubt. */
    method CurrentWriteIndex(task: T, env: nat -> seq<Action<T, V>>) returns (index: nat, contended: bool)
      requires Valid() && queue.owner.Idle? && forall k :: AllByOthers(env(k))
      modifies this, queue, queue.buffer, ring.tasks, ring.links
      ensures queue.pending == old(queue.pending)
      ensures Valid() && RetiredStill(old(ring.links[..])) && ValidSize(queue.n)
      ensures turns == old(turns) + [Others(env(0)), Own(Queue(Q.Begin(task)))]
      ensures queue.owner == if contended then Q.Contended(task, index) else Q.Ready(task, index)
      ensures index == |queue.pushed| % queue.n && (contended ==> AtBoundary(queue.n, index))
      ensures queue.pushed == old(queue.pushed) && queue.localSlot == old(queue.localSlot)
      ensures |queue.batches| == old(|queue.batches|)
      ensures forall r :: 0 <= r < REGION_COUNT ==>
                Q.CountIn(queue.n, queue.batches, r) <= old(Q.CountIn(queue.n, queue.batches, r))
    {
      hide Tracks, Inv, Q.Step, Q.Inv, Q.CountIn, RegionOf, RegionStart, H.Retired, CheckTurns;
      QueueValid();
      Interfere(env(0));
      QueueValid();
      ghost var s1 := Abs();
      index, contended := queue.CurrentWriteIndex(task);
      NoteQueue(s1, Q.Begin(task));
    }

    /** The cell is written and the task becomes part of the queue. */
    method Append(index: nat, task: T, env: nat -> seq<Action<T, V>>) returns (base: nat)
      requires Valid() && queue.owner == Q.Ready(task, index) && forall k :: AllByOthers(env(k))
      requires P.Headroom(queue.n, queue.batches, |queue.pushed|)
      requires index < queue.n && H.Retired(ring.links[index])
      modifies this, queue, queue.buffer, ring.tasks, ring.links
      ensures queue.pending == old(queue.pending)
      ensures turns == old(turns) + AppendTurns(env, InQueue)
      ensures Valid() && queue.owner == Q.Added(index, base)
      ensures queue.pushed == old(queue.pushed) + [task]
      ensures P.Headroom(queue.n, queue.batches, |queue.pushed| - 1)
      ensures Latest(queue.batches).Forming? <==> |queue.batches| != old(|queue.batches|)
      ensures Latest(queue.batches).Forming? ==>
                && |queue.batches| == old(|queue.batches|) + 1
                && queue.batches[|queue.batches| - 1].start == old(|queue.pushed|)
    {
      hide Tracks, Inv, Q.Step, Q.Inv, Q.CountIn, RegionOf, H.Retired, IsPowerOfTwo, Q.SmallCounts;
      QueueValid();
      P.RegionInRange(queue.n, |queue.pushed|);
      Interfere(env(3));
      WriteCell(index, task);
      Interfere(env(4));
      QueueValid();
      ghost var s1 := Abs();
      base := queue.FetchAddSlot();
      NoteQueue(s1, Q.AddSlot);
    }

    /** The phases of the slot before and after tell whether the task opened a batch. */
    method Settle(base: nat, env: nat -> seq<Action<T, V>>) returns (outcome: Q.Outcome<T>)
      requires Valid() && queue.owner.Added? && queue.owner.base == base && |queue.pushed| > 0
      requires (forall k :: AllByOthers(env(k))) && P.Headroom(queue.n, queue.batches, |queue.pushed| - 1)
      modifies this, queue, queue.buffer, ring.tasks, ring.links
      ensures queue.pending == old(queue.pending)
      ensures turns == old(turns) + SettleTurns(env, InQueue, outcome)
      ensures Valid() && queue.owner == Q.Idle(outcome)
      ensures queue.pushed == old(queue.pushed) && |queue.batches| == old(|queue.batches|) > 0
      ensures outcome == if old(Latest(queue.batches)).Forming? then Q.Opened(|queue.batches| - 1) else Q.Joined
      ensures outcome.Opened? ==>
                && Latest(queue.batches).Open?
                && queue.batches[|queue.batches| - 1].start == old(queue.batches)[|queue.batches| - 1].start
    {
      hide Tracks, Inv, Q.Step, Q.Inv, Q.CountIn, RegionOf, IsPowerOfTwo, Q.SmallCounts, TaskRing.Valid;
      QueueValid();
      P.RegionInRange(queue.n, |queue.pushed| - 1);
      Interfere(env(5));
      QueueValid();
      ghost var s1 := Abs();
      var opens := queue.ReplaceSlot(base);
      NoteQueue(s1, Q.ReplaceSlot);
      if opens {
        outcome := OccupyRegion(queue.owner.index, env);
      } else {
        outcome := Q.Joined;
      }
    }

    method OccupyRegion(index: nat, env: nat -> seq<Action<T, V>>) returns (outcome: Q.Outcome<T>)
      requires Valid() && queue.owner == Q.Opening(index) && |queue.pushed| > 0 && forall k :: AllByOthers(env(k))
      requires P.Headroom(queue.n, queue.batches, |queue.pushed| - 1)
      modifies this, queue, queue.buffer, ring.tasks, ring.links
      ensures queue.pending == old(queue.pending)
      ensures turns == old(turns) + OccupyTurns(env, InQueue)
      ensures Valid() && queue.owner == Q.Idle(outcome)
      ensures queue.pushed == old(queue.pushed) && |queue.batches| == old(|queue.batches|) > 0
      ensures outcome == Q.Opened(|queue.batches| - 1) && Latest(queue.batches).Open?
      ensures queue.batches[|queue.batches| - 1].start == old(queue.batches)[|queue.batches| - 1].start
    {
      hide Tracks, Inv, Q.Step, Q.Inv, Q.CountIn, RegionOf, IsPowerOfTwo, Q.SmallCounts, TaskRing.Valid;
      QueueValid();
      P.RegionInRange(queue.n, |queue.pushed| - 1);
      Interfere(env(6));
      QueueValid();
      ghost var s1 := Abs();
      var seen := queue.FetchAddOccupancy(index);
      NoteQueue(s1, Q.Occupy);
      Interfere(env(7));
      QueueValid();
      ghost var s2 := Abs();
      var batch := queue.StoreLocal(seen);
      NoteQueue(s2, Q.StoreOccupied);
      outcome := Q.Opened(batch);
    }
  }

  lemma Untroubled<T, V(!new)>(n: nat, needsDrop: bool, s: System<T, V>, schedule: seq<Action<T, V>>)
    requires ValidSize(n) && Inv(n, needsDrop, s)
    ensures Undisturbed(n, s, s) && forall b: nat :: BatchKept(n, needsDrop, s, s, b)
    ensures |s.queue.buffer| == |s.tasks| == |s.links| == n
    ensures RunOf(TaskMover<T, V>(n, needsDrop), s, []) == Some(s) && schedule[0..] == schedule
  {
    forall b: nat
      ensures BatchKept(n, needsDrop, s, s, b)
    {
      NothingHappens(n, needsDrop, s, b);
    }
  }

  /** One more step by others carries all of it on. */
  lemma OthersTurn<T, V(!new)>(n: nat, needsDrop: bool, from: System<T, V>, steps: seq<Action<T, V>>,
                               s: System<T, V>, a: Action<T, V>, schedule: seq<Action<T, V>>)
    requires ValidSize(n) && Inv(n, needsDrop, s) && Step(n, needsDrop, s, a).Some? && a in schedule
    requires RunOf(TaskMover<T, V>(n, needsDrop), from, steps) == Some(s)
    ensures var t := Step(n, needsDrop, s, a).value;
            && RunOf(TaskMover<T, V>(n, needsDrop), from, steps + [a]) == Some(t)
            && Inv(n, needsDrop, t) && |t.queue.buffer| == |t.tasks| == |t.links| == n
            && (AllByOthers(schedule) && Undisturbed(n, from, s) ==> Undisturbed(n, from, t))
            && forall b: nat :: NotByHolder(schedule, b) && BatchKept(n, needsDrop, from, s, b) ==>
                                BatchKept(n, needsDrop, from, t, b)
  {
    hide Inv, Step, Undisturbed, BatchKept, RunOf;
    var t := Step(n, needsDrop, s, a).value;
    StepInv(n, needsDrop, s, a);
    RunOfSnoc(TaskMover<T, V>(n, needsDrop), from, steps, a);
    Untroubled(n, needsDrop, t, schedule);
    if AllByOthers(schedule) && Undisturbed(n, from, s) {
      OthersDoNotDisturb(n, needsDrop, s, a);
      UndisturbedOn(n, from, s, t);
    }
    forall b: nat | NotByHolder(schedule, b) && BatchKept(n, needsDrop, from, s, b)
      ensures BatchKept(n, needsDrop, from, t, b)
    {
      OthersKeepBatch(n, needsDrop, s, a, b);
      KeptOn(n, needsDrop, from, s, t, b);
    }
  }

  /** What turns do, told of the queue alone. */
  lemma EnqueueDecides<T, V(!new)>(n: nat, needsDrop: bool, s: System<T, V>, before: seq<Turn<Action<T, V>>>,
                                   env: nat -> seq<Action<T, V>>, task: T, slow: bool, outcome: Q.Outcome<T>,
                                   t: System<T, V>, after: seq<Turn<Action<T, V>>>)
    requires ValidSize(n) && Q.Inv(n, s.queue) && Q.Inv(n, t.queue) && s.queue.owner.Idle?
    requires Ends(s.queue, t.queue, outcome)
    requires Played(TaskMover<T, V>(n, needsDrop), Initial(n), before, s)
    requires Played(TaskMover<T, V>(n, needsDrop), Initial(n), after, t)
    requires after == before + PushTurns(env, InQueue, task, slow, outcome)
    ensures Decided(n, s.queue, t.queue, outcome,
                    Scheduled(env, b => Queue(Q.Close(b))), Scheduled(env, b => Queue(Q.Deoccupy(b))))
  {
    hide Q.Inv, Q.Run, RunOf, Decided, Ends, Weave, PushTurns, Run, Played;
    var mine := PushTurns(env, InQueue<T, V>, task, slow, outcome);
    PlayedRest(TaskMover<T, V>(n, needsDrop), Initial(n), before, s, mine, t);
    var steps := Weave(TaskMover<T, V>(n, needsDrop), s, mine);
    PlayedIsRun(n, needsDrop, s, mine, t);
    InvParts(n, s.queue);
    RunProjects(n, needsDrop, s, steps);
    PushIsOwnerAnd(env, InQueue<T, V>, ByGuards<T, V>, task, slow, outcome);
    forall b: nat
      ensures Q.Close(b) in QueueSteps(steps) ==> b in Scheduled(env, b => Queue(Q.Close(b)))
      ensures Q.Deoccupy(b) in QueueSteps(steps) ==> b in Scheduled(env, b => Queue(Q.Deoccupy(b)))
    {
      if Q.Close(b) in QueueSteps(steps) {
        QueueStepIn(steps, Q.Close(b));
        OnlyOthersGuards(n, needsDrop, s, env, mine, Queue(Q.Close(b)));
      }
      if Q.Deoccupy(b) in QueueSteps(steps) {
        QueueStepIn(steps, Q.Deoccupy(b));
        OnlyOthersGuards(n, needsDrop, s, env, mine, Queue(Q.Deoccupy(b)));
      }
    }
    RunDecides(n, s.queue, QueueSteps(steps), t.queue, outcome,
               Scheduled(env, b => Queue(Q.Close(b))), Scheduled(env, b => Queue(Q.Deoccupy(b))));
  }

  lemma PlayedIsRun<T, V>(n: nat, needsDrop: bool, s: System<T, V>, turns: seq<Turn<Action<T, V>>>, t: System<T, V>)
    requires ValidSize(n) && Played(TaskMover<T, V>(n, needsDrop), s, turns, t)
    ensures Run(n, needsDrop, s, Weave(TaskMover<T, V>(n, needsDrop), s, turns)) == Some(t)
  {
    TurnsAreARun(n, needsDrop, s, Weave(TaskMover<T, V>(n, needsDrop), s, turns));
  }

  predicate ByGuards<T, V>(a: Action<T, V>) {
    a.Queue? && (a.step.Close? || a.step.Deoccupy?)
  }

  lemma {:induction false} QueueStepIn<T, V>(actions: seq<Action<T, V>>, a: Q.Action<T>)
    requires a in QueueSteps(actions)
    ensures Queue(a) in actions
  {
    if !(actions[0].Queue? && actions[0].step == a) {
      QueueStepIn(actions[1..], a);
    }
  }

  lemma OnlyOthersGuards<T, V>(n: nat, needsDrop: bool, s: System<T, V>, env: nat -> seq<Action<T, V>>,
                               turns: seq<Turn<Action<T, V>>>, a: Action<T, V>)
    requires ValidSize(n) && OwnerAnd(env, ByGuards<T, V>, turns) && ByGuards(a)
    requires a in Weave(TaskMover<T, V>(n, needsDrop), s, turns)
    ensures exists k: nat :: a in env(k)
  {
    hide Weave;
    WeaveSources(TaskMover<T, V>(n, needsDrop), s, turns, a);
    var i :| 0 <= i < |turns| && match turns[i] case Own(b) => b == a case Others(schedule) => a in schedule;
    assert turns[i].Others?;
    var k: nat :| turns[i].schedule == env(k);
  }
}
