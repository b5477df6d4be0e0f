/** An assigned batch of tasks that have receivers, from the flip that bounds it to the release
    (crates/stack-queue/src/assignment.rs). What its consumption does is stated of the tasks as they
    were pushed, by their positions in the batch, whatever other threads do meanwhile: the owner goes
    on pushing, other batches are processed, receivers are polled and dropped. */
module Assignment {
  import opened Wrappers
  import opened Bits
  import opened Helpers
  import opened Ranges
  import opened Queue
  import opened TaskQueue
  import opened TaskProtocol
  import opened Enqueue
  import opened Turns
  import Q = Protocol
  import G = Guarantees
  import H = Handoff

  /** What has been done at a position: whether its task was taken, and what it was resolved with. */
  datatype Fate<+V> = Fate(taken: bool, value: Option<V>)

  ghost predicate At<T, V>(n: nat, needsDrop: bool, s: System<T, V>, b: nat, j: nat, fate: Fate<V>)
    requires n > 0 && b < |s.queue.batches|
  {
    var cell := CellOf(n, s.queue, b, j);
    && j < |G.Contents(s.queue, b)| && cell < |s.tasks| && cell < |s.links|
    && s.tasks[cell] == (if fate.taken then None else Some(G.Contents(s.queue, b)[j]))
    && match fate.value
       case None => Unresolved(needsDrop, s.links[cell])
       case Some(v) => ResolvedWith(needsDrop, v, s.links[cell])
  }

  function MapFates<T, V>(op: T -> V, tasks: seq<T>): (fates: seq<Fate<V>>)
    ensures |fates| == |tasks|
  {
    seq(|tasks|, j requires 0 <= j < |tasks| => Fate(true, Some(op(tasks[j]))))
  }

  function FillFates<V>(needsDrop: bool, values: seq<V>, k: nat): (fates: seq<Fate<V>>)
    ensures |fates| == k
  {
    seq(k, j requires 0 <= j < k => if j < |values| then Fate(needsDrop, Some(values[j])) else Fate(false, None))
  }

  function DropFates<V>(needsDrop: bool, k: nat): (fates: seq<Fate<V>>)
    ensures |fates| == k
  {
    seq(k, _ => Fate(needsDrop, None))
  }

  /** The first k positions have met their fate; nothing has been done at the others. */
  function FateAt<V>(fates: seq<Fate<V>>, k: nat, j: nat): Fate<V>
    requires j < |fates|
  {
    if j < k then fates[j] else Fate(false, None)
  }

  /** The first k positions have met their fate, and the others are as they were enqueued. */
  ghost predicate Progress<T, V>(n: nat, needsDrop: bool, s: System<T, V>, b: nat, fates: seq<Fate<V>>, k: nat)
    requires n > 0
  {
    && b < |s.queue.batches| && |fates| == |G.Contents(s.queue, b)|
    && forall j: nat :: j < |fates| ==> At(n, needsDrop, s, b, j, FateAt(fates, k, j))
  }

  /** A bounded batch is not empty and no longer than the ring. */
  lemma BatchFits<T>(n: nat, q: Q.State<T>, b: nat)
    requires ValidSize(n) && Q.Inv(n, q) && b < |q.batches| && q.batches[b].status.Bounded?
    ensures 1 <= |G.Contents(q, b)| <= n && |G.Contents(q, b)| == q.batches[b].status.end - q.batches[b].start
    ensures forall j: nat :: Holds(q, b, j) <==> j < |G.Contents(q, b)|
  {
  }

  /** Between two states the batch is the same, and at its positions but j only receivers acted. */
  ghost predicate KeptBut<T, V(!new)>(n: nat, needsDrop: bool, s: System<T, V>, t: System<T, V>, b: nat, j: nat)
    requires ValidSize(n)
  {
    && b < |s.queue.batches| && b < |t.queue.batches| && t.queue.batches[b] == s.queue.batches[b]
    && G.Contents(t.queue, b) == G.Contents(s.queue, b)
    && forall i: nat :: i != j ==> CellKept(n, needsDrop, s, t, b, i)
  }

  lemma AtKept<T, V(!new)>(n: nat, needsDrop: bool, s: System<T, V>, t: System<T, V>, b: nat, j: nat, fate: Fate<V>)
    requires ValidSize(n) && b < |s.queue.batches| && b < |t.queue.batches| && Holds(s.queue, b, j)
    requires t.queue.batches[b] == s.queue.batches[b] && G.Contents(t.queue, b) == G.Contents(s.queue, b)
    requires CellKept(n, needsDrop, s, t, b, j) && At(n, needsDrop, s, b, j, fate)
    ensures At(n, needsDrop, t, b, j, fate)
  {
    hide G.Contents, Unresolved, H.Inv, ResolvedWith;
    var cell := CellOf(n, s.queue, b, j);
    if fate.value.Some? {
      KeptStaysResolved(needsDrop, fate.value.value, s.links[cell], t.links[cell]);
    }
  }

  /** While others run, the work done so far stays done. */
  lemma ProgressKept<T, V(!new)>(n: nat, needsDrop: bool, s: System<T, V>, t: System<T, V>, b: nat,
                                 fates: seq<Fate<V>>, k: nat)
    requires ValidSize(n) && Q.Inv(n, s.queue) && Progress(n, needsDrop, s, b, fates, k)
    requires s.queue.batches[b].status.Bounded? && BatchKept(n, needsDrop, s, t, b)
    ensures Progress(n, needsDrop, t, b, fates, k)
  {
    hide Q.Inv, G.Contents, At, CellKept;
    BatchFits(n, s.queue, b);
    forall j: nat | j < |fates|
      ensures At(n, needsDrop, t, b, j, FateAt(fates, k, j))
    {
      AtKept(n, needsDrop, s, t, b, j, FateAt(fates, k, j));
    }
  }

  /** And with the next position it goes on. */
  lemma ProgressOn<T, V(!new)>(n: nat, needsDrop: bool, s: System<T, V>, t: System<T, V>, b: nat,
                               fates: seq<Fate<V>>, k: nat)
    requires ValidSize(n) && Q.Inv(n, s.queue) && Progress(n, needsDrop, s, b, fates, k) && k < |fates|
    requires s.queue.batches[b].status.Bounded? && KeptBut(n, needsDrop, s, t, b, k)
    requires At(n, needsDrop, t, b, k, fates[k])
    ensures Progress(n, needsDrop, t, b, fates, k + 1)
  {
    hide Q.Inv, G.Contents, At, CellKept;
    var m := k + 1;
    BatchFits(n, s.queue, b);
    forall j: nat | j < |fates|
      ensures At(n, needsDrop, t, b, j, FateAt(fates, m, j))
    {
      if j != k {
        AtKept(n, needsDrop, s, t, b, j, FateAt(fates, k, j));
      }
    }
  }

  lemma KeptButOn<T, V(!new)>(n: nat, needsDrop: bool, r: System<T, V>, s: System<T, V>, t: System<T, V>,
                              b: nat, j: nat)
    requires ValidSize(n) && KeptBut(n, needsDrop, r, s, b, j) && KeptBut(n, needsDrop, s, t, b, j)
    ensures KeptBut(n, needsDrop, r, t, b, j)
  {
    hide LinkKept, G.Contents;
    forall i: nat | i != j
      ensures CellKept(n, needsDrop, r, t, b, i)
    {
      assert CellKept(n, needsDrop, r, s, b, i) && CellKept(n, needsDrop, s, t, b, i);
      if Holds(r.queue, b, i) {
        var cell := CellOf(n, r.queue, b, i);
        LinkKeptOn(needsDrop, r.links[cell], s.links[cell], t.links[cell]);
      }
    }
  }

  /** What the holder does at one position does not show at another. */
  lemma OwnStepKeeps<T, V(!new)>(n: nat, needsDrop: bool, s: System<T, V>, t: System<T, V>, b: nat, j: nat)
    requires ValidSize(n) && Q.Inv(n, s.queue) && |s.tasks| == |s.links| == n && Holds(s.queue, b, j)
    requires t.queue == s.queue && |t.tasks| == |t.links| == n
    requires forall cell :: 0 <= cell < n && cell != CellOf(n, s.queue, b, j) ==>
               t.tasks[cell] == s.tasks[cell] && t.links[cell] == s.links[cell]
    ensures KeptBut(n, needsDrop, s, t, b, j)
  {
    hide Q.Inv, G.Contents, LinkKept;
    BatchFits(n, s.queue, b);
    forall i: nat | i != j
      ensures CellKept(n, needsDrop, s, t, b, i)
    {
      if Holds(s.queue, b, i) {
        if CellOf(n, s.queue, b, i) == CellOf(n, s.queue, b, j) {
          SamePlace(n, s.queue.batches[b].start, i, j);
        }
        LinkKeptSame(needsDrop, s.links[CellOf(n, s.queue, b, i)]);
      }
    }
  }

  /** What the others may do while batch b is worked on: anything but act as its holder. */
  ghost predicate Admitted<T, V>(schedule: seq<Action<T, V>>, b: nat, others: iset<Action<T, V>>) {
    forall k :: 0 <= k < |schedule| ==> schedule[k] in others && !ByHolder(schedule[k], b)
  }

  /** Turns followed, of the others and of the holder of batch b, and no one else's. */
  ghost predicate GoesOn<T, V>(before: seq<Turn<Action<T, V>>>, after: seq<Turn<Action<T, V>>>, b: nat,
                               others: iset<Action<T, V>>)
  {
    && before <= after
    && forall k :: |before| <= k < |after| ==>
         match after[k]
         case Own(a) => ByHolder(a, b)
         case Others(schedule) => Admitted(schedule, b, others)
  }

  /** What the holder of a bounded batch does touches the cells of the batch only. */
  lemma HolderTouchesOwnCells<T, V>(n: nat, needsDrop: bool, s: System<T, V>, a: Action<T, V>, b: nat, cell: nat)
    requires ValidSize(n) && b < |s.queue.batches| && ByHolder(a, b) && Step(n, needsDrop, s, a).Some?
    requires cell < |s.tasks| == |s.links|
    requires forall j: nat :: Holds(s.queue, b, j) ==> CellOf(n, s.queue, b, j) != cell
    ensures var t := Step(n, needsDrop, s, a).value;
            |t.tasks| == |t.links| == |s.tasks| && t.tasks[cell] == s.tasks[cell] && t.links[cell] == s.links[cell]
  {
  }

  class TaskAssignment<T, V(!new)> {
    const stack: TaskStackQueue<T, V>
    const batch: nat

    ghost predicate Valid()
      reads this, stack, stack.queue, stack.queue.buffer, stack.ring.tasks, stack.ring.links
    {
      stack.Valid() && batch < |stack.queue.batches| && stack.queue.batches[batch].status.Bounded?
    }

    /** The batch's tasks in the order they were pushed. */
    ghost function Tasks(): seq<T>
      reads this, stack, stack.queue, stack.queue.buffer
      requires batch < |stack.queue.batches|
    {
      G.Contents(stack.queue.Abs(), batch)
    }

    /** How far the batch is. */
    ghost predicate Reached(fates: seq<Fate<V>>, k: nat)
      reads this, stack, stack.queue, stack.queue.buffer, stack.ring.tasks, stack.ring.links
      requires Valid()
    {
      Progress(stack.queue.n, stack.ring.needsDrop, stack.Abs(), batch, fates, k)
    }

    /** Nothing has been done yet. */
    ghost predicate Untouched()
      reads this, stack, stack.queue, stack.queue.buffer, stack.ring.tasks, stack.ring.links
      requires Valid()
    {
      forall j: nat :: j < |Tasks()| ==>
        At(stack.queue.n, stack.ring.needsDrop, stack.Abs(), batch, j, Fate(false, None))
    }

    /** `into_assignment`: one flip of the phase bounds the batch. All its tasks wait in their
        cells, as they were enqueued. */
    constructor (stack: TaskStackQueue<T, V>, batch: nat)
      requires stack.Valid() && batch < |stack.queue.batches| && stack.queue.batches[batch].status.Open?
      modifies stack`turns, stack.queue`slot, stack.queue`batches
      ensures Valid() && this.stack == stack && this.batch == batch && Untouched()
      ensures stack.turns == old(stack.turns) + [Own(Queue(Q.Close(batch)))]
      ensures Tasks() == old(G.Contents(stack.queue.Abs(), batch))
      ensures stack.queue.batches[batch].start == old(stack.queue.batches)[batch].start
    {
      hide Inv, Played, Q.Inv, Q.Step, Q.SmallCounts, At, G.Contents;
      this.stack, this.batch := stack, batch;
      new;
      ghost var before := stack.Abs();
      stack.QueueValid();
      OpenIsUntouched(stack.queue.n, stack.ring.needsDrop, before, batch);
      var lo, hi := stack.queue.IntoBounded(batch);
      stack.NoteQueue(before, Q.Close(batch));
      SameCells(stack.queue.n, stack.ring.needsDrop, before, stack.Abs(), batch);
    }

    /** Others run: anybody but the holder of this batch. */
    method Yield(schedule: seq<Action<T, V>>, ghost others: iset<Action<T, V>>)
      requires Valid() && Admitted(schedule, batch, others)
      modifies stack, stack.queue, stack.queue.buffer, stack.ring.tasks, stack.ring.links
      ensures Valid() && stack.queue.pending == old(stack.queue.pending)
      ensures stack.turns == old(stack.turns) + [Others(schedule)]
      ensures GoesOn(old(stack.turns), stack.turns, batch, others)
      ensures stack.queue.batches[batch] == old(stack.queue.batches)[batch] && Tasks() == old(Tasks())
      ensures BatchKept(stack.queue.n, stack.ring.needsDrop, old(stack.Abs()), stack.Abs(), batch)
      ensures old(Untouched()) ==> Untouched()
    {
      hide Inv, Played, G.Contents, CellKept, At;
      ghost var before := stack.Abs();
      SystemFits(stack.queue.n, stack.ring.needsDrop, before, batch);
      stack.Interfere(schedule);
      assert BatchKept(stack.queue.n, stack.ring.needsDrop, before, stack.Abs(), batch);
      UntouchedStays(stack.queue.n, stack.ring.needsDrop, before, stack.Abs(), batch);
    }

    // -------------------------------------------------------------- one position

    /** The task at a position is taken out of its cell. */
    method TakeAt(j: nat, cell: nat) returns (task: T)
      requires Valid() && j < |Tasks()| && cell == CellOf(stack.queue.n, stack.queue.Abs(), batch, j)
      requires At(stack.queue.n, stack.ring.needsDrop, stack.Abs(), batch, j, Fate(false, None))
      modifies stack`turns, stack.ring.tasks
      ensures Valid() && task == Tasks()[j] && stack.turns == old(stack.turns) + [Own(Take(batch, j))]
      ensures KeptBut(stack.queue.n, stack.ring.needsDrop, old(stack.Abs()), stack.Abs(), batch, j)
      ensures At(stack.queue.n, stack.ring.needsDrop, stack.Abs(), batch, j, Fate(true, None))
    {
      hide Inv, Played, Q.Inv, G.Contents, Unresolved, CellKept;
      ghost var before := stack.Abs();
      SystemFits(stack.queue.n, stack.ring.needsDrop, before, batch);
      task := stack.ring.TakeTask(cell);
      stack.Note(before, Take(batch, j));
      OwnStepKeeps(stack.queue.n, stack.ring.needsDrop, before, stack.Abs(), batch, j);
    }

    /** The resolver's side of position j, since `origin`: v is on its way. */
    ghost predicate Resolving(origin: System<T, V>, j: nat, cell: nat, v: V)
      reads this, stack, stack.queue, stack.queue.buffer, stack.ring.tasks, stack.ring.links
      requires Valid()
    {
      && j < |Tasks()| && cell == CellOf(stack.queue.n, stack.queue.Abs(), batch, j)
      && cell < |origin.tasks| && cell < stack.queue.n && stack.ring.tasks[cell] == origin.tasks[cell]
      && H.Inv(stack.ring.needsDrop, v, stack.ring.links[cell])
      && KeptBut(stack.queue.n, stack.ring.needsDrop, origin, stack.Abs(), batch, j)
    }

    /** A step of `resolve_unchecked` was made at position j. */
    ghost method NoteResolve(before: System<T, V>, origin: System<T, V>, j: nat, cell: nat, act: H.Action, v: V)
      requires stack.Tracks(before) && Holds(before.queue, batch, j) && H.ByResolver(act)
      requires cell == CellOf(stack.queue.n, before.queue, batch, j) && cell < |before.links| == stack.queue.n
      requires H.Step(KEPT, stack.ring.needsDrop, v, before.links[cell], act) == Some(stack.ring.links[cell])
      requires stack.queue.Abs() == before.queue && stack.ring.tasks[..] == before.tasks
      requires stack.ring.links[..] == before.links[cell := stack.ring.links[cell]]
      requires KeptBut(stack.queue.n, stack.ring.needsDrop, origin, before, batch, j)
      modifies stack`turns
      ensures Valid() && stack.turns == old(stack.turns) + [Own(Resolve(batch, j, act, v))]
      ensures KeptBut(stack.queue.n, stack.ring.needsDrop, origin, stack.Abs(), batch, j)
    {
      hide Inv, Played, Q.Inv, G.Contents, KeptBut, H.Step;
      SystemFits(stack.queue.n, stack.ring.needsDrop, before, batch);
      stack.Note(before, Resolve(batch, j, act, v));
      OwnStepKeeps(stack.queue.n, stack.ring.needsDrop, before, stack.Abs(), batch, j);
      KeptButOn(stack.queue.n, stack.ring.needsDrop, origin, before, stack.Abs(), batch, j);
    }

    /** Others run while position j is being resolved. */
    method YieldResolving(schedule: seq<Action<T, V>>, ghost others: iset<Action<T, V>>,
                          ghost origin: System<T, V>, j: nat, cell: nat, v: V)
      requires Valid() && Admitted(schedule, batch, others) && cell < stack.queue.n && Resolving(origin, j, cell, v)
      modifies stack, stack.queue, stack.queue.buffer, stack.ring.tasks, stack.ring.links
      ensures Valid() && Resolving(origin, j, cell, v)
      ensures stack.queue.pending == old(stack.queue.pending)
      ensures GoesOn(old(stack.turns), stack.turns, batch, others)
      ensures stack.ring.links[cell].resolver == old(stack.ring.links[cell]).resolver
    {
      hide Inv, Played, Q.Inv, G.Contents, H.Inv, Unresolved, KeptBut;
      ghost var before := stack.Abs();
      SystemFits(stack.queue.n, stack.ring.needsDrop, before, batch);
      Yield(schedule, others);
      assert CellKept(stack.queue.n, stack.ring.needsDrop, before, stack.Abs(), batch, j);
      KeptIsKeptBut(stack.queue.n, stack.ring.needsDrop, before, stack.Abs(), batch, j);
      KeptButOn(stack.queue.n, stack.ring.needsDrop, origin, before, stack.Abs(), batch, j);
    }

    method ClaimAt(ghost origin: System<T, V>, j: nat, cell: nat, v: V) returns (state: bv64)
      requires Valid() && cell < stack.queue.n && Resolving(origin, j, cell, v)
      requires stack.ring.links[cell].resolver.Before? && !stack.ring.links[cell].recycled
      modifies stack`turns, stack.ring.links
      ensures Valid() && Resolving(origin, j, cell, v)
      ensures stack.turns == old(stack.turns) + [Own(Resolve(batch, j, H.FetchOr, v))]
      ensures stack.ring.links[cell].resolver == if state & H.RX_DROPPED == 0 then H.Claimed else H.Skipped
    {
      hide Inv, Played, Q.Inv, G.Contents, H.Inv, H.Step, KeptBut;
      ghost var before := stack.Abs();
      SystemFits(stack.queue.n, stack.ring.needsDrop, before, batch);
      state := stack.ring.ClaimReceiver(cell, v);
      NoteResolve(before, origin, j, cell, H.FetchOr, v);
    }

    method StoreAt(ghost origin: System<T, V>, j: nat, cell: nat, v: V)
      requires Valid() && cell < stack.queue.n && Resolving(origin, j, cell, v)
      requires stack.ring.links[cell].resolver.Claimed?
      modifies stack`turns, stack.ring.links
      ensures Valid() && Resolving(origin, j, cell, v)
      ensures stack.turns == old(stack.turns) + [Own(Resolve(batch, j, H.StoreValue, v))]
      ensures stack.ring.links[cell].resolver.Stored?
    {
      hide Inv, Played, Q.Inv, G.Contents, H.Inv, H.Step, KeptBut;
      ghost var before := stack.Abs();
      SystemFits(stack.queue.n, stack.ring.needsDrop, before, batch);
      stack.ring.WriteValue(cell, v);
      NoteResolve(before, origin, j, cell, H.StoreValue, v);
    }

    method WakeAt(ghost origin: System<T, V>, j: nat, cell: nat, v: V)
      requires Valid() && cell < stack.queue.n && Resolving(origin, j, cell, v)
      requires stack.ring.links[cell].resolver.Stored?
      modifies stack`turns, stack.ring.links
      ensures Valid() && Resolving(origin, j, cell, v)
      ensures stack.turns == old(stack.turns) + [Own(Resolve(batch, j, H.Wake, v))]
      ensures stack.ring.links[cell].resolver.Woken?
    {
      hide Inv, Played, Q.Inv, G.Contents, H.Inv, H.Step, KeptBut;
      ghost var before := stack.Abs();
      SystemFits(stack.queue.n, stack.ring.needsDrop, before, batch);
      stack.ring.WakeReceiver(cell, v);
      NoteResolve(before, origin, j, cell, H.Wake, v);
    }

    method PublishAt(ghost origin: System<T, V>, j: nat, cell: nat, v: V)
      requires Valid() && cell < stack.queue.n && Resolving(origin, j, cell, v)
      requires stack.ring.links[cell].resolver.Woken?
      modifies stack`turns, stack.ring.links
      ensures Valid() && Resolving(origin, j, cell, v)
      ensures stack.turns == old(stack.turns) + [Own(Resolve(batch, j, H.FetchXor, v))]
      ensures stack.ring.links[cell].resolver.Finished?
    {
      hide Inv, Played, Q.Inv, G.Contents, H.Inv, H.Step, KeptBut;
      ghost var before := stack.Abs();
      SystemFits(stack.queue.n, stack.ring.needsDrop, before, batch);
      stack.ring.PublishValue(cell, v);
      NoteResolve(before, origin, j, cell, H.FetchXor, v);
    }

    /** `resolve_unchecked`, while everybody else goes on. */
    method ResolveAt(j: nat, cell: nat, taken: bool, v: V, env: nat -> seq<Action<T, V>>,
                     ghost others: iset<Action<T, V>>)
      requires Valid() && j < |Tasks()| && cell == CellOf(stack.queue.n, stack.queue.Abs(), batch, j)
      requires At(stack.queue.n, stack.ring.needsDrop, stack.Abs(), batch, j, Fate(taken, None))
      requires forall p :: Admitted(env(p), batch, others)
      modifies stack, stack.queue, stack.queue.buffer, stack.ring.tasks, stack.ring.links
      ensures Valid() && stack.queue.pending == old(stack.queue.pending)
      ensures GoesOn(old(stack.turns), stack.turns, batch, others)
      ensures KeptBut(stack.queue.n, stack.ring.needsDrop, old(stack.Abs()), stack.Abs(), batch, j)
      ensures At(stack.queue.n, stack.ring.needsDrop, stack.Abs(), batch, j, Fate(taken, Some(v)))
    {
      hide Resolving, Inv, Played, At, KeptBut, TaskStackQueue.Valid;
      ghost var origin := stack.Abs();
      StartResolving(j, cell, taken, v);
      var state := ClaimAt(origin, j, cell, v);
      if state & H.RX_DROPPED == 0 {
        SetValueAt(origin, j, cell, v, env, others);
      }
      EndResolving(origin, j, cell, taken, v);
    }

    /** The receiver is there to be written to. */
    method SetValueAt(ghost origin: System<T, V>, j: nat, cell: nat, v: V, env: nat -> seq<Action<T, V>>,
                      ghost others: iset<Action<T, V>>)
      requires Valid() && cell < stack.queue.n && Resolving(origin, j, cell, v)
      requires stack.ring.links[cell].resolver.Claimed? && forall p :: Admitted(env(p), batch, others)
      modifies stack, stack.queue, stack.queue.buffer, stack.ring.tasks, stack.ring.links
      ensures Valid() && Resolving(origin, j, cell, v) && stack.ring.links[cell].resolver.Finished?
      ensures stack.queue.pending == old(stack.queue.pending)
      ensures GoesOn(old(stack.turns), stack.turns, batch, others)
    {
      hide Resolving, Inv, Played, TaskStackQueue.Valid;
      YieldResolving(env(1), others, origin, j, cell, v);
      StoreAt(origin, j, cell, v);
      YieldResolving(env(2), others, origin, j, cell, v);
      WakeAt(origin, j, cell, v);
      YieldResolving(env(3), others, origin, j, cell, v);
      PublishAt(origin, j, cell, v);
    }

    lemma StartResolving(j: nat, cell: nat, taken: bool, v: V)
      requires Valid() && j < |Tasks()| && cell == CellOf(stack.queue.n, stack.queue.Abs(), batch, j)
      requires At(stack.queue.n, stack.ring.needsDrop, stack.Abs(), batch, j, Fate(taken, None))
      ensures Resolving(stack.Abs(), j, cell, v) && cell < stack.queue.n
      ensures stack.ring.links[cell].resolver.Before? && !stack.ring.links[cell].recycled
    {
      hide Inv, Played, Q.Inv, G.Contents, KeptBut, H.Inv;
      SystemFits(stack.queue.n, stack.ring.needsDrop, stack.Abs(), batch);
      UnresolvedIsOpen(stack.ring.needsDrop, stack.ring.links[cell], v);
    }

    lemma EndResolving(origin: System<T, V>, j: nat, cell: nat, taken: bool, v: V)
      requires Valid() && cell < stack.queue.n && Resolving(origin, j, cell, v) && batch < |origin.queue.batches|
      requires At(stack.queue.n, stack.ring.needsDrop, origin, batch, j, Fate(taken, None))
      requires stack.ring.links[cell].resolver.Finished? || stack.ring.links[cell].resolver.Skipped?
      ensures KeptBut(stack.queue.n, stack.ring.needsDrop, origin, stack.Abs(), batch, j)
      ensures At(stack.queue.n, stack.ring.needsDrop, stack.Abs(), batch, j, Fate(taken, Some(v)))
    {
      hide Inv, Played, Q.Inv, G.Contents, H.Inv, Unresolved, ResolvedWith, CellKept;
      WhatResolvedMeans(stack.ring.needsDrop, v, stack.ring.links[cell]);
    }

    // -------------------------------------------------------------- a whole batch

    /** Nothing about the batch changes but what its holder does to its cells. */
    twostate predicate SameBatch()
      reads this, stack, stack.queue, stack.queue.buffer
    {
      && batch < |stack.queue.batches| && batch < old(|stack.queue.batches|)
      && stack.queue.batches[batch] == old(stack.queue.batches)[batch] && Tasks() == old(Tasks())
      && stack.queue.pending == old(stack.queue.pending)
    }

    /** Others run; what has been done stays done, and the next position is as it was enqueued. */
    method YieldReached(schedule: seq<Action<T, V>>, ghost others: iset<Action<T, V>>,
                        ghost fates: seq<Fate<V>>, ghost k: nat)
      requires Valid() && Admitted(schedule, batch, others) && Reached(fates, k)
      modifies stack, stack.queue, stack.queue.buffer, stack.ring.tasks, stack.ring.links
      ensures Valid() && SameBatch() && Reached(fates, k) && GoesOn(old(stack.turns), stack.turns, batch, others)
      ensures k < |Tasks()| ==>
                At(stack.queue.n, stack.ring.needsDrop, stack.Abs(), batch, k, Fate(false, None))
    {
      hide Inv, Played, Q.Inv, G.Contents, At, BatchKept;
      ghost var before := stack.Abs();
      SystemFits(stack.queue.n, stack.ring.needsDrop, before, batch);
      Yield(schedule, others);
      ProgressKept(stack.queue.n, stack.ring.needsDrop, before, stack.Abs(), batch, fates, k);
      assert k < |fates| ==> FateAt(fates, k, k) == Fate(false, None);
    }

    /** A position was brought to its fate. */
    lemma Advance(before: System<T, V>, fates: seq<Fate<V>>, k: nat)
      requires Valid() && Inv(stack.queue.n, stack.ring.needsDrop, before) && k < |fates|
      requires Progress(stack.queue.n, stack.ring.needsDrop, before, batch, fates, k)
      requires before.queue.batches[batch].status.Bounded?
      requires KeptBut(stack.queue.n, stack.ring.needsDrop, before, stack.Abs(), batch, k)
      requires At(stack.queue.n, stack.ring.needsDrop, stack.Abs(), batch, k, fates[k])
      ensures Reached(fates, k + 1)
    {
      hide Inv, Played, Q.Inv, G.Contents, At, KeptBut;
      SystemFits(stack.queue.n, stack.ring.needsDrop, before, batch);
      ProgressOn(stack.queue.n, stack.ring.needsDrop, before, stack.Abs(), batch, fates, k);
    }

    /** One turn of the loop of `map`. */
    method MapOne(op: T -> V, j: nat, cell: nat, env: nat -> seq<Action<T, V>>, ghost others: iset<Action<T, V>>,
                  ghost fates: seq<Fate<V>>)
      requires Valid() && j < |Tasks()| && cell == CellOf(stack.queue.n, stack.queue.Abs(), batch, j)
      requires Reached(fates, j) && fates[j] == Fate(true, Some(op(Tasks()[j])))
      requires forall p :: Admitted(env(p), batch, others)
      modifies stack, stack.queue, stack.queue.buffer, stack.ring.tasks, stack.ring.links
      ensures Valid() && SameBatch() && Reached(fates, j + 1) && GoesOn(old(stack.turns), stack.turns, batch, others)
    {
      hide Inv, Played, G.Contents, At, CellKept;
      YieldReached(env(0), others, fates, j);
      ghost var s0 := stack.Abs();
      var task := TakeAt(j, cell);
      ghost var s1 := stack.Abs();
      ResolveAt(j, cell, true, op(task), env, others);
      KeptButOn(stack.queue.n, stack.ring.needsDrop, s0, s1, stack.Abs(), batch, j);
      Advance(s0, fates, j);
    }

    /** One turn of the loop of `resolve_with_iter`, while there are values. */
    method FillOne(value: V, j: nat, cell: nat, env: nat -> seq<Action<T, V>>, ghost others: iset<Action<T, V>>,
                   ghost fates: seq<Fate<V>>)
      requires Valid() && j < |Tasks()| && cell == CellOf(stack.queue.n, stack.queue.Abs(), batch, j)
      requires Reached(fates, j) && fates[j] == Fate(stack.ring.needsDrop, Some(value))
      requires forall p :: Admitted(env(p), batch, others)
      modifies stack, stack.queue, stack.queue.buffer, stack.ring.tasks, stack.ring.links
      ensures Valid() && SameBatch() && Reached(fates, j + 1) && GoesOn(old(stack.turns), stack.turns, batch, others)
    {
      hide Inv, Played, G.Contents, At, CellKept;
      YieldReached(env(0), others, fates, j);
      ghost var s0 := stack.Abs();
      if stack.ring.needsDrop {
        var dropped := TakeAt(j, cell);
      }
      ghost var s1 := stack.Abs();
      SystemFits(stack.queue.n, stack.ring.needsDrop, s1, batch);
      ResolveAt(j, cell, stack.ring.needsDrop, value, env, others);
      KeptButOn(stack.queue.n, stack.ring.needsDrop, s0, s1, stack.Abs(), batch, j);
      Advance(s0, fates, j);
    }

    /** One turn of the loop that drops the tasks. */
    method DropOne(j: nat, cell: nat, schedule: seq<Action<T, V>>, ghost others: iset<Action<T, V>>,
                   ghost fates: seq<Fate<V>>)
      returns (task: T)
      requires Valid() && j < |Tasks()| && cell == CellOf(stack.queue.n, stack.queue.Abs(), batch, j)
      requires Reached(fates, j) && fates[j] == Fate(true, None) && Admitted(schedule, batch, others)
      modifies stack, stack.queue, stack.queue.buffer, stack.ring.tasks, stack.ring.links
      ensures Valid() && SameBatch() && Reached(fates, j + 1) && GoesOn(old(stack.turns), stack.turns, batch, others)
      ensures task == Tasks()[j]
    {
      hide Inv, Played, G.Contents, At, CellKept;
      YieldReached(schedule, others, fates, j);
      ghost var s0 := stack.Abs();
      task := TakeAt(j, cell);
      Advance(s0, fates, j);
    }

    /** Cells from..to are those of the batch's positions from `at` on. */
    ghost predicate Slice(at: nat, from: nat, to: nat)
      reads this, stack, stack.queue, stack.queue.buffer
      requires batch < |stack.queue.batches|
    {
      && 0 < stack.queue.n && from <= to <= stack.queue.n && at + (to - from) <= |Tasks()|
      && (from < to ==> CellOf(stack.queue.n, stack.queue.Abs(), batch, at) == from)
    }

    lemma CellInSlice(at: nat, from: nat, to: nat, c: nat)
      requires batch < |stack.queue.batches| && Slice(at, from, to) && from <= c < to
      ensures CellOf(stack.queue.n, stack.queue.Abs(), batch, at + (c - from)) == c
    {
      WrappedEnd(stack.queue.n, stack.queue.batches[batch].start + at, c - from);
    }

    method MapSlice(op: T -> V, at: nat, from: nat, to: nat, env: nat -> nat -> seq<Action<T, V>>,
                    ghost others: iset<Action<T, V>>)
      requires Valid() && Slice(at, from, to) && Reached(MapFates(op, Tasks()), at)
      requires forall c, p :: Admitted(env(c)(p), batch, others)
      modifies stack, stack.queue, stack.queue.buffer, stack.ring.tasks, stack.ring.links
      ensures Valid() && SameBatch() && Reached(MapFates(op, Tasks()), at + (to - from))
      ensures GoesOn(old(stack.turns), stack.turns, batch, others)
    {
      hide Inv, Played, G.Contents, At, TaskStackQueue.Valid, Progress;
      for c := from to to
        invariant Valid() && SameBatch() && Reached(MapFates(op, Tasks()), at + (c - from))
        invariant GoesOn(old(stack.turns), stack.turns, batch, others)
      {
        CellInSlice(at, from, to, c);
        MapOne(op, at + (c - from), c, env(c), others, MapFates(op, Tasks()));
      }
    }

    method FillSlice(values: seq<V>, at: nat, from: nat, to: nat, env: nat -> nat -> seq<Action<T, V>>,
                     ghost others: iset<Action<T, V>>)
      requires Valid() && Slice(at, from, to) && Reached(FillFates(stack.ring.needsDrop, values, |Tasks()|), at)
      requires forall c, p :: Admitted(env(c)(p), batch, others)
      modifies stack, stack.queue, stack.queue.buffer, stack.ring.tasks, stack.ring.links
      ensures Valid() && SameBatch()
      ensures Reached(FillFates(stack.ring.needsDrop, values, |Tasks()|), at + (to - from))
      ensures GoesOn(old(stack.turns), stack.turns, batch, others)
    {
      hide Inv, Played, G.Contents, At, TaskStackQueue.Valid, Progress;
      for c := from to to
        invariant Valid() && SameBatch()
        invariant Reached(FillFates(stack.ring.needsDrop, values, |Tasks()|), at + (c - from))
        invariant GoesOn(old(stack.turns), stack.turns, batch, others)
      {
        ghost var fates := FillFates(stack.ring.needsDrop, values, |Tasks()|);
        if at + (c - from) < |values| {
          CellInSlice(at, from, to, c);
          FillOne(values[at + (c - from)], at + (c - from), c, env(c), others, fates);
        } else {
          NothingToDo(fates, at + (c - from));
        }
      }
    }

    lemma NothingToDo(fates: seq<Fate<V>>, k: nat)
      requires Valid() && Reached(fates, k) && k < |fates| && fates[k] == Fate(false, None)
      ensures Reached(fates, k + 1)
    {
      hide Inv, Played, G.Contents, At;
      var m := k + 1;
      forall j: nat | j < |fates|
        ensures At(stack.queue.n, stack.ring.needsDrop, stack.Abs(), batch, j, FateAt(fates, m, j))
      {
        assert At(stack.queue.n, stack.ring.needsDrop, stack.Abs(), batch, j, FateAt(fates, k, j));
      }
    }

    method DropSlice(at: nat, from: nat, to: nat, env: nat -> seq<Action<T, V>>, ghost others: iset<Action<T, V>>)
      returns (dropped: seq<T>)
      requires Valid() && Slice(at, from, to) && Reached(DropFates(true, |Tasks()|), at)
      requires forall c :: Admitted(env(c), batch, others)
      modifies stack, stack.queue, stack.queue.buffer, stack.ring.tasks, stack.ring.links
      ensures Valid() && SameBatch() && Reached(DropFates(true, |Tasks()|), at + (to - from))
      ensures GoesOn(old(stack.turns), stack.turns, batch, others)
      ensures dropped == Tasks()[at..at + (to - from)]
    {
      hide Inv, Played, G.Contents, At, TaskStackQueue.Valid, Progress;
      dropped := [];
      for c := from to to
        invariant Valid() && SameBatch() && Reached(DropFates(true, |Tasks()|), at + (c - from))
        invariant GoesOn(old(stack.turns), stack.turns, batch, others)
        invariant dropped == Tasks()[at..at + (c - from)]
      {
        CellInSlice(at, from, to, c);
        var task := DropOne(at + (c - from), c, env(c), others, DropFates(true, |Tasks()|));
        dropped := dropped + [task];
      }
    }

    /** The two slices of `as_slices`, one after the other, are all positions of the batch. */
    lemma TwoSlices()
      requires Valid()
      ensures ValidSize(stack.queue.n)
      ensures var status := stack.queue.batches[batch].status;
              var (from, to, wrapped) := Slices(stack.queue.n, status.lo, status.hi);
              && Slice(0, from, to) && Slice(to - from, 0, wrapped) && (to - from) + wrapped == |Tasks()|
    {
      hide Inv, Played, Q.Inv, G.Contents, Slices, IsPowerOfTwo, Place;
      stack.QueueValid();
      SlicesAreAll(stack.queue.n, stack.queue.Abs(), batch);
      var status := stack.queue.batches[batch].status;
      var (from, to, wrapped) := Slices(stack.queue.n, status.lo, status.hi);
      assert Slice(0, from, to);
      assert Slice(to - from, 0, wrapped);
    }

    /** The batch is given back. */
    method Release(retries: nat) returns (woken: seq<Waker>)
      requires Valid()
      modifies stack`turns, stack.queue`occupancy, stack.queue`batches, stack.queue`pending
      ensures stack.Valid() && stack.turns == old(stack.turns) + [Own(Queue(Q.Deoccupy(batch)))]
      ensures batch < |stack.queue.batches| && stack.queue.batches[batch].status.Released?
      ensures woken + stack.queue.pending == old(stack.queue.pending)
      ensures |woken| == Q.DueWakers(stack.queue.n, stack.queue.batches, old(|stack.queue.pending|))
    {
      hide Inv, Played, Q.Inv, Q.Step;
      ghost var before := stack.Abs();
      stack.QueueValid();
      woken := stack.queue.DeoccupyRegion(batch, retries);
      stack.NoteQueue(before, Q.Deoccupy(batch));
    }

    /** `map`: the receiver of the task pushed at position j is resolved with op of that task; then
        the batch is given back, once. Whatever the others do, they do not get in the way, and the
        run has no step but theirs and those of this batch's holder. */
    method Map(op: T -> V, env: nat -> nat -> seq<Action<T, V>>, ghost others: iset<Action<T, V>>, retries: nat)
      returns (woken: seq<Waker>)
      requires Valid() && Untouched() && forall c, p :: Admitted(env(c)(p), batch, others)
      modifies stack, stack.queue, stack.queue.buffer, stack.ring.tasks, stack.ring.links
      ensures stack.Valid() && batch < |stack.queue.batches| && stack.queue.batches[batch].status.Released?
      ensures woken + stack.queue.pending == old(stack.queue.pending)
      ensures |woken| == Q.DueWakers(stack.queue.n, stack.queue.batches, old(|stack.queue.pending|))
      ensures GoesOn(old(stack.turns), stack.turns, batch, others)
      ensures stack.turns[|stack.turns| - 1..] == [Own(Queue(Q.Deoccupy(batch)))]
      ensures var start, tasks := old(stack.queue.batches)[batch].start, old(Tasks());
              forall j: nat :: j < |tasks| ==>
                && stack.ring.tasks[Place(stack.queue.n, start, j)] == None
                && ResolvedWith(stack.ring.needsDrop, op(tasks[j]), stack.ring.links[Place(stack.queue.n, start, j)])
    {
      hide Inv, Played, G.Contents, At, Slices, ResolvedWith, Unresolved, Progress;
      ghost var fates := MapFates(op, Tasks());
      StartBatch(fates);
      MapAll(op, env, others);
      AllMet(stack.Abs(), fates);
      woken := Release(retries);
    }

    method MapAll(op: T -> V, env: nat -> nat -> seq<Action<T, V>>, ghost others: iset<Action<T, V>>)
      requires Valid() && Reached(MapFates(op, Tasks()), 0) && forall c, p :: Admitted(env(c)(p), batch, others)
      modifies stack, stack.queue, stack.queue.buffer, stack.ring.tasks, stack.ring.links
      ensures Valid() && SameBatch() && Reached(MapFates(op, Tasks()), |Tasks()|)
      ensures GoesOn(old(stack.turns), stack.turns, batch, others)
    {
      hide Inv, Played, G.Contents, At, Slices, Progress, TaskStackQueue.Valid;
      TwoSlices();
      var Bounded(_, lo, hi) := stack.queue.batches[batch].status;
      var (from, to, wrapped) := Slices(stack.queue.n, lo, hi);
      MapSlice(op, 0, from, to, env, others);
      MapSlice(op, to - from, 0, wrapped, (c: nat) => env(stack.queue.n + c), others);
    }

    /** `resolve_with_iter`: the receiver of the j-th task is resolved with the j-th value, as far as
        the values go, and tasks that need dropping are dropped along the way; where there are too
        few values, the rest of the tasks stay and their receivers are left waiting. */
    method ResolveWithIter(values: seq<V>, env: nat -> nat -> seq<Action<T, V>>, ghost others: iset<Action<T, V>>,
                           retries: nat)
      returns (woken: seq<Waker>)
      requires Valid() && Untouched() && forall c, p :: Admitted(env(c)(p), batch, others)
      modifies stack, stack.queue, stack.queue.buffer, stack.ring.tasks, stack.ring.links
      ensures stack.Valid() && batch < |stack.queue.batches| && stack.queue.batches[batch].status.Released?
      ensures woken + stack.queue.pending == old(stack.queue.pending)
      ensures |woken| == Q.DueWakers(stack.queue.n, stack.queue.batches, old(|stack.queue.pending|))
      ensures GoesOn(old(stack.turns), stack.turns, batch, others)
      ensures stack.turns[|stack.turns| - 1..] == [Own(Queue(Q.Deoccupy(batch)))]
      ensures var start, tasks := old(stack.queue.batches)[batch].start, old(Tasks());
              && (forall j: nat :: j < |tasks| && j < |values| ==>
                    && stack.ring.tasks[Place(stack.queue.n, start, j)]
                       == (if stack.ring.needsDrop then None else Some(tasks[j]))
                    && ResolvedWith(stack.ring.needsDrop, values[j], stack.ring.links[Place(stack.queue.n, start, j)]))
              && (forall j: nat :: |values| <= j < |tasks| ==>
                    && stack.ring.tasks[Place(stack.queue.n, start, j)] == Some(tasks[j])
                    && Unresolved(stack.ring.needsDrop, stack.ring.links[Place(stack.queue.n, start, j)]))
    {
      hide Inv, Played, G.Contents, At, Slices, ResolvedWith, Unresolved, Progress;
      ghost var fates := FillFates(stack.ring.needsDrop, values, |Tasks()|);
      StartBatch(fates);
      FillAll(values, env, others);
      AllMet(stack.Abs(), fates);
      woken := Release(retries);
    }

    method FillAll(values: seq<V>, env: nat -> nat -> seq<Action<T, V>>, ghost others: iset<Action<T, V>>)
      requires Valid() && Reached(FillFates(stack.ring.needsDrop, values, |Tasks()|), 0)
      requires forall c, p :: Admitted(env(c)(p), batch, others)
      modifies stack, stack.queue, stack.queue.buffer, stack.ring.tasks, stack.ring.links
      ensures Valid() && SameBatch() && Reached(FillFates(stack.ring.needsDrop, values, |Tasks()|), |Tasks()|)
      ensures GoesOn(old(stack.turns), stack.turns, batch, others)
    {
      hide Inv, Played, G.Contents, At, Slices, Progress, TaskStackQueue.Valid;
      TwoSlices();
      var Bounded(_, lo, hi) := stack.queue.batches[batch].status;
      var (from, to, wrapped) := Slices(stack.queue.n, lo, hi);
      FillSlice(values, 0, from, to, env, others);
      FillSlice(values, to - from, 0, wrapped, (c: nat) => env(stack.queue.n + c), others);
    }

    /** Dropping the assignment unresolved: every task that needs it is dropped, once and in order,
        the receivers are left waiting, and the batch is given back. */
    method Drop(env: nat -> seq<Action<T, V>>, ghost others: iset<Action<T, V>>, retries: nat)
      returns (dropped: seq<T>, woken: seq<Waker>)
      requires Valid() && Untouched() && forall c :: Admitted(env(c), batch, others)
      modifies stack, stack.queue, stack.queue.buffer, stack.ring.tasks, stack.ring.links
      ensures stack.Valid() && batch < |stack.queue.batches| && stack.queue.batches[batch].status.Released?
      ensures woken + stack.queue.pending == old(stack.queue.pending)
      ensures |woken| == Q.DueWakers(stack.queue.n, stack.queue.batches, old(|stack.queue.pending|))
      ensures GoesOn(old(stack.turns), stack.turns, batch, others)
      ensures stack.turns[|stack.turns| - 1..] == [Own(Queue(Q.Deoccupy(batch)))]
      ensures dropped == if stack.ring.needsDrop then old(Tasks()) else []
      ensures var start, tasks := old(stack.queue.batches)[batch].start, old(Tasks());
              forall j: nat :: j < |tasks| ==>
                && stack.ring.tasks[Place(stack.queue.n, start, j)]
                       == (if stack.ring.needsDrop then None else Some(tasks[j]))
                && Unresolved(stack.ring.needsDrop, stack.ring.links[Place(stack.queue.n, start, j)])
    {
      hide Inv, Played, G.Contents, At, Slices, Unresolved, Progress;
      ghost var fates := DropFates(stack.ring.needsDrop, |Tasks()|);
      StartBatch(fates);
      dropped := [];
      if stack.ring.needsDrop {
        dropped := DropAll(env, others);
      }
      AllMet(stack.Abs(), fates);
      woken := Release(retries);
    }

    method DropAll(env: nat -> seq<Action<T, V>>, ghost others: iset<Action<T, V>>) returns (dropped: seq<T>)
      requires Valid() && Reached(DropFates(true, |Tasks()|), 0) && forall c :: Admitted(env(c), batch, others)
      modifies stack, stack.queue, stack.queue.buffer, stack.ring.tasks, stack.ring.links
      ensures Valid() && SameBatch() && Reached(DropFates(true, |Tasks()|), |Tasks()|)
      ensures GoesOn(old(stack.turns), stack.turns, batch, others) && dropped == Tasks()
    {
      hide Inv, Played, G.Contents, At, Slices, Progress, TaskStackQueue.Valid;
      TwoSlices();
      var Bounded(_, lo, hi) := stack.queue.batches[batch].status;
      var (from, to, wrapped) := Slices(stack.queue.n, lo, hi);
      dropped := DropSlice(0, from, to, env, others);
      var back := DropSlice(to - from, 0, wrapped, (c: nat) => env(stack.queue.n + c), others);
      dropped := dropped + back;
    }

    /** At the start nothing has been done; where nothing is to be done, that is also the end. */
    lemma StartBatch(fates: seq<Fate<V>>)
      requires Valid() && Untouched() && |fates| == |Tasks()|
      ensures Reached(fates, 0)
      ensures (forall j :: 0 <= j < |fates| ==> fates[j] == Fate(false, None)) ==> Reached(fates, |fates|)
    {
      hide Inv, Played, G.Contents, At;
      assert forall j: nat :: j < |fates| ==> FateAt(fates, 0, j) == Fate(false, None);
      assert forall j: nat :: j < |fates| ==> FateAt(fates, |fates|, j) == fates[j];
    }

    /** Every position has met its fate. */
    lemma AllMet(s: System<T, V>, fates: seq<Fate<V>>)
      requires Valid() && s == stack.Abs() && Reached(fates, |fates|)
      ensures var (n, start) := (stack.queue.n, stack.queue.batches[batch].start);
              forall j: nat :: j < |fates| ==>
                && stack.ring.tasks[Place(n, start, j)] == (if fates[j].taken then None else Some(Tasks()[j]))
                && match fates[j].value
                   case None => Unresolved(stack.ring.needsDrop, stack.ring.links[Place(n, start, j)])
                   case Some(v) => ResolvedWith(stack.ring.needsDrop, v, stack.ring.links[Place(n, start, j)])
    {
      hide Inv, Played, G.Contents, Unresolved, ResolvedWith;
      forall j: nat | j < |fates|
        ensures At(stack.queue.n, stack.ring.needsDrop, s, batch, j, fates[j])
      {
        assert FateAt(fates, |fates|, j) == fates[j];
      }
    }
  }

  lemma SlicesAreAll<T>(n: nat, q: Q.State<T>, b: nat)
    requires ValidSize(n) && Q.Inv(n, q) && b < |q.batches| && q.batches[b].status.Bounded?
    ensures var (start, status) := (q.batches[b].start, q.batches[b].status);
            var (from, to, wrapped) := Slices(n, status.lo, status.hi);
            && from < to <= n && wrapped <= n && (to - from) + wrapped == |G.Contents(q, b)|
            && Place(n, start, 0) == from && (wrapped > 0 ==> Place(n, start, to - from) == 0)
  {
    hide Q.Inv, G.Contents, Slices;
    SlicesOfBatch(n, q, b);
  }

  lemma UntouchedStays<T, V(!new)>(n: nat, needsDrop: bool, s: System<T, V>, t: System<T, V>, b: nat)
    requires ValidSize(n) && Q.Inv(n, s.queue) && BatchKept(n, needsDrop, s, t, b)
    requires b < |s.queue.batches| && s.queue.batches[b].status.Bounded?
    ensures b < |t.queue.batches|
    ensures forall j: nat :: j < |G.Contents(s.queue, b)| && At(n, needsDrop, s, b, j, Fate(false, None)) ==>
              At(n, needsDrop, t, b, j, Fate(false, None))
  {
    hide Q.Inv, G.Contents, At, CellKept;
    BatchFits(n, s.queue, b);
    forall j: nat | j < |G.Contents(s.queue, b)| && At(n, needsDrop, s, b, j, Fate(false, None))
      ensures At(n, needsDrop, t, b, j, Fate(false, None))
    {
      AtKept(n, needsDrop, s, t, b, j, Fate(false, None));
    }
  }

  lemma SystemFits<T, V(!new)>(n: nat, needsDrop: bool, s: System<T, V>, b: nat)
    requires ValidSize(n) && Inv(n, needsDrop, s) && b < |s.queue.batches| && s.queue.batches[b].status.Bounded?
    ensures Q.Inv(n, s.queue) && |s.tasks| == |s.links| == n
    ensures 1 <= |G.Contents(s.queue, b)| <= n
    ensures forall j: nat :: Holds(s.queue, b, j) <==> j < |G.Contents(s.queue, b)|
    ensures forall j: nat :: KeptBut(n, needsDrop, s, s, b, j)
  {
    hide Q.Inv, CellsAwait, LinksSound, G.Contents;
    BatchFits(n, s.queue, b);
    NothingHappens(n, needsDrop, s, b);
  }

  lemma KeptIsKeptBut<T, V(!new)>(n: nat, needsDrop: bool, s: System<T, V>, t: System<T, V>, b: nat, j: nat)
    requires ValidSize(n) && BatchKept(n, needsDrop, s, t, b)
    requires b < |s.queue.batches| && s.queue.batches[b].status.Bounded?
    ensures KeptBut(n, needsDrop, s, t, b, j)
  {
    hide CellKept, G.Contents;
  }

  /** The tasks of an open batch wait in their cells. */
  lemma OpenIsUntouched<T, V(!new)>(n: nat, needsDrop: bool, s: System<T, V>, b: nat)
    requires ValidSize(n) && Inv(n, needsDrop, s) && b < |s.queue.batches| && s.queue.batches[b].status.Open?
    ensures forall j: nat :: j < |G.Contents(s.queue, b)| ==> At(n, needsDrop, s, b, j, Fate(false, None))
  {
    hide Q.Inv, CellsAwait, LinksSound, Unresolved;
    forall j: nat | j < |G.Contents(s.queue, b)|
      ensures At(n, needsDrop, s, b, j, Fate(false, None))
    {
      WaitsAt(n, needsDrop, s, b, j);
    }
  }

  lemma SameCells<T, V>(n: nat, needsDrop: bool, s: System<T, V>, t: System<T, V>, b: nat)
    requires n > 0 && b < |s.queue.batches| && b < |t.queue.batches| && t.tasks == s.tasks && t.links == s.links
    requires t.queue.batches[b].start == s.queue.batches[b].start && G.Contents(t.queue, b) == G.Contents(s.queue, b)
    ensures forall j: nat :: j < |G.Contents(s.queue, b)| && At(n, needsDrop, s, b, j, Fate(false, None)) ==>
              At(n, needsDrop, t, b, j, Fate(false, None))
  {
    hide G.Contents;
  }

  lemma OneTask<T>(q: Q.State<T>, task: T)
    requires |q.batches| == 1 && q.batches[0].start == 0 && q.batches[0].status.Open? && q.pushed == [task]
    ensures G.Contents(q, 0) == [task]
  {
  }

  /** From an empty queue to a resolved receiver: the first task opens a batch, and processing it
      resolves its receiver with what op makes of it, with anybody at work on the way. */
  method FirstTask<T, V(!new)>(n: nat, needsDrop: bool, task: T, op: T -> V, enqueuing: nat -> seq<Action<T, V>>,
                               mapping: nat -> nat -> seq<Action<T, V>>, ghost others: iset<Action<T, V>>)
    returns (stack: TaskStackQueue<T, V>, woken: seq<Waker>)
    requires ValidSize(n) && forall k :: AllByOthers(enqueuing(k))
    requires forall c, p :: Admitted(mapping(c)(p), 0, others)
    ensures stack.Valid() && |stack.queue.batches| > 0 && stack.queue.batches[0].status.Released?
    ensures stack.ring.links.Length == stack.queue.n > 0
    ensures ResolvedWith(needsDrop, op(task), stack.ring.links[0])
  {
    hide Inv, Played, G.Contents, At, ResolvedWith, IsPowerOfTwo;
    stack := new TaskStackQueue(n, needsDrop);
    var outcome, slow := stack.Enqueue(task, enqueuing);
    assert outcome == Q.Opened(0);
    OneTask(stack.queue.Abs(), task);
    var assignment := new TaskAssignment(stack, 0);
    ghost var start, tasks := stack.queue.batches[0].start, assignment.Tasks();
    assert tasks == [task] && Place(stack.queue.n, start, 0) == 0;
    woken := assignment.Map(op, mapping, others, 0);
    assert ResolvedWith(needsDrop, op(tasks[0]), stack.ring.links[Place(stack.queue.n, start, 0)]);
  }
}
