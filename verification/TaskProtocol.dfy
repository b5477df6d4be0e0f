/** The protocol of a task queue: the batching protocol with its cells, which hold tasks and the
    links to their receivers (crates/stack-queue/src/queue.rs, crates/stack-queue/src/task.rs,
    crates/stack-queue/src/assignment.rs). Writing a cell initialises it, whoever holds a bounded
    batch takes its tasks and resolves its receivers, and receivers are polled and dropped at any
    time. As the discipline of `Handoff` asks, a cell is written again only once it is retired. */
module TaskProtocol {
  import opened Wrappers
  import opened Helpers
  import opened Ranges
  import opened ProtocolSteps
  import opened TaskQueue
  import Q = Protocol
  import G = Guarantees
  import H = Handoff

  datatype System<T, V> = System(queue: Q.State<T>, tasks: seq<Option<T>>, links: seq<H.State<V>>)

  datatype Action<+T, +V> =
    | Queue(step: Q.Action<T>)
    | Receiver(cell: nat, act: H.Action)
    | Take(batch: nat, position: nat)
    | Resolve(batch: nat, position: nat, act: H.Action, value: V)

  function Initial<T, V>(n: nat): System<T, V> {
    System(Q.Initial(n), seq(n, _ => None), seq(n, _ => Vacant()))
  }

  /** Position j of batch b is there for the holder of the batch. */
  predicate Holds<T>(q: Q.State<T>, b: nat, j: nat) {
    b < |q.batches| && q.batches[b].status.Bounded? && q.batches[b].start + j < q.batches[b].status.end
  }

  function CellOf<T>(n: nat, q: Q.State<T>, b: nat, j: nat): nat
    requires n > 0 && b < |q.batches|
  {
    Place(n, q.batches[b].start, j)
  }

  /** One step, or None where the program cannot take it. */
  function Step<T, V>(n: nat, needsDrop: bool, s: System<T, V>, a: Action<T, V>): Option<System<T, V>>
    requires ValidSize(n)
  {
    match a
    case Queue(step) =>
      var next := BoundedStep(n, s.queue, step);
      if next.None? then None
      else if step.Write? then WriteCell(s, next.value)
      else Some(s.(queue := next.value))
    case Receiver(cell, act) =>
      if cell >= |s.links| then None
      else
        var next := H.ReceiverStep(KEPT, needsDrop, s.links[cell], act);
        if next.Some? then Some(s.(links := s.links[cell := next.value])) else None
    case Take(b, j) =>
      if Holds(s.queue, b, j) && CellOf(n, s.queue, b, j) < |s.tasks| && s.tasks[CellOf(n, s.queue, b, j)].Some?
      then Some(s.(tasks := s.tasks[CellOf(n, s.queue, b, j) := None])) else None
    case Resolve(b, j, act, value) =>
      if Holds(s.queue, b, j) && CellOf(n, s.queue, b, j) < |s.links| && H.ByResolver(act) then
        var cell := CellOf(n, s.queue, b, j);
        var next := H.Step(KEPT, needsDrop, value, s.links[cell], act);
        if next.Some? then Some(s.(links := s.links[cell := next.value])) else None
      else None
  }

  /** The owner's write: the cell takes the task, and a link on which nothing has happened. */
  function WriteCell<T, V>(s: System<T, V>, next: Q.State<T>): Option<System<T, V>> {
    if s.queue.owner.Ready? && s.queue.owner.index < |s.tasks| && s.queue.owner.index < |s.links|
       && H.Retired(s.links[s.queue.owner.index])
    then
      var Ready(task, index) := s.queue.owner;
      Some(System(next, s.tasks[index := Some(task)], s.links[index := H.Initial()]))
    else None
  }

  function Run<T, V>(n: nat, needsDrop: bool, s: System<T, V>, actions: seq<Action<T, V>>): Option<System<T, V>>
    requires ValidSize(n)
    decreases |actions|
  {
    if actions == [] then Some(s)
    else
      match Step(n, needsDrop, s, actions[0])
      case None => None
      case Some(next) => Run(n, needsDrop, next, actions[1..])
  }

  lemma {:induction false} RunSnoc<T, V>(n: nat, needsDrop: bool, s: System<T, V>, actions: seq<Action<T, V>>,
                                         a: Action<T, V>)
    requires ValidSize(n) && Run(n, needsDrop, s, actions).Some?
    ensures Run(n, needsDrop, s, actions + [a]) == Step(n, needsDrop, Run(n, needsDrop, s, actions).value, a)
    decreases |actions|
  {
    hide Step;
    if actions == [] {
      assert actions + [a] == [a] && [a][1..] == [];
      assert Step(n, needsDrop, s, a).Some? ==>
          Run(n, needsDrop, Step(n, needsDrop, s, a).value, []) == Step(n, needsDrop, s, a);
    } else {
      assert (actions + [a])[0] == actions[0] && (actions + [a])[1..] == actions[1..] + [a];
      RunSnoc(n, needsDrop, Step(n, needsDrop, s, actions[0]).value, actions[1..], a);
    }
  }

  // ---------------------------------------------------------------- invariant

  /** The cell holds the task, and nobody has begun to resolve it. */
  ghost predicate Enqueued<T, V>(needsDrop: bool, tasks: seq<Option<T>>, links: seq<H.State<V>>, cell: nat, task: T) {
    cell < |tasks| && cell < |links| && tasks[cell] == Some(task) && Unresolved(needsDrop, links[cell])
  }

  /** If push i belongs to a batch that is not closed yet, its task waits in its cell. */
  ghost predicate Awaits<T, V>(n: nat, needsDrop: bool, s: System<T, V>, b: nat, i: nat)
    requires ValidSize(n) && b < |s.queue.batches|
  {
    !s.queue.batches[b].Ended() && s.queue.batches[b].start <= i < Q.EndOf(s.queue, b) ==>
      i < Q.Total(s.queue) && Enqueued(needsDrop, s.tasks, s.links, i % n, s.queue.pushed[i])
  }

  ghost predicate CellsAwait<T, V>(n: nat, needsDrop: bool, s: System<T, V>)
    requires ValidSize(n)
  {
    && (s.queue.owner.Written? ==> Enqueued(needsDrop, s.tasks, s.links, s.queue.owner.index, s.queue.owner.task))
    && forall b: nat, i: nat :: b < |s.queue.batches| ==> Awaits(n, needsDrop, s, b, i)
  }

  ghost predicate LinksSound<T, V(!new)>(needsDrop: bool, s: System<T, V>) {
    forall cell :: 0 <= cell < |s.links| ==> Sound(needsDrop, s.links[cell])
  }

  ghost predicate Inv<T, V(!new)>(n: nat, needsDrop: bool, s: System<T, V>)
    requires ValidSize(n)
  {
    && Q.Inv(n, s.queue) && |s.tasks| == |s.links| == n
    && CellsAwait(n, needsDrop, s) && LinksSound(needsDrop, s)
  }

  /** Live batches share no cell. */
  lemma LiveCellsApart<T>(n: nat, q: Q.State<T>, b: nat, c: nat, i: nat, k: nat)
    requires ValidSize(n) && Q.Contiguous(q) && Q.Protected(n, q) && b < |q.batches| && c < |q.batches| && b != c
    requires q.batches[b].Live() && q.batches[c].Live()
    requires q.batches[b].start <= i < Q.EndOf(q, b) && q.batches[c].start <= k < Q.EndOf(q, c)
    ensures i % n != k % n
  {
    if b < c {
      StartsIncrease(q, b, c);
      DistinctCells(n, i, k);
    } else {
      StartsIncrease(q, c, b);
      DistinctCells(n, k, i);
    }
  }

  /** Nor does the owner write a cell of one. */
  lemma OwnerCellApart<T>(n: nat, q: Q.State<T>, b: nat, i: nat)
    requires ValidSize(n) && Q.Inv(n, q) && (q.owner.Ready? || q.owner.Written?)
    requires b < |q.batches| && q.batches[b].Live() && q.batches[b].start <= i < Q.EndOf(q, b)
    ensures i % n != q.owner.index
  {
    RoomToWrite(n, q, b);
    DistinctCells(n, i, Q.Total(q));
  }

  lemma InitialInv<T, V(!new)>(n: nat, needsDrop: bool)
    requires ValidSize(n)
    ensures Inv(n, needsDrop, Initial<T, V>(n))
  {
    ProtocolSteps.InitialInv<T>(n);
  }

  // ---------------------------------------------------------------- steps of the queue

  /** What is in a batch that is not closed after a step of the queue was in it before, or is just
      added; and whatever is written after the step, was before. */
  lemma OpenBatchSteps<T>(n: nat, q: Q.State<T>, a: Q.Action<T>, b: nat, i: nat)
    requires ValidSize(n) && Q.Inv(n, q) && Q.Step(n, q, a).Some? && b < |Q.Step(n, q, a).value.batches|
    requires var t := Q.Step(n, q, a).value; !t.batches[b].Ended() && t.batches[b].start <= i < Q.EndOf(t, b)
    ensures var t := Q.Step(n, q, a).value;
            && i < Q.Total(t)
            && (i < Q.Total(q) ==>
                  && t.pushed[i] == q.pushed[i] && b < |q.batches| && !q.batches[b].Ended()
                  && q.batches[b].start <= i < Q.EndOf(q, b))
            && (i >= Q.Total(q) ==>
                  q.owner.Written? && i % n == q.owner.index && t.pushed[i] == q.owner.task)
  {
    hide Q.SlotsTrack, Q.PhaseTracks, Q.GuardsTrack, Q.CellsHold, Q.Protected, Q.Cleared, Q.WordTracks, Q.SmallCounts,
      Q.CopiesCover;
  }

  lemma WrittenBefore<T>(n: nat, q: Q.State<T>, a: Q.Action<T>)
    requires ValidSize(n) && Q.Step(n, q, a).Some? && !a.Write?
    ensures Q.Step(n, q, a).value.owner.Written? ==> Q.Step(n, q, a).value.owner == q.owner
  {
  }

  lemma QueueStepAwaits<T, V>(n: nat, needsDrop: bool, s: System<T, V>, a: Q.Action<T>)
    requires ValidSize(n) && Q.Inv(n, s.queue) && CellsAwait(n, needsDrop, s)
    requires Q.Step(n, s.queue, a).Some? && !a.Write?
    ensures CellsAwait(n, needsDrop, s.(queue := Q.Step(n, s.queue, a).value))
  {
    hide Q.Inv, Enqueued, Q.Step;
    var t := s.(queue := Q.Step(n, s.queue, a).value);
    WrittenBefore(n, s.queue, a);
    forall b: nat, i: nat | b < |t.queue.batches|
      ensures Awaits(n, needsDrop, t, b, i)
    {
      if !t.queue.batches[b].Ended() && t.queue.batches[b].start <= i < Q.EndOf(t.queue, b) {
        OpenBatchSteps(n, s.queue, a, b, i);
        assert i < Q.Total(s.queue) ==> Awaits(n, needsDrop, s, b, i);
      }
    }
  }

  lemma WriteStepAwaits<T, V>(n: nat, needsDrop: bool, s: System<T, V>)
    requires ValidSize(n) && Q.Inv(n, s.queue) && |s.tasks| == |s.links| == n && CellsAwait(n, needsDrop, s)
    requires Step(n, needsDrop, s, Queue(Q.Write)).Some?
    ensures CellsAwait(n, needsDrop, Step(n, needsDrop, s, Queue(Q.Write)).value)
  {
    hide Q.Inv, Q.SmallCounts;
    var t := Step(n, needsDrop, s, Queue(Q.Write)).value;
    forall b: nat, i: nat | b < |t.queue.batches|
      ensures Awaits(n, needsDrop, t, b, i)
    {
      assert Awaits(n, needsDrop, s, b, i) && Q.EndOf(t.queue, b) == Q.EndOf(s.queue, b);
      if !s.queue.batches[b].Ended() && s.queue.batches[b].start <= i < Q.EndOf(s.queue, b) {
        OwnerCellApart(n, s.queue, b, i);
      }
    }
  }

  // ---------------------------------------------------------------- steps at the cells

  /** Whoever works on a cell of a bounded batch leaves alone what waits in the batch not closed. */
  lemma HolderStepAwaits<T, V>(n: nat, needsDrop: bool, s: System<T, V>, t: System<T, V>, c: nat, j: nat)
    requires ValidSize(n) && Q.Inv(n, s.queue) && |s.tasks| == |s.links| == n && CellsAwait(n, needsDrop, s)
    requires Holds(s.queue, c, j) && t.queue == s.queue && |t.tasks| == |t.links| == n
    requires forall cell :: 0 <= cell < n && cell != CellOf(n, s.queue, c, j) ==>
               t.tasks[cell] == s.tasks[cell] && t.links[cell] == s.links[cell]
    ensures CellsAwait(n, needsDrop, t)
  {
    hide Q.Inv, Unresolved;
    var k := s.queue.batches[c].start + j;
    InvParts(n, s.queue);
    forall b: nat, i: nat | b < |t.queue.batches|
      ensures Awaits(n, needsDrop, t, b, i)
    {
      assert Awaits(n, needsDrop, s, b, i);
      if !s.queue.batches[b].Ended() && s.queue.batches[b].start <= i < Q.EndOf(s.queue, b) {
        LiveCellsApart(n, s.queue, b, c, i, k);
      }
    }
    if s.queue.owner.Written? {
      OwnerCellApart(n, s.queue, c, k);
    }
  }

  lemma InvParts<T>(n: nat, q: Q.State<T>)
    requires ValidSize(n) && Q.Inv(n, q)
    ensures Q.Contiguous(q) && Q.Protected(n, q) && Q.SmallCounts(n, q)
  {
  }

  lemma ReceiverStepAwaits<T, V(!new)>(n: nat, needsDrop: bool, s: System<T, V>, cell: nat, link: H.State<V>)
    requires ValidSize(n) && CellsAwait(n, needsDrop, s) && cell < |s.links| && LinkKept(needsDrop, s.links[cell], link)
    ensures CellsAwait(n, needsDrop, s.(links := s.links[cell := link]))
  {
    hide Unresolved;
    var t := s.(links := s.links[cell := link]);
    forall b: nat, i: nat | b < |t.queue.batches|
      ensures Awaits(n, needsDrop, t, b, i)
    {
      assert Awaits(n, needsDrop, s, b, i);
    }
  }

  lemma StepAwaits<T, V(!new)>(n: nat, needsDrop: bool, s: System<T, V>, a: Action<T, V>)
    requires ValidSize(n) && Inv(n, needsDrop, s) && Step(n, needsDrop, s, a).Some?
    ensures CellsAwait(n, needsDrop, Step(n, needsDrop, s, a).value)
  {
    hide Q.Inv, Q.SmallCounts, Q.Step, CellsAwait, LinksSound;
    match a
    case Queue(step) =>
      if step.Write? {
        WriteStepAwaits(n, needsDrop, s);
      } else {
        QueueStepAwaits(n, needsDrop, s, step);
      }
    case Receiver(cell, act) =>
      ReceiverKeepsLink(needsDrop, s.links[cell], act);
      ReceiverStepAwaits(n, needsDrop, s, cell, H.ReceiverStep(KEPT, needsDrop, s.links[cell], act).value);
    case Take(b, j) => HolderStepAwaits(n, needsDrop, s, Step(n, needsDrop, s, a).value, b, j);
    case Resolve(b, j, _, _) => HolderStepAwaits(n, needsDrop, s, Step(n, needsDrop, s, a).value, b, j);
  }

  lemma StepSound<T, V(!new)>(n: nat, needsDrop: bool, s: System<T, V>, a: Action<T, V>)
    requires ValidSize(n) && Inv(n, needsDrop, s) && Step(n, needsDrop, s, a).Some?
    ensures LinksSound(needsDrop, Step(n, needsDrop, s, a).value)
  {
    hide Q.Inv, Q.SmallCounts, Q.Step, CellsAwait, Sound, H.Step, H.ReceiverStep;
    match a
    case Queue(step) => FreshIsSound<V>(needsDrop);
    case Receiver(cell, act) => ReceiverKeepsSound(needsDrop, s.links[cell], act);
    case Take(_, _) =>
    case Resolve(b, j, act, value) => ResolverKeepsSound(needsDrop, value, s.links[CellOf(n, s.queue, b, j)], act);
  }

  lemma FreshIsSound<V(!new)>(needsDrop: bool)
    ensures Sound(needsDrop, H.Initial<V>())
  {
  }

  /** Every step keeps the invariant: tasks wait untouched in their cells until their batch is
      closed, and no handoff goes wrong. */
  lemma StepInv<T, V(!new)>(n: nat, needsDrop: bool, s: System<T, V>, a: Action<T, V>)
    requires ValidSize(n) && Inv(n, needsDrop, s) && Step(n, needsDrop, s, a).Some?
    ensures Inv(n, needsDrop, Step(n, needsDrop, s, a).value)
  {
    hide Q.Inv, Q.Step, CellsAwait, LinksSound, H.Step, H.ReceiverStep;
    StepAwaits(n, needsDrop, s, a);
    StepSound(n, needsDrop, s, a);
    if a.Queue? {
      BoundedStepInv(n, s.queue, a.step);
    }
  }

  // ---------------------------------------------------------------- guarantees over all runs

  lemma {:induction false} RunInv<T, V(!new)>(n: nat, needsDrop: bool, s: System<T, V>, actions: seq<Action<T, V>>)
    requires ValidSize(n) && Inv(n, needsDrop, s) && Run(n, needsDrop, s, actions).Some?
    ensures Inv(n, needsDrop, Run(n, needsDrop, s, actions).value)
    decreases |actions|
  {
    hide Inv, Step;
    if actions != [] {
      StepInv(n, needsDrop, s, actions[0]);
      RunInv(n, needsDrop, Step(n, needsDrop, s, actions[0]).value, actions[1..]);
    }
  }

  /** The steps of the queue in a run of the system. */
  function QueueSteps<T, V>(actions: seq<Action<T, V>>): seq<Q.Action<T>> {
    if actions == [] then []
    else (if actions[0].Queue? then [actions[0].step] else []) + QueueSteps(actions[1..])
  }

  /** They are a run of the queue, and the bound on its counters holds throughout. */
  lemma {:induction false} RunProjects<T, V>(n: nat, needsDrop: bool, s: System<T, V>, actions: seq<Action<T, V>>)
    requires ValidSize(n) && Run(n, needsDrop, s, actions).Some? && Q.SmallCounts(n, s.queue)
    ensures Q.Run(n, s.queue, QueueSteps(actions)) == Some(Run(n, needsDrop, s, actions).value.queue)
    ensures G.StaysSmall(n, s.queue, QueueSteps(actions))
    decreases |actions|
  {
    hide Q.SmallCounts, Q.Step;
    if actions != [] {
      var a, t := actions[0], Step(n, needsDrop, s, actions[0]).value;
      StepProjects(n, needsDrop, s, a);
      RunProjects(n, needsDrop, t, actions[1..]);
      if a.Queue? {
        assert QueueSteps(actions)[0] == a.step && QueueSteps(actions)[1..] == QueueSteps(actions[1..]);
      } else {
        assert QueueSteps(actions) == QueueSteps(actions[1..]);
      }
    }
  }

  lemma StepProjects<T, V>(n: nat, needsDrop: bool, s: System<T, V>, a: Action<T, V>)
    requires ValidSize(n) && Step(n, needsDrop, s, a).Some? && Q.SmallCounts(n, s.queue)
    ensures var t := Step(n, needsDrop, s, a).value;
            && Q.SmallCounts(n, t.queue)
            && (if a.Queue? then Q.Step(n, s.queue, a.step) == Some(t.queue) else t.queue == s.queue)
  {
  }

  lemma Reaches<T, V(!new)>(n: nat, needsDrop: bool, actions: seq<Action<T, V>>, s: System<T, V>)
    requires ValidSize(n) && Run(n, needsDrop, Initial(n), actions) == Some(s)
    ensures Inv(n, needsDrop, s) && G.Reached(n, QueueSteps(actions), s.queue)
  {
    hide Inv, Run, Step, Q.SmallCounts;
    InitialInv<T, V>(n, needsDrop);
    RunInv(n, needsDrop, Initial<T, V>(n), actions);
    InitialSmall<T>(n);
    RunProjects(n, needsDrop, Initial<T, V>(n), actions);
  }

  lemma InitialSmall<T>(n: nat)
    requires ValidSize(n)
    ensures Q.SmallCounts(n, Q.Initial<T>(n))
  {
  }

  lemma WaitsAt<T, V>(n: nat, needsDrop: bool, s: System<T, V>, b: nat, j: nat)
    requires ValidSize(n) && CellsAwait(n, needsDrop, s) && b < |s.queue.batches| && !s.queue.batches[b].Ended()
    requires j < |G.Contents(s.queue, b)|
    ensures Enqueued(needsDrop, s.tasks, s.links, CellOf(n, s.queue, b, j), G.Contents(s.queue, b)[j])
  {
    hide Enqueued;
    assert Awaits(n, needsDrop, s, b, s.queue.batches[b].start + j);
  }

  /** So whatever holds of the queue in all runs holds of a task queue: its queue is reached. And in
      all runs every task of a batch not yet closed waits in its own cell with its own link, which
      nobody has begun to resolve, and no access at the links ever goes wrong. */
  lemma TasksAwaitTheirBatch<T, V(!new)>(n: nat, needsDrop: bool, actions: seq<Action<T, V>>, s: System<T, V>)
    requires ValidSize(n) && Run(n, needsDrop, Initial(n), actions) == Some(s)
    ensures G.Reached(n, QueueSteps(actions), s.queue)
    ensures forall b: nat, j: nat ::
              b < |s.queue.batches| && !s.queue.batches[b].Ended() && j < |G.Contents(s.queue, b)| ==>
              Enqueued(needsDrop, s.tasks, s.links, CellOf(n, s.queue, b, j), G.Contents(s.queue, b)[j])
    ensures forall cell :: 0 <= cell < |s.links| ==> !s.links[cell].fault
  {
    hide Enqueued, Sound, Run, Q.Inv, CellsAwait, G.Contents, CellOf;
    Reaches(n, needsDrop, actions, s);
    forall b: nat, j: nat | b < |s.queue.batches| && !s.queue.batches[b].Ended() && j < |G.Contents(s.queue, b)|
      ensures Enqueued(needsDrop, s.tasks, s.links, CellOf(n, s.queue, b, j), G.Contents(s.queue, b)[j])
    {
      WaitsAt(n, needsDrop, s, b, j);
    }
    forall cell | 0 <= cell < |s.links|
      ensures !s.links[cell].fault
    {
      SoundHasNoFault(needsDrop, s.links[cell]);
    }
  }

  // ---------------------------------------------------------------- while others are at work

  /** The holder of batch b does something. */
  predicate ByHolder<T, V>(a: Action<T, V>, b: nat) {
    match a
    case Queue(step) => step == Q.Deoccupy(b)
    case Receiver(_, _) => false
    case Take(c, _) => c == b
    case Resolve(c, _, _, _) => c == b
  }

  /** At position j of batch b nothing happens but what the receiver does. */
  ghost predicate CellKept<T, V(!new)>(n: nat, needsDrop: bool, s: System<T, V>, t: System<T, V>, b: nat, j: nat)
    requires ValidSize(n) && b < |s.queue.batches|
  {
    Holds(s.queue, b, j) ==>
      var cell := CellOf(n, s.queue, b, j);
      && cell < |s.tasks| == |t.tasks| && cell < |s.links| == |t.links|
      && t.tasks[cell] == s.tasks[cell] && LinkKept(needsDrop, s.links[cell], t.links[cell])
  }

  /** What the holder of a bounded batch can rely on as long as nobody else acts as its holder. */
  ghost predicate BatchKept<T, V(!new)>(n: nat, needsDrop: bool, s: System<T, V>, t: System<T, V>, b: nat)
    requires ValidSize(n)
  {
    b < |s.queue.batches| && s.queue.batches[b].status.Bounded? ==>
      && b < |t.queue.batches| && t.queue.batches[b] == s.queue.batches[b]
      && G.Contents(t.queue, b) == G.Contents(s.queue, b)
      && forall j: nat :: CellKept(n, needsDrop, s, t, b, j)
  }

  lemma NothingHappens<T, V(!new)>(n: nat, needsDrop: bool, s: System<T, V>, b: nat)
    requires ValidSize(n) && Inv(n, needsDrop, s)
    ensures BatchKept(n, needsDrop, s, s, b)
  {
  }

  lemma KeptOn<T, V(!new)>(n: nat, needsDrop: bool, r: System<T, V>, s: System<T, V>, t: System<T, V>, b: nat)
    requires ValidSize(n) && BatchKept(n, needsDrop, r, s, b) && BatchKept(n, needsDrop, s, t, b)
    ensures BatchKept(n, needsDrop, r, t, b)
  {
    hide LinkKept, G.Contents;
    if b < |r.queue.batches| && r.queue.batches[b].status.Bounded? {
      forall j: nat
        ensures CellKept(n, needsDrop, r, t, b, j)
      {
        assert CellKept(n, needsDrop, r, s, b, j) && CellKept(n, needsDrop, s, t, b, j);
        if Holds(r.queue, b, j) {
          var cell := CellOf(n, r.queue, b, j);
          LinkKeptOn(needsDrop, r.links[cell], s.links[cell], t.links[cell]);
        }
      }
    }
  }

  lemma LinkKeptOn<V(!new)>(needsDrop: bool, r: H.State<V>, s: H.State<V>, t: H.State<V>)
    requires LinkKept(needsDrop, r, s) && LinkKept(needsDrop, s, t)
    ensures LinkKept(needsDrop, r, t)
  {
  }

  /** Nobody else touches the cells of a bounded batch: not the owner, which may lap it only once it
      is given back, and not the holder of another batch. */
  lemma OthersKeepBatch<T, V(!new)>(n: nat, needsDrop: bool, s: System<T, V>, a: Action<T, V>, b: nat)
    requires ValidSize(n) && Inv(n, needsDrop, s) && Step(n, needsDrop, s, a).Some? && !ByHolder(a, b)
    ensures BatchKept(n, needsDrop, s, Step(n, needsDrop, s, a).value, b)
  {
    hide Q.Inv, Q.Step, CellsAwait, LinksSound, H.Step, H.ReceiverStep, Q.SmallCounts, LinkKept, G.Contents;
    if b < |s.queue.batches| && s.queue.batches[b].status.Bounded? {
      var t := Step(n, needsDrop, s, a).value;
      if a.Queue? {
        OthersKeepRange(n, s.queue, a.step, b);
      }
      forall j: nat
        ensures CellKept(n, needsDrop, s, t, b, j)
      {
        if Holds(s.queue, b, j) {
          OthersKeepCell(n, needsDrop, s, a, b, j);
        }
      }
    }
  }

  lemma OthersKeepRange<T>(n: nat, q: Q.State<T>, a: Q.Action<T>, b: nat)
    requires ValidSize(n) && Q.Inv(n, q) && Q.Step(n, q, a).Some? && a != Q.Deoccupy(b)
    requires b < |q.batches| && q.batches[b].status.Bounded?
    ensures var t := Q.Step(n, q, a).value;
            b < |t.batches| && t.batches[b] == q.batches[b] && G.Contents(t, b) == G.Contents(q, b)
  {
    G.StepKeepsClosed(n, q, a, b);
  }

  lemma CellIs<T>(n: nat, q: Q.State<T>, b: nat, j: nat)
    requires n > 0 && b < |q.batches|
    ensures CellOf(n, q, b, j) == (q.batches[b].start + j) % n < n
  {
  }

  lemma PositionsApart<T>(n: nat, q: Q.State<T>, b: nat, j: nat, c: nat, k: nat)
    requires ValidSize(n) && Q.Inv(n, q) && Holds(q, b, j) && Holds(q, c, k) && b != c
    ensures CellOf(n, q, b, j) != CellOf(n, q, c, k)
  {
    hide Q.Inv, Q.Contiguous, Q.Protected;
    InvParts(n, q);
    LiveCellsApart(n, q, b, c, q.batches[b].start + j, q.batches[c].start + k);
  }

  lemma OthersKeepCell<T, V(!new)>(n: nat, needsDrop: bool, s: System<T, V>, a: Action<T, V>, b: nat, j: nat)
    requires ValidSize(n) && Inv(n, needsDrop, s) && Step(n, needsDrop, s, a).Some? && !ByHolder(a, b)
    requires Holds(s.queue, b, j)
    ensures CellKept(n, needsDrop, s, Step(n, needsDrop, s, a).value, b, j)
  {
    hide Q.Inv, Q.Step, BoundedStep, CellsAwait, LinksSound, H.Step, H.ReceiverStep, LinkKept, CellOf;
    CellIs(n, s.queue, b, j);
    LinkKeptSame(needsDrop, s.links[CellOf(n, s.queue, b, j)]);
    match a
    case Queue(step) =>
      if step.Write? {
        OwnerCellApart(n, s.queue, b, s.queue.batches[b].start + j);
      }
    case Receiver(cell, act) => ReceiverKeepsLink(needsDrop, s.links[cell], act);
    case Take(c, k) => PositionsApart(n, s.queue, b, j, c, k);
    case Resolve(c, k, _, _) => PositionsApart(n, s.queue, b, j, c, k);
  }

  lemma LinkKeptSame<V(!new)>(needsDrop: bool, link: H.State<V>)
    ensures LinkKept(needsDrop, link, link)
  {
  }

  /** A step the owner does not take. */
  predicate ByOthers<T, V>(a: Action<T, V>) {
    a.Queue? ==> a.step.Close? || a.step.Deoccupy?
  }

  /** A retired cell stays retired until the owner writes it. */
  lemma RetiredStays<T, V(!new)>(n: nat, needsDrop: bool, s: System<T, V>, a: Action<T, V>, cell: nat)
    requires ValidSize(n) && LinksSound(needsDrop, s) && Step(n, needsDrop, s, a).Some? && ByOthers(a)
    requires cell < |s.links| && H.Retired(s.links[cell])
    ensures cell < |Step(n, needsDrop, s, a).value.links| && H.Retired(Step(n, needsDrop, s, a).value.links[cell])
  {
    hide BoundedStep, H.Step, H.ReceiverStep, Sound, H.Retired;
    match a
    case Queue(_) =>
    case Receiver(c, act) => RetiredReceiver(needsDrop, s.links[c], act);
    case Take(_, _) =>
    case Resolve(b, j, act, value) =>
      if CellOf(n, s.queue, b, j) == cell {
        RetiredResolver(needsDrop, value, s.links[cell], act);
      }
  }

  lemma RetiredReceiver<V>(needsDrop: bool, link: H.State<V>, act: H.Action)
    ensures H.Retired(link) ==> H.ReceiverStep(KEPT, needsDrop, link, act).None?
  {
  }

  /** The resolver of a dropped receiver only passes it by. */
  lemma RetiredResolver<V(!new)>(needsDrop: bool, v: V, link: H.State<V>, act: H.Action)
    requires Sound(needsDrop, link) && H.ByResolver(act) && H.Retired(link)
    requires H.Step(KEPT, needsDrop, v, link, act).Some?
    ensures H.Retired(H.Step(KEPT, needsDrop, v, link, act).value)
  {
  }
}
