/** Futures that reduce or collect over the batch their task ends up in
    (crates/stack-queue/src/task.rs). The future whose push opens a batch waits, closes the batch,
    takes its tasks and gives it back; the futures whose pushes join are done at once; one that
    finds the queue full keeps its task and tries again. */
module Collect {
  import opened Wrappers
  import opened Bits
  import opened Helpers
  import opened Ranges
  import Q = Protocol
  import opened ProtocolSteps
  import G = Guarantees

  /** How a future reads its batch: as a vector copied from slices, or through the iterator. */
  datatype Kind = Collector | Reducer

  datatype Future<+T> =
    | Unbatched(task: T)
    | Pushing
    | Collecting(batch: nat)
    | Bound(batch: nat)
    | Taken(batch: nat, tasks: seq<T>)
    | Finished(output: Option<seq<T>>)

  /** The queue, the futures, which of them pushes, and, for each batch, which one opened it. */
  datatype State<T> = State(
    queue: Q.State<T>, kinds: seq<Kind>, futures: seq<Future<T>>, poller: nat, openers: seq<nat>)

  datatype Action<+T> = Poll(f: nat) | Owner(step: Q.Action<T>) | Close(f: nat) | Take(f: nat) | Release(f: nat)

  function Initial<T>(n: nat, kinds: seq<Kind>, tasks: seq<T>): State<T>
    requires |kinds| == |tasks|
  {
    State(Q.Initial(n), kinds, seq(|tasks|, f requires 0 <= f < |tasks| => Unbatched(tasks[f])), 0, [])
  }

  predicate ByOwner<T>(a: Q.Action<T>) {
    !a.Begin? && !a.Close? && !a.Deoccupy?
  }

  function Values<T>(cells: seq<Option<T>>): seq<T> {
    if cells == [] then [] else (if cells[0].Some? then [cells[0].value] else []) + Values(cells[1..])
  }

  /** What the future gets to see of a bounded batch. */
  function ReadBatch<T>(n: nat, buffer: seq<Option<T>>, kind: Kind, lo: nat, hi: nat): seq<T>
    requires ValidSize(n) && |buffer| == n
  {
    Values(if kind.Collector? then SliceCells(n, buffer, lo, hi) else IterCells(n, buffer, lo, hi))
  }

  /** The state a future is left in when its push ends. */
  function AfterPush<T>(outcome: Q.Outcome<T>): Future<T> {
    match outcome
    case Opened(b) => Collecting(b)
    case Rejected(task) => Unbatched(task)
    case _ => Finished(None)
  }

  function Step<T>(n: nat, s: State<T>, a: Action<T>): Option<State<T>>
    requires ValidSize(n)
  {
    match a
    case Poll(f) =>
      if f < |s.futures| && s.futures[f].Unbatched? && s.queue.owner.Idle? then
        var next := BoundedStep(n, s.queue, Q.Begin(s.futures[f].task));
        if next.Some? then Some(s.(queue := next.value, futures := s.futures[f := Pushing], poller := f)) else None
      else None
    case Owner(step) =>
      var next := BoundedStep(n, s.queue, step);
      if next.Some? && ByOwner(step) && s.poller < |s.futures| then Some(AfterOwner(s, next.value)) else None
    case Close(f) =>
      if f < |s.futures| && s.futures[f].Collecting? then
        var b := s.futures[f].batch;
        var next := BoundedStep(n, s.queue, Q.Close(b));
        if next.Some? then Some(s.(queue := next.value, futures := s.futures[f := Bound(b)])) else None
      else None
    case Take(f) =>
      if f < |s.futures| && f < |s.kinds| && s.futures[f].Bound? && |s.queue.buffer| == n
         && s.futures[f].batch < |s.queue.batches| && s.queue.batches[s.futures[f].batch].status.Bounded? then
        var b := s.futures[f].batch;
        var Bounded(_, lo, hi) := s.queue.batches[b].status;
        Some(s.(futures := s.futures[f := Taken(b, ReadBatch(n, s.queue.buffer, s.kinds[f], lo, hi))]))
      else None
    case Release(f) =>
      if f < |s.futures| && s.futures[f].Taken? then
        var Taken(b, tasks) := s.futures[f];
        var next := BoundedStep(n, s.queue, Q.Deoccupy(b));
        if next.Some? then Some(s.(queue := next.value, futures := s.futures[f := Finished(Some(tasks))])) else None
      else None
  }

  /** A push in progress moves on; when it ends, its future does. */
  function AfterOwner<T>(s: State<T>, next: Q.State<T>): State<T>
    requires s.poller < |s.futures|
  {
    s.(queue := next,
       futures := if next.owner.Idle? then s.futures[s.poller := AfterPush(next.owner.last)] else s.futures,
       openers := if |next.batches| > |s.queue.batches| then s.openers + [s.poller] else s.openers)
  }

  function Run<T>(n: nat, s: State<T>, actions: seq<Action<T>>): Option<State<T>>
    requires ValidSize(n)
    decreases |actions|
  {
    if actions == [] then Some(s)
    else
      match Step(n, s, actions[0])
      case None => None
      case Some(next) => Run(n, next, actions[1..])
  }

  // ---------------------------------------------------------------- no task is lost or doubled

  /** How many of the futures still have task x. */
  ghost function Waiting<T>(futures: seq<Future<T>>, x: T): nat {
    if futures == [] then 0
    else
      var last := |futures| - 1;
      Waiting(futures[..last], x) + Has(futures[last], x)
  }

  ghost function Has<T>(future: Future<T>, x: T): nat {
    if future.Unbatched? && future.task == x then 1 else 0
  }

  ghost function InHand<T>(owner: Q.Owner<T>, x: T): nat {
    if (owner.Contended? || owner.Loaded? || owner.Ready? || owner.Written?) && owner.task == x then 1 else 0
  }

  /** Occurrences of x among the pushed tasks, the one being pushed and those still with their
      futures. */
  ghost function Occurrences<T>(s: State<T>, x: T): nat {
    multiset(s.queue.pushed)[x] + InHand(s.queue.owner, x) + Waiting(s.futures, x)
  }

  lemma {:induction false} WaitingReplaced<T>(futures: seq<Future<T>>, f: nat, future: Future<T>, x: T)
    requires f < |futures|
    ensures Waiting(futures[f := future], x) + Has(futures[f], x) == Waiting(futures, x) + Has(future, x)
  {
    var last := |futures| - 1;
    if f == last {
      assert futures[f := future][..last] == futures[..last];
    } else {
      assert futures[f := future][..last] == futures[..last][f := future];
      WaitingReplaced(futures[..last], f, future, x);
    }
  }

  lemma {:induction false} WaitingAtFirst<T>(tasks: seq<T>, x: T)
    ensures Waiting(seq(|tasks|, f requires 0 <= f < |tasks| => Unbatched(tasks[f])), x) == multiset(tasks)[x]
  {
    var futures := seq(|tasks|, f requires 0 <= f < |tasks| => Unbatched(tasks[f]));
    if tasks != [] {
      var init := tasks[..|tasks| - 1];
      assert futures[..|tasks| - 1] == seq(|init|, f requires 0 <= f < |init| => Unbatched(init[f]));
      WaitingAtFirst(init, x);
      assert tasks == init + [tasks[|tasks| - 1]];
    }
  }

  lemma {:induction false} NobodyWaits<T>(futures: seq<Future<T>>, x: T)
    requires forall f :: 0 <= f < |futures| ==> !futures[f].Unbatched?
    ensures Waiting(futures, x) == 0
  {
    if futures != [] {
      NobodyWaits(futures[..|futures| - 1], x);
    }
  }

  /** The futures and the queue agree on who is pushing. */
  ghost predicate PollerTracks<T>(s: State<T>) {
    && (!s.queue.owner.Idle? ==> s.poller < |s.futures| && s.futures[s.poller].Pushing?)
    && (forall f :: 0 <= f < |s.futures| && s.futures[f].Pushing? ==> f == s.poller && !s.queue.owner.Idle?)
  }

  /** One future changes; what it loses is in the owner's hand, or the other way round. */
  lemma FutureMoves<T>(s: State<T>, t: State<T>, f: nat, future: Future<T>, x: T)
    requires f < |s.futures| && t.futures == s.futures[f := future] && t.queue.pushed == s.queue.pushed
    requires Has(s.futures[f], x) + InHand(s.queue.owner, x) == Has(future, x) + InHand(t.queue.owner, x)
    ensures Occurrences(t, x) == Occurrences(s, x)
  {
    WaitingReplaced(s.futures, f, future, x);
  }

  lemma OwnerConserves<T>(n: nat, s: State<T>, a: Q.Action<T>, x: T)
    requires ValidSize(n) && PollerTracks(s) && Step(n, s, Owner(a)).Some?
    ensures Occurrences(Step(n, s, Owner(a)).value, x) == Occurrences(s, x)
  {
    hide Q.SmallCounts, Occurrences, Q.Step;
    var t := Step(n, s, Owner(a)).value;
    PushMovesOn(n, s.queue, a, x);
    if t.queue.owner.Idle? {
      FutureMoves(s, t, s.poller, AfterPush(t.queue.owner.last), x);
    } else {
      SameFutures(s, t, x);
    }
  }

  lemma SameFutures<T>(s: State<T>, t: State<T>, x: T)
    requires t.futures == s.futures
    requires multiset(t.queue.pushed)[x] + InHand(t.queue.owner, x) ==
             multiset(s.queue.pushed)[x] + InHand(s.queue.owner, x)
    ensures Occurrences(t, x) == Occurrences(s, x)
  {
  }

  lemma PushMovesOn<T>(n: nat, q: Q.State<T>, a: Q.Action<T>, x: T)
    requires ValidSize(n) && Q.Step(n, q, a).Some? && ByOwner(a)
    ensures var t := Q.Step(n, q, a).value;
            && !q.owner.Idle?
            && (t.owner.Idle? ==>
                  && t.pushed == q.pushed
                  && InHand(q.owner, x) == Has(AfterPush(t.owner.last), x) + InHand(t.owner, x))
            && (!t.owner.Idle? ==>
                  multiset(t.pushed)[x] + InHand(t.owner, x) == multiset(q.pushed)[x] + InHand(q.owner, x))
  {
    if a.AddSlot? {
      assert multiset(q.pushed + [q.owner.task]) == multiset(q.pushed) + multiset{q.owner.task};
    }
  }

  /** Rejected tasks go back to their future, accepted ones are pushed: no step loses or doubles
      a task. */
  lemma StepConserves<T>(n: nat, s: State<T>, a: Action<T>, x: T)
    requires ValidSize(n) && PollerTracks(s) && Step(n, s, a).Some?
    ensures Occurrences(Step(n, s, a).value, x) == Occurrences(s, x)
  {
    hide Q.SmallCounts, Occurrences;
    var t := Step(n, s, a).value;
    match a
    case Poll(f) => FutureMoves(s, t, f, t.futures[f], x);
    case Owner(step) => OwnerConserves(n, s, step, x);
    case Close(f) => FutureMoves(s, t, f, t.futures[f], x);
    case Take(f) => FutureMoves(s, t, f, t.futures[f], x);
    case Release(f) => FutureMoves(s, t, f, t.futures[f], x);
  }

  // ---------------------------------------------------------------- every batch has its future

  /** The future sees the whole batch: through slices always, through the iterator unless the batch
      straddles the wrap of the 32-bit counter. */
  predicate SeesAll(kind: Kind, start: nat, end: nat) {
    kind.Collector? || WithinLap(start, end)
  }

  /** What a future gets of batch b: its contents, or nothing. */
  ghost function Seen<T>(s: State<T>, b: nat): seq<T>
    requires b < |s.queue.batches| && b < |s.openers| && s.openers[b] < |s.kinds|
  {
    if SeesAll(s.kinds[s.openers[b]], s.queue.batches[b].start, Q.EndOf(s.queue, b)) then G.Contents(s.queue, b) else []
  }

  /** The future that opened batch b is as far as the batch is. */
  ghost predicate BatchTracks<T>(s: State<T>, b: nat)
    requires b < |s.queue.batches| && b < |s.openers|
  {
    var f := s.openers[b];
    && f < |s.futures| && f < |s.kinds|
    && match s.queue.batches[b].status
       case Forming => f == s.poller && s.futures[f].Pushing?
       case Counted => f == s.poller && s.futures[f].Pushing?
       case Open => s.futures[f] == Collecting(b)
       case Bounded(_, _, _) =>
         || s.futures[f] == Bound(b)
         || (s.futures[f].Taken? && s.futures[f].batch == b && s.futures[f].tasks == Seen(s, b))
       case Released(_) =>
         s.futures[f].Finished? && s.futures[f].output == Some(Seen(s, b))
  }

  /** A future that deals with a batch, or returned one, is the one that opened it. */
  ghost predicate FutureTracks<T>(s: State<T>, f: nat)
    requires f < |s.futures|
  {
    match s.futures[f]
    case Collecting(b) => b < |s.openers| && s.openers[b] == f
    case Bound(b) => b < |s.openers| && s.openers[b] == f
    case Taken(b, _) => b < |s.openers| && s.openers[b] == f
    case Finished(Some(_)) => exists b :: 0 <= b < |s.openers| && s.openers[b] == f
    case _ => true
  }

  ghost predicate Links<T>(s: State<T>) {
    && |s.kinds| == |s.futures| && |s.openers| == |s.queue.batches|
    && PollerTracks(s)
    && (forall b, c :: 0 <= b < c < |s.openers| ==> s.openers[b] != s.openers[c])
    && (forall b: nat :: b < |s.openers| ==> BatchTracks(s, b))
    && (forall f: nat :: f < |s.futures| ==> FutureTracks(s, f))
  }

  ghost predicate Inv<T>(n: nat, s: State<T>)
    requires ValidSize(n)
  {
    Q.Inv(n, s.queue) && Links(s)
  }

  /** No batch is between its opening and the hand-over of its guard. */
  ghost predicate NoneOpening<T>(q: Q.State<T>) {
    forall b :: 0 <= b < |q.batches| ==> !q.batches[b].status.Forming? && !q.batches[b].status.Counted?
  }

  /** The same batches with the same openers, and futures that changed only where stated. */
  lemma LinksKept<T>(s: State<T>, t: State<T>, f: nat)
    requires Links(s) && t.kinds == s.kinds && t.openers == s.openers && f < |s.futures|
    requires |t.futures| == |s.futures| && |t.queue.batches| == |s.queue.batches| && PollerTracks(t)
    requires forall g :: 0 <= g < |s.futures| && g != f ==> t.futures[g] == s.futures[g]
    requires forall b :: 0 <= b < |s.openers| && s.openers[b] != f ==> t.queue.batches[b] == s.queue.batches[b]
    requires forall b :: 0 <= b < |s.openers| && s.queue.batches[b].Ended() ==>
               t.queue.batches[b].start == s.queue.batches[b].start
               && Q.EndOf(t.queue, b) == Q.EndOf(s.queue, b) && G.Contents(t.queue, b) == G.Contents(s.queue, b)
    requires t.poller == s.poller || NoneOpening(s.queue)
    requires forall b: nat :: b < |s.openers| && s.openers[b] == f ==> BatchTracks(t, b)
    requires FutureTracks(t, f)
    ensures Links(t)
  {
    forall b: nat | b < |t.openers| && t.openers[b] != f
      ensures BatchTracks(t, b)
    {
      assert BatchTracks(s, b);
    }
    forall g: nat | g < |t.futures| && g != f
      ensures FutureTracks(t, g)
    {
      assert FutureTracks(s, g);
    }
  }

  /** Closed batches stay as they are, whatever step the queue takes. */
  lemma ClosedKept<T>(n: nat, q: Q.State<T>, a: Q.Action<T>)
    requires ValidSize(n) && Q.Inv(n, q) && Q.Step(n, q, a).Some?
    ensures var t := Q.Step(n, q, a).value;
            && |t.batches| >= |q.batches|
            && forall b :: 0 <= b < |q.batches| && q.batches[b].Ended() ==>
                 t.batches[b].start == q.batches[b].start
                 && Q.EndOf(t, b) == Q.EndOf(q, b) && G.Contents(t, b) == G.Contents(q, b)
  {
    forall b: nat | b < |q.batches| && q.batches[b].Ended()
      ensures G.SameBatch(q, Q.Step(n, q, a).value, b)
    {
      G.StepKeepsClosed(n, q, a, b);
    }
  }

  /** A future that has not pushed yet, or is at it without having opened, opened no batch. */
  lemma NotAnOpener<T>(s: State<T>, f: nat)
    requires Links(s) && f < |s.futures|
    requires s.futures[f].Unbatched? || (s.futures[f].Pushing? && NoneOpening(s.queue))
    ensures forall b: nat :: b < |s.openers| ==> s.openers[b] != f
  {
    forall b: nat | b < |s.openers|
      ensures s.openers[b] != f
    {
      assert BatchTracks(s, b);
    }
  }

  lemma PollLinks<T>(n: nat, s: State<T>, f: nat)
    requires ValidSize(n) && Inv(n, s) && Step(n, s, Poll(f)).Some?
    ensures Links(Step(n, s, Poll(f)).value)
  {
    hide Q.SmallCounts, G.Contents;
    var t := Step(n, s, Poll(f)).value;
    ClosedKept(n, s.queue, Q.Begin(s.futures[f].task));
    NotAnOpener(s, f);
    LinksKept(s, t, f);
  }

  lemma CloseLinks<T>(n: nat, s: State<T>, f: nat)
    requires ValidSize(n) && Inv(n, s) && Step(n, s, Close(f)).Some?
    ensures Links(Step(n, s, Close(f)).value)
  {
    hide Q.Inv, Q.SmallCounts, G.Contents;
    var t, b := Step(n, s, Close(f)).value, s.futures[f].batch;
    ClosedKept(n, s.queue, Q.Close(b));
    assert FutureTracks(s, f) && BatchTracks(s, b);
    LinksKept(s, t, f);
  }

  lemma ReleaseLinks<T>(n: nat, s: State<T>, f: nat)
    requires ValidSize(n) && Inv(n, s) && Step(n, s, Release(f)).Some?
    ensures Links(Step(n, s, Release(f)).value)
  {
    hide Q.Inv, Q.SmallCounts, G.Contents;
    var t, b := Step(n, s, Release(f)).value, s.futures[f].batch;
    ClosedKept(n, s.queue, Q.Deoccupy(b));
    assert FutureTracks(s, f) && BatchTracks(s, b);
    LinksKept(s, t, f);
  }

  /** Reading the cells of a bounded batch yields its tasks, or nothing where the iterator misses
      the batch. */
  lemma ReadsContents<T>(n: nat, q: Q.State<T>, kind: Kind, b: nat)
    requires ValidSize(n) && Q.Inv(n, q) && b < |q.batches| && q.batches[b].status.Bounded?
    ensures ReadBatch(n, q.buffer, kind, q.batches[b].status.lo, q.batches[b].status.hi)
            == if SeesAll(kind, q.batches[b].start, Q.EndOf(q, b)) then G.Contents(q, b) else []
  {
    hide Q.Inv, SliceCells, IterCells, Values, RangeCells, G.Contents, WithinLap;
    var start, end := q.batches[b].start, q.batches[b].status.end;
    CellsOfBatch(n, q, b);
    if kind.Collector? {
      SlicesAreTheRange(n, q.buffer, start, end);
    } else {
      IterOfRange(n, q.buffer, start, end);
      NoValues<T>();
    }
  }

  lemma CellsOfBatch<T>(n: nat, q: Q.State<T>, b: nat)
    requires ValidSize(n) && Q.Inv(n, q) && b < |q.batches| && q.batches[b].status.Bounded?
    ensures |q.buffer| == n && 1 <= q.batches[b].status.end - q.batches[b].start <= n
    ensures q.batches[b].status.lo == q.batches[b].start % COUNTER
    ensures q.batches[b].status.hi == q.batches[b].status.end % COUNTER
    ensures Values(RangeCells(n, q.buffer, q.batches[b].start, q.batches[b].status.end)) == G.Contents(q, b)
  {
    var start, end := q.batches[b].start, q.batches[b].status.end;
    assert 1 <= end - start <= n;
    var cells := RangeCells(n, q.buffer, start, end);
    forall k | 0 <= k < end - start
      ensures cells[k] == Some(G.Contents(q, b)[k])
    {
      G.CellOfContents(n, q, b, k);
    }
    ValuesOf(cells, G.Contents(q, b));
  }

  lemma NoValues<T>()
    ensures Values<T>([]) == []
  {
  }

  lemma {:induction false} ValuesOf<T>(cells: seq<Option<T>>, tasks: seq<T>)
    requires |cells| == |tasks| && forall k :: 0 <= k < |cells| ==> cells[k] == Some(tasks[k])
    ensures Values(cells) == tasks
  {
    if cells != [] {
      ValuesOf(cells[1..], tasks[1..]);
    }
  }

  lemma TakeLinks<T>(n: nat, s: State<T>, f: nat)
    requires ValidSize(n) && Inv(n, s) && Step(n, s, Take(f)).Some?
    ensures Links(Step(n, s, Take(f)).value)
  {
    hide Q.Inv, Q.SmallCounts, G.Contents;
    var t, b := Step(n, s, Take(f)).value, s.futures[f].batch;
    assert FutureTracks(s, f) && BatchTracks(s, b);
    ReadsContents(n, s.queue, s.kinds[f], b);
    LinksKept(s, t, f);
  }

  /** A push that goes on, without opening a batch now. */
  lemma GoesOnLinks<T>(n: nat, s: State<T>, a: Q.Action<T>)
    requires ValidSize(n) && Inv(n, s) && Step(n, s, Owner(a)).Some?
    requires var next := Q.Step(n, s.queue, a).value;
             !next.owner.Idle? && |next.batches| == |s.queue.batches|
    ensures Links(Step(n, s, Owner(a)).value)
  {
    hide Q.Inv, Q.SmallCounts, G.Contents;
    var t := Step(n, s, Owner(a)).value;
    ClosedKept(n, s.queue, a);
    NotIdle(n, s.queue, a);
    forall b: nat | b < |s.openers| && s.openers[b] == s.poller
      ensures BatchTracks(t, b)
    {
      assert BatchTracks(s, b);
    }
    forall b: nat | b < |s.openers| && s.openers[b] != s.poller
      ensures t.queue.batches[b] == s.queue.batches[b]
    {
      assert BatchTracks(s, b);
      OthersUntouched(n, s.queue, a, b);
    }
    LinksKept(s, t, s.poller);
  }

  lemma NotIdle<T>(n: nat, q: Q.State<T>, a: Q.Action<T>)
    requires ValidSize(n) && Q.Step(n, q, a).Some? && ByOwner(a)
    ensures !q.owner.Idle?
  {
  }

  /** The owner's steps change no status but that of the batch being opened. */
  lemma OthersUntouched<T>(n: nat, q: Q.State<T>, a: Q.Action<T>, b: nat)
    requires ValidSize(n) && Q.Inv(n, q) && Q.Step(n, q, a).Some? && ByOwner(a) && b < |q.batches|
    requires !q.batches[b].status.Forming? && !q.batches[b].status.Counted?
    ensures b < |Q.Step(n, q, a).value.batches| && Q.Step(n, q, a).value.batches[b] == q.batches[b]
  {
  }

  /** A push that opens a batch. */
  lemma OpensLinks<T>(n: nat, s: State<T>, a: Q.Action<T>)
    requires ValidSize(n) && Inv(n, s) && Step(n, s, Owner(a)).Some?
    requires |Q.Step(n, s.queue, a).value.batches| > |s.queue.batches|
    ensures Links(Step(n, s, Owner(a)).value)
  {
    hide Q.Inv, Q.SmallCounts, G.Contents;
    var t, last := Step(n, s, Owner(a)).value, |s.openers|;
    ClosedKept(n, s.queue, a);
    Opening(n, s.queue, a);
    NotAnOpener(s, s.poller);
    forall b: nat | b < |t.openers|
      ensures BatchTracks(t, b)
    {
      if b < last {
        assert BatchTracks(s, b);
      }
    }
    forall g: nat | g < |t.futures|
      ensures FutureTracks(t, g)
    {
      assert FutureTracks(s, g);
      if t.futures[g].Finished? && t.futures[g].output.Some? {
        var b :| 0 <= b < |s.openers| && s.openers[b] == g;
        assert t.openers[b] == g;
      }
    }
  }

  lemma Opening<T>(n: nat, q: Q.State<T>, a: Q.Action<T>)
    requires ValidSize(n) && Q.Inv(n, q) && Q.Step(n, q, a).Some? && ByOwner(a)
    requires |Q.Step(n, q, a).value.batches| > |q.batches|
    ensures var t := Q.Step(n, q, a).value;
            && NoneOpening(q) && !q.owner.Idle? && t.owner.Added?
            && t.batches == q.batches + [Q.Batch(Q.Total(q), q.slot, Q.Forming)]
  {
  }

  /** A push that comes to its end. */
  lemma EndsLinks<T>(n: nat, s: State<T>, a: Q.Action<T>)
    requires ValidSize(n) && Inv(n, s) && Step(n, s, Owner(a)).Some?
    requires Q.Step(n, s.queue, a).value.owner.Idle?
    ensures Links(Step(n, s, Owner(a)).value)
  {
    hide Q.Inv, Q.SmallCounts, G.Contents;
    var t := Step(n, s, Owner(a)).value;
    ClosedKept(n, s.queue, a);
    Ending(n, s.queue, a);
    if t.queue.owner.last.Opened? {
      assert BatchTracks(s, t.queue.owner.last.batch);
    } else {
      NotAnOpener(s, s.poller);
    }
    LinksKept(s, t, s.poller);
  }

  lemma Ending<T>(n: nat, q: Q.State<T>, a: Q.Action<T>)
    requires ValidSize(n) && Q.Inv(n, q) && Q.Step(n, q, a).Some? && ByOwner(a)
    requires Q.Step(n, q, a).value.owner.Idle?
    ensures var t := Q.Step(n, q, a).value;
            && !q.owner.Idle? && |t.batches| == |q.batches| && NoneOpening(t)
            && (forall b :: 0 <= b < |q.batches| - 1 ==> t.batches[b] == q.batches[b])
            && (t.owner.last.Opened? ==>
                  && t.owner.last.batch == |q.batches| - 1 && q.batches != []
                  && q.batches[|q.batches| - 1].status.Counted? && t.batches[|q.batches| - 1].status.Open?)
            && (!t.owner.last.Opened? ==> t.batches == q.batches && t.owner.last != Q.Nothing)
  {
    if a.ReplaceSlot? {
      XorLowBit(q.owner.base, q.localSlot);
    }
  }

  lemma StepInv<T>(n: nat, s: State<T>, a: Action<T>)
    requires ValidSize(n) && Inv(n, s) && Step(n, s, a).Some?
    ensures Inv(n, Step(n, s, a).value)
  {
    hide Q.Inv, Links;
    match a
    case Poll(f) => PollLinks(n, s, f); BoundedStepInv(n, s.queue, Q.Begin(s.futures[f].task));
    case Owner(step) =>
      BoundedStepInv(n, s.queue, step);
      OwnerLinks(n, s, step);
    case Close(f) => CloseLinks(n, s, f); BoundedStepInv(n, s.queue, Q.Close(s.futures[f].batch));
    case Take(f) => TakeLinks(n, s, f);
    case Release(f) => ReleaseLinks(n, s, f); BoundedStepInv(n, s.queue, Q.Deoccupy(s.futures[f].batch));
  }

  lemma OwnerLinks<T>(n: nat, s: State<T>, a: Q.Action<T>)
    requires ValidSize(n) && Inv(n, s) && Step(n, s, Owner(a)).Some?
    ensures Links(Step(n, s, Owner(a)).value)
  {
    hide Q.Inv, Links;
    var next := Q.Step(n, s.queue, a).value;
    ClosedKept(n, s.queue, a);
    if next.owner.Idle? {
      EndsLinks(n, s, a);
    } else if |next.batches| > |s.queue.batches| {
      OpensLinks(n, s, a);
    } else {
      GoesOnLinks(n, s, a);
    }
  }

  lemma InitialInv<T>(n: nat, kinds: seq<Kind>, tasks: seq<T>)
    requires ValidSize(n) && |kinds| == |tasks|
    ensures Inv(n, Initial(n, kinds, tasks))
  {
    ProtocolSteps.InitialInv<T>(n);
  }

  lemma {:induction false} RunInv<T>(n: nat, s: State<T>, actions: seq<Action<T>>)
    requires ValidSize(n) && Inv(n, s) && Run(n, s, actions).Some?
    ensures Inv(n, Run(n, s, actions).value)
    ensures Run(n, s, actions).value.kinds == s.kinds && |Run(n, s, actions).value.futures| == |s.futures|
    decreases |actions|
  {
    hide Q.Inv, Links;
    if actions != [] {
      StepInv(n, s, actions[0]);
      RunInv(n, Step(n, s, actions[0]).value, actions[1..]);
    }
  }

  lemma {:induction false} RunConserves<T>(n: nat, s: State<T>, actions: seq<Action<T>>, x: T)
    requires ValidSize(n) && Inv(n, s) && Run(n, s, actions).Some?
    ensures Occurrences(Run(n, s, actions).value, x) == Occurrences(s, x)
    decreases |actions|
  {
    hide Q.Inv, Occurrences;
    if actions != [] {
      StepInv(n, s, actions[0]);
      StepConserves(n, s, actions[0], x);
      RunConserves(n, Step(n, s, actions[0]).value, actions[1..], x);
    }
  }

  // ---------------------------------------------------------------- what a completed run delivers

  /** What the futures returned for the first k batches, one after another. */
  ghost function Outputs<T>(s: State<T>, k: nat): seq<T>
    requires k <= |s.openers| && forall b :: 0 <= b < k ==> s.openers[b] < |s.futures|
  {
    if k == 0 then []
    else
      var future := s.futures[s.openers[k - 1]];
      Outputs(s, k - 1) + (if future.Finished? && future.output.Some? then future.output.value else [])
  }

  ghost predicate AllFinished<T>(s: State<T>) {
    forall f :: 0 <= f < |s.futures| ==> s.futures[f].Finished?
  }

  /** No batch that straddles the counter's wrap was read through the iterator. */
  ghost predicate AllSeen<T>(s: State<T>)
    requires |s.kinds| == |s.futures| && |s.openers| == |s.queue.batches|
  {
    forall b :: 0 <= b < |s.openers| && s.openers[b] < |s.kinds| ==>
      SeesAll(s.kinds[s.openers[b]], s.queue.batches[b].start, Q.EndOf(s.queue, b))
  }

  lemma OutputOfBatch<T>(s: State<T>, b: nat)
    requires Links(s) && AllFinished(s) && b < |s.openers|
    ensures s.openers[b] < |s.futures| == |s.kinds|
    ensures s.futures[s.openers[b]].Finished? && s.futures[s.openers[b]].output == Some(Seen(s, b))
  {
    assert BatchTracks(s, b);
  }

  /** The outputs of the first k batches are their tasks, or fewer, as soon as one was missed. */
  lemma {:induction false} OutputsAreDelivered<T>(s: State<T>, k: nat)
    requires Links(s) && AllFinished(s) && k <= |s.openers|
    requires forall b: nat :: b < |s.openers| ==> s.openers[b] < |s.futures| && G.Contents(s.queue, b) != []
    ensures if forall b: nat :: b < k ==> Seen(s, b) == G.Contents(s.queue, b)
            then Outputs(s, k) == G.Delivered(s.queue, k)
            else |Outputs(s, k)| < |G.Delivered(s.queue, k)|
  {
    hide BatchTracks, FutureTracks, PollerTracks, G.Contents, SeesAll, Q.EndOf;
    if k > 0 {
      OutputsAreDelivered(s, k - 1);
      OutputOfBatch(s, k - 1);
    }
  }

  /** Once every future is done: exactly one future for each batch returned it, every other one
      returned nothing; what they returned, batch after batch, is the sequence of all pushes if and
      only if the iterator missed no batch; and the pushes are the futures' tasks, none lost, none
      doubled, rejected ones pushed later. */
  lemma CompletedRunsDeliverEverything<T>(n: nat, kinds: seq<Kind>, tasks: seq<T>, actions: seq<Action<T>>, s: State<T>)
    requires ValidSize(n) && |kinds| == |tasks| && Run(n, Initial(n, kinds, tasks), actions) == Some(s)
    requires AllFinished(s)
    ensures |s.kinds| == |s.futures| == |tasks| && |s.openers| == |s.queue.batches|
    ensures forall b :: 0 <= b < |s.openers| ==> s.openers[b] < |tasks| && s.futures[s.openers[b]].output.Some?
    ensures forall b, c :: 0 <= b < c < |s.openers| ==> s.openers[b] != s.openers[c]
    ensures forall f :: 0 <= f < |tasks| && s.futures[f].output.Some? ==> f in s.openers
    ensures multiset(s.queue.pushed) == multiset(tasks)
    ensures AllSeen(s) <==> Outputs(s, |s.openers|) == s.queue.pushed
  {
    hide Q.Inv, Links, G.Delivered;
    InitialInv(n, kinds, tasks);
    RunInv(n, Initial(n, kinds, tasks), actions);
    forall x
      ensures multiset(s.queue.pushed)[x] == multiset(tasks)[x]
    {
      Accounted(n, kinds, tasks, actions, s, x);
    }
    EveryBatchReturned(n, s);
    EverythingSeen(n, s);
  }

  lemma EverythingSeen<T>(n: nat, s: State<T>)
    requires ValidSize(n) && Inv(n, s) && AllFinished(s) && |s.kinds| == |s.futures| && |s.openers| == |s.queue.batches|
    requires forall b :: 0 <= b < |s.openers| ==> s.openers[b] < |s.futures|
    ensures AllSeen(s) <==> Outputs(s, |s.openers|) == s.queue.pushed
  {
    hide Q.Inv, Links, G.Delivered, G.Contents, SeesAll, Q.EndOf, Outputs;
    PushesDelivered(n, s.queue);
    OutputsAreDelivered(s, |s.openers|);
    assert AllSeen(s) <==> forall b: nat :: b < |s.openers| ==> Seen(s, b) == G.Contents(s.queue, b);
  }

  lemma PushesDelivered<T>(n: nat, q: Q.State<T>)
    requires ValidSize(n) && Q.Inv(n, q)
    ensures G.Delivered(q, |q.batches|) == q.pushed
    ensures forall b :: 0 <= b < |q.batches| ==> G.Contents(q, b) != []
  {
    G.DeliveredAll(q);
  }

  lemma Accounted<T>(n: nat, kinds: seq<Kind>, tasks: seq<T>, actions: seq<Action<T>>, s: State<T>, x: T)
    requires ValidSize(n) && |kinds| == |tasks| && Run(n, Initial(n, kinds, tasks), actions) == Some(s)
    requires AllFinished(s) && Inv(n, s)
    ensures multiset(s.queue.pushed)[x] == multiset(tasks)[x]
  {
    hide Q.Inv;
    InitialInv(n, kinds, tasks);
    RunConserves(n, Initial(n, kinds, tasks), actions, x);
    WaitingAtFirst(tasks, x);
    NobodyWaits(s.futures, x);
    assert s.queue.owner.Idle?;
  }

  lemma EveryBatchReturned<T>(n: nat, s: State<T>)
    requires ValidSize(n) && Inv(n, s) && AllFinished(s)
    ensures |s.openers| == |s.queue.batches| && |s.kinds| == |s.futures|
    ensures forall b, c :: 0 <= b < c < |s.openers| ==> s.openers[b] != s.openers[c]
    ensures forall b :: 0 <= b < |s.openers| ==> s.openers[b] < |s.futures| && s.futures[s.openers[b]].output.Some?
    ensures forall f :: 0 <= f < |s.futures| && s.futures[f].output.Some? ==> f in s.openers
  {
    hide Q.Inv;
    forall b: nat | b < |s.openers|
      ensures s.openers[b] < |s.futures| && s.futures[s.openers[b]].output.Some?
    {
      assert BatchTracks(s, b);
    }
    forall f: nat | f < |s.futures| && s.futures[f].output.Some?
      ensures f in s.openers
    {
      assert FutureTracks(s, f);
    }
  }
}
