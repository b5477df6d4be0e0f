/** Futures that find the queue full leave their waker behind and are woken when the last batch
    is given back (crates/stack-queue/src/queue.rs, crates/stack-queue/src/task.rs). The protocol
    of the queue is extended by the pending wakers, the drains in progress and the futures that
    were woken and have not yet got a task in or left their waker again. */
module Parking {
  import opened Wrappers
  import opened Bits
  import opened Helpers
  import opened Occupancy
  import Q = Protocol
  import opened ProtocolSteps
  import Overflow

  type Future = nat

  /** What the surroundings promise. `atomic`: the failed check and the pushing of the waker are
      one step. `pollOnlyWhenWoken`: a future whose waker is pending is not polled before that
      waker was taken. `neverDropped`: a future is not dropped before its task is in. */
  datatype Policy = Policy(atomic: bool, pollOnlyWhenWoken: bool, neverDropped: bool)

  /** The queue; the pending wakers, oldest first; how many each drain may still take; the futures
      that have been woken, or are being polled, and will go on; those that will not poll again,
      because their task is in or they were dropped; and whose push is not decided yet. */
  datatype State<T> = State(
    queue: Q.State<T>, pending: seq<Future>, drains: seq<nat>, awake: set<Future>, over: set<Future>,
    poller: Option<Future>)

  datatype Action<+T> =
    | Poll(future: Future, task: T)
    | Owner(step: Q.Action<T>)
    | Park
    | Processor(step: Q.Action<T>)
    | DrainOne(drain: nat)
    | DropFuture(future: Future)

  function Initial<T>(n: nat): State<T> {
    State(Q.Initial(n), [], [], {}, {}, None)
  }

  predicate ByOwner<T>(a: Q.Action<T>) {
    !a.Begin? && !a.Close? && !a.Deoccupy?
  }

  /** The owner finds at its atomic load that the region is occupied. */
  predicate FindsFull<T>(n: nat, q: Q.State<T>)
    requires ValidSize(n)
  {
    q.owner.Contended? && And(q.occupancy, RegionMask(n, q.owner.index)) != 0
  }

  /** A step. With `atomic` a failing check parks the future at once; without, the waker is
      pushed some time after. */
  function Step<T>(n: nat, policy: Policy, s: State<T>, a: Action<T>): Option<State<T>>
    requires ValidSize(n)
  {
    match a
    case Poll(f, task) =>
      var next := BoundedStep(n, s.queue, Q.Begin(task));
      if next.None? || s.poller.Some? || f in s.over || (policy.pollOnlyWhenWoken && f in s.pending) then None
      else Some(s.(queue := next.value, poller := Some(f), awake := s.awake + {f}))
    case Owner(step) =>
      var next := BoundedStep(n, s.queue, step);
      if next.None? || !ByOwner(step) then None
      else Some(AfterOwner(n, policy, s, step, next.value))
    case Park =>
      if s.poller.None? || !s.queue.owner.Idle? then None
      else Some(Parked(s))
    case Processor(step) =>
      var next := BoundedStep(n, s.queue, step);
      if next.None? || !(step.Close? || step.Deoccupy?) then None
      else Some(s.(queue := next.value,
                   drains := if step.Deoccupy? && next.value.occupancy == 0
                             then s.drains + [RegionSize(n)] else s.drains))
    case DrainOne(d) =>
      if d >= |s.drains| then None
      else if s.drains[d] == 0 || s.pending == [] then Some(s.(drains := s.drains[..d] + s.drains[d + 1..]))
      else Some(s.(drains := s.drains[d := s.drains[d] - 1], pending := s.pending[1..],
                   awake := if s.pending[0] in s.over then s.awake else s.awake + {s.pending[0]}))
    case DropFuture(f) =>
      if policy.neverDropped || s.poller == Some(f) then None
      else Some(s.(over := s.over + {f}, awake := s.awake - {f}))
  }

  function Parked<T>(s: State<T>): State<T>
    requires s.poller.Some?
  {
    var f := s.poller.value;
    s.(poller := None, pending := s.pending + [f], awake := s.awake - {f})
  }

  /** The polled future is through once its task is counted with a batch; it is refused, and with
      `atomic` parked, when the load shows the region occupied. */
  function AfterOwner<T>(n: nat, policy: Policy, s: State<T>, step: Q.Action<T>, next: Q.State<T>): State<T>
    requires ValidSize(n)
  {
    if s.poller.None? then s.(queue := next)
    else if step.Load? && FindsFull(n, s.queue) && policy.atomic then Parked(s.(queue := next))
    else if (step.AddSlot? && next.batches == s.queue.batches) || step.Occupy? then
      var f := s.poller.value;
      s.(queue := next, poller := None, awake := s.awake - {f}, over := s.over + {f})
    else s.(queue := next)
  }

  function Run<T>(n: nat, policy: Policy, s: State<T>, actions: seq<Action<T>>): Option<State<T>>
    requires ValidSize(n)
    decreases |actions|
  {
    if actions == [] then Some(s)
    else
      match Step(n, policy, s, actions[0])
      case None => None
      case Some(next) => Run(n, policy, next, actions[1..])
  }

  /** A future waits, and nothing is left that would ever wake it: no batch to give back, no drain
      in progress, and no future that was woken and could fill the queue again. */
  ghost predicate Stranded<T>(s: State<T>) {
    (exists f :: f in s.pending && f !in s.over) && s.queue.occupancy == 0 && s.drains == [] && s.awake == {}
  }

  // ---------------------------------------------------------------- what releases and drains do

  /** Whatever is parked, drained or dropped, the queue keeps its invariant. */
  lemma {:induction false} QueueKeeps<T>(n: nat, policy: Policy, s: State<T>, actions: seq<Action<T>>)
    requires ValidSize(n) && Q.Inv(n, s.queue) && Run(n, policy, s, actions).Some?
    ensures Q.Inv(n, Run(n, policy, s, actions).value.queue)
    decreases |actions|
  {
    hide Q.Inv, Step;
    if actions != [] {
      StepKeepsQueue(n, policy, s, actions[0]);
      QueueKeeps(n, policy, Step(n, policy, s, actions[0]).value, actions[1..]);
    }
  }

  lemma StepKeepsQueue<T>(n: nat, policy: Policy, s: State<T>, a: Action<T>)
    requires ValidSize(n) && Q.Inv(n, s.queue) && Step(n, policy, s, a).Some?
    ensures Q.Inv(n, Step(n, policy, s, a).value.queue)
  {
    hide Q.Inv, BoundedStep;
    match a
    case Poll(_, task) => BoundedStepInv(n, s.queue, Q.Begin(task));
    case Owner(step) => BoundedStepInv(n, s.queue, step);
    case Processor(step) => BoundedStepInv(n, s.queue, step);
    case _ =>
  }

  /** A release starts one drain, of a region's worth, if it leaves no batch outstanding, and does
      nothing for those that wait otherwise; closing a batch does nothing for them at all. */
  lemma ReleaseStartsDrain<T>(n: nat, policy: Policy, s: State<T>, a: Q.Action<T>)
    requires ValidSize(n) && Q.Inv(n, s.queue) && Step(n, policy, s, Processor(a)).Some?
    ensures var t := Step(n, policy, s, Processor(a)).value;
            && t.drains == s.drains + (if a.Deoccupy? && Q.NoneOutstanding(t.queue.batches)
                                       then [RegionSize(n)] else [])
            && t.pending == s.pending && t.awake == s.awake && t.over == s.over && t.poller == s.poller
  {
    hide Q.Inv;
    var t := Step(n, policy, s, Processor(a)).value;
    BoundedStepInv(n, s.queue, a);
    EmptyWord(n, t.queue);
  }

  lemma EmptyWord<T>(n: nat, q: Q.State<T>)
    requires ValidSize(n) && Q.Inv(n, q)
    ensures q.occupancy == 0 <==> Q.NoneOutstanding(q.batches)
  {
    WordZero(n, q);
  }

  /** The futures among them that will poll again. */
  function Waiting(wakers: seq<Future>, over: set<Future>): set<Future> {
    set f | f in wakers && f !in over
  }

  /** A drain's steps, one after the other. */
  function Drain<T>(d: nat, steps: nat): (actions: seq<Action<T>>)
    ensures |actions| == steps
  {
    seq(steps, _ => DrainOne(d))
  }

  /** A drain takes as many wakers as it may and as there are, oldest first, and is done. */
  lemma {:induction false} DrainTakes<T>(n: nat, policy: Policy, s: State<T>, d: nat, due: nat)
    requires ValidSize(n) && d < |s.drains| && due == Q.Min(s.drains[d], |s.pending|)
    ensures Run(n, policy, s, Drain(d, due + 1)) ==
            Some(s.(drains := s.drains[..d] + s.drains[d + 1..], pending := s.pending[due..],
                    awake := s.awake + Waiting(s.pending[..due], s.over)))
    decreases due
  {
    hide Waiting;
    var all := Drain<T>(d, due + 1);
    var t := Step(n, policy, s, all[0]).value;
    if due == 0 {
      NobodyWaits(s.pending, s.over);
      assert all[1..] == [] && s.pending[0..] == s.pending && s.awake + {} == s.awake;
    } else {
      assert all[1..] == Drain<T>(d, due);
      DrainTakes(n, policy, t, d, due - 1);
      assert t.drains[..d] + t.drains[d + 1..] == s.drains[..d] + s.drains[d + 1..];
      assert t.pending[due - 1..] == s.pending[due..];
      OldestWaits(s.pending, s.over, due);
      assert t.awake + Waiting(t.pending[..due - 1], s.over) == s.awake + Waiting(s.pending[..due], s.over);
    }
  }

  lemma OldestWaits(wakers: seq<Future>, over: set<Future>, k: nat)
    requires 0 < k <= |wakers|
    ensures Waiting(wakers[..k], over) ==
            (if wakers[0] in over then {} else {wakers[0]}) + Waiting(wakers[1..][..k - 1], over)
  {
    assert wakers[..k] == [wakers[0]] + wakers[1..][..k - 1];
  }

  /** A release whose drain is not interrupted takes what `Queue.StackQueue.DeoccupyRegion` takes:
      as many of the oldest wakers as are due. */
  lemma ReleaseWakes<T>(n: nat, policy: Policy, s: State<T>, b: nat)
    requires ValidSize(n) && Q.Inv(n, s.queue) && Step(n, policy, s, Processor(Q.Deoccupy(b))).Some?
    ensures var next := Q.Step(n, s.queue, Q.Deoccupy(b)).value;
            var due := Q.DueWakers(n, next.batches, |s.pending|);
            var steps := if Q.NoneOutstanding(next.batches) then due + 1 else 0;
            Run(n, policy, s, [Processor(Q.Deoccupy(b))] + Drain(|s.drains|, steps)) ==
            Some(s.(queue := next, pending := s.pending[due..],
                    awake := s.awake + Waiting(s.pending[..due], s.over)))
  {
    hide Q.Inv, BoundedStep, Waiting;
    var first: Action<T> := Processor(Q.Deoccupy(b));
    BoundedIsStep(n, s.queue, Q.Deoccupy(b));
    var next := Q.Step(n, s.queue, Q.Deoccupy(b)).value;
    var t := Step(n, policy, s, Processor(Q.Deoccupy(b))).value;
    ReleaseStartsDrain(n, policy, s, Q.Deoccupy(b));
    var due := Q.DueWakers(n, next.batches, |s.pending|);
    if Q.NoneOutstanding(next.batches) {
      DrainTakes(n, policy, t, |s.drains|, due);
      assert t.drains[..|s.drains|] + t.drains[|s.drains| + 1..] == s.drains;
      assert ([first] + Drain(|s.drains|, due + 1))[1..] == Drain(|s.drains|, due + 1);
    } else {
      NobodyWaits(s.pending, s.over);
      assert s.pending[0..] == s.pending && s.awake + {} == s.awake;
      assert ([first] + Drain(|s.drains|, 0))[1..] == [];
    }
  }

  lemma NobodyWaits(wakers: seq<Future>, over: set<Future>)
    ensures Waiting(wakers[..0], over) == {}
  {
  }

  lemma BoundedIsStep<T>(n: nat, q: Q.State<T>, a: Q.Action<T>)
    requires ValidSize(n) && BoundedStep(n, q, a).Some?
    ensures BoundedStep(n, q, a) == Q.Step(n, q, a)
  {
  }

  /** The wakers taken over a run, in the order they were taken. */
  function TakenIn<T>(n: nat, policy: Policy, s: State<T>, actions: seq<Action<T>>): seq<Future>
    requires ValidSize(n)
    decreases |actions|
  {
    if actions == [] || Step(n, policy, s, actions[0]).None? then []
    else Taking(s, actions[0]) + TakenIn(n, policy, Step(n, policy, s, actions[0]).value, actions[1..])
  }

  function Taking<T>(s: State<T>, a: Action<T>): seq<Future> {
    if a.DrainOne? && a.drain < |s.drains| && s.drains[a.drain] > 0 && s.pending != [] then [s.pending[0]] else []
  }

  /** The wakers left behind over a run, in the order they were pushed. */
  function LeftIn<T>(n: nat, policy: Policy, s: State<T>, actions: seq<Action<T>>): seq<Future>
    requires ValidSize(n)
    decreases |actions|
  {
    if actions == [] || Step(n, policy, s, actions[0]).None? then []
    else Leaving(n, policy, s, actions[0]) + LeftIn(n, policy, Step(n, policy, s, actions[0]).value, actions[1..])
  }

  function Leaving<T>(n: nat, policy: Policy, s: State<T>, a: Action<T>): seq<Future>
    requires ValidSize(n)
  {
    if s.poller.Some? && (a.Park? || (policy.atomic && a == Owner(Q.Load) && FindsFull(n, s.queue)))
    then [s.poller.value] else []
  }

  /** Who counts as awake will go on, and the push being decided is that of a future that is awake;
      where the owner is through with it, it was refused. */
  ghost predicate PollSound<T>(s: State<T>) {
    && s.awake !! s.over
    && (s.poller.Some? ==>
          && s.poller.value in s.awake && !s.queue.owner.Occupied?
          && (s.queue.owner.Idle? ==> s.queue.owner.last.Rejected?)
          && (s.queue.owner.Added? ==> s.queue.owner.base % 2 != s.queue.localSlot % 2))
  }

  lemma StepPollSound<T>(n: nat, policy: Policy, s: State<T>, a: Action<T>)
    requires ValidSize(n) && PollSound(s) && Step(n, policy, s, a).Some?
    ensures PollSound(Step(n, policy, s, a).value)
  {
    hide Q.SmallCounts, And;
    if a.Owner? {
      OwnerEffect(n, s.queue, a.step);
      RefusalIsOutcome(n, s.queue, a.step);
    }
  }

  lemma RefusalIsOutcome<T>(n: nat, q: Q.State<T>, a: Q.Action<T>)
    requires ValidSize(n) && Q.Step(n, q, a).Some?
    ensures var t := Q.Step(n, q, a).value; a.StoreLoaded? && t.owner.Idle? ==> t.owner.last.Rejected?
  {
  }

  /** Under every policy: a waker is left behind only for a push that was refused, by a future that
      has not got its task in and was not dropped. */
  lemma {:induction false} OnlyRefusedPark<T>(n: nat, policy: Policy, actions: seq<Action<T>>, from: State<T>,
                                              s: State<T>, a: Action<T>)
    requires ValidSize(n) && PollSound(from) && Run(n, policy, from, actions) == Some(s)
    ensures PollSound(s)
    ensures Leaving(n, policy, s, a) != [] && Step(n, policy, s, a).Some? ==>
              && Leaving(n, policy, s, a) == [s.poller.value] && s.poller.value !in s.over
              && if a.Park? then s.queue.owner.Idle? && s.queue.owner.last.Rejected? else FindsFull(n, s.queue)
    decreases |actions|
  {
    hide Step, PollSound;
    if actions == [] {
      if Leaving(n, policy, s, a) != [] && Step(n, policy, s, a).Some? {
        LeavingRefused(n, policy, s, a);
      }
    } else {
      StepPollSound(n, policy, from, actions[0]);
      OnlyRefusedPark(n, policy, actions[1..], Step(n, policy, from, actions[0]).value, s, a);
    }
  }

  lemma LeavingRefused<T>(n: nat, policy: Policy, s: State<T>, a: Action<T>)
    requires ValidSize(n) && PollSound(s) && Step(n, policy, s, a).Some? && Leaving(n, policy, s, a) != []
    ensures Leaving(n, policy, s, a) == [s.poller.value] && s.poller.value !in s.over
    ensures if a.Park? then s.queue.owner.Idle? && s.queue.owner.last.Rejected? else FindsFull(n, s.queue)
  {
  }

  function Sum(limits: seq<nat>): nat {
    if limits == [] then 0 else limits[0] + Sum(limits[1..])
  }

  /** The releases of a run that leave nothing outstanding. */
  function LastReleases<T>(n: nat, policy: Policy, s: State<T>, actions: seq<Action<T>>): nat
    requires ValidSize(n)
    decreases |actions|
  {
    if actions == [] || Step(n, policy, s, actions[0]).None? then 0
    else
      var t := Step(n, policy, s, actions[0]).value;
      (if IsRelease(actions[0]) && Q.NoneOutstanding(t.queue.batches) then 1 else 0)
      + LastReleases(n, policy, t, actions[1..])
  }

  predicate IsRelease<T>(a: Action<T>) {
    a.Processor? && a.step.Deoccupy?
  }

  lemma StepWakers<T>(n: nat, policy: Policy, s: State<T>, a: Action<T>)
    requires ValidSize(n) && Q.Inv(n, s.queue) && Step(n, policy, s, a).Some?
    ensures var t := Step(n, policy, s, a).value;
            && Q.Inv(n, t.queue) && Taking(s, a) + t.pending == s.pending + Leaving(n, policy, s, a)
            && |Taking(s, a)| + Sum(t.drains) <= Sum(s.drains)
               + (if IsRelease(a) && Q.NoneOutstanding(t.queue.batches) then RegionSize(n) else 0)
  {
    hide Q.Inv, BoundedStep, Sum, RegionSize;
    var t := Step(n, policy, s, a).value;
    StepKeepsQueue(n, policy, s, a);
    match a
    case Processor(step) =>
      ReleaseStartsDrain(n, policy, s, step);
      SumMore(s.drains, RegionSize(n));
    case DrainOne(d) =>
      SumLess(s.drains, d);
    case _ =>
  }

  lemma {:induction false} SumMore(limits: seq<nat>, k: nat)
    ensures Sum(limits + [k]) == Sum(limits) + k && limits + [] == limits
  {
    if limits == [] {
      assert limits + [k] == [k] && [k][1..] == [];
    } else {
      assert (limits + [k])[1..] == limits[1..] + [k];
      SumMore(limits[1..], k);
    }
  }

  lemma {:induction false} SumLess(limits: seq<nat>, d: nat)
    requires d < |limits|
    ensures Sum(limits[..d] + limits[d + 1..]) == Sum(limits) - limits[d]
    ensures limits[d] > 0 ==> Sum(limits[d := limits[d] - 1]) == Sum(limits) - 1
  {
    if d == 0 {
      assert limits[..0] + limits[1..] == limits[1..];
      assert limits[d] > 0 ==> limits[d := limits[d] - 1][1..] == limits[1..];
    } else {
      var rest := limits[1..];
      SumLess(rest, d - 1);
      assert (limits[..d] + limits[d + 1..])[1..] == rest[..d - 1] + rest[d..];
      assert limits[d] > 0 ==> limits[d := limits[d] - 1][1..] == rest[d - 1 := limits[d] - 1];
    }
  }

  lemma OneMoreTimes(size: nat, times: nat)
    ensures size * (1 + times) == size + size * times
  {
  }

  /** Over any run the wakers are taken in the order they were left behind, each once, and no more
      of them than a region's worth for each release that leaves nothing outstanding. */
  lemma {:induction false} WakersInOrder<T>(n: nat, policy: Policy, s: State<T>, actions: seq<Action<T>>)
    requires ValidSize(n) && Q.Inv(n, s.queue) && Run(n, policy, s, actions).Some?
    ensures var t := Run(n, policy, s, actions).value;
            && TakenIn(n, policy, s, actions) + t.pending == s.pending + LeftIn(n, policy, s, actions)
            && |TakenIn(n, policy, s, actions)| + Sum(t.drains)
               <= Sum(s.drains) + RegionSize(n) * LastReleases(n, policy, s, actions)
    decreases |actions|
  {
    hide Step, Taking, Leaving, RegionSize, Sum, Q.Inv, Q.NoneOutstanding, IsRelease;
    if actions != [] {
      var a, rest := actions[0], actions[1..];
      var s1 := Step(n, policy, s, a).value;
      StepWakers(n, policy, s, a);
      WakersInOrder(n, policy, s1, rest);
      var t := Run(n, policy, s, actions).value;
      OneMoreTimes(RegionSize(n), LastReleases(n, policy, s1, rest));
      assert t == Run(n, policy, s1, rest).value;
      assert TakenIn(n, policy, s, actions) == Taking(s, a) + TakenIn(n, policy, s1, rest);
      assert LeftIn(n, policy, s, actions) == Leaving(n, policy, s, a) + LeftIn(n, policy, s1, rest);
      calc {
        TakenIn(n, policy, s, actions) + t.pending;
        Taking(s, a) + (TakenIn(n, policy, s1, rest) + t.pending);
        (Taking(s, a) + s1.pending) + LeftIn(n, policy, s1, rest);
        s.pending + LeftIn(n, policy, s, actions);
      }
    }
  }

  // ---------------------------------------------------------------- nobody is stranded

  /** A push was refused and its waker is not pushed yet. */
  predicate Refused<T>(n: nat, s: State<T>)
    requires ValidSize(n)
  {
    && s.poller.Some?
    && match s.queue.owner
       case Idle(_) => true
       case Loaded(_, index, seen) => And(seen, RegionMask(n, index)) != 0
       case _ => false
  }

  /** The last batch is given back just between a failed check and the pushing of the waker. */
  predicate Undercuts<T>(n: nat, s: State<T>, a: Action<T>)
    requires ValidSize(n)
  {
    Refused(n, s) && a.Processor? && a.step.Deoccupy? &&
    var next := BoundedStep(n, s.queue, a.step); next.Some? && next.value.occupancy == 0
  }

  /** That never happens in the run. */
  predicate Calm<T>(n: nat, policy: Policy, s: State<T>, actions: seq<Action<T>>)
    requires ValidSize(n)
    decreases |actions|
  {
    actions != [] ==>
      && !Undercuts(n, s, actions[0])
      && var next := Step(n, policy, s, actions[0]); next.Some? ==> Calm(n, policy, next.value, actions[1..])
  }

  /** A drain that has not taken a waker yet. */
  ghost predicate FreshDrain<T>(n: nat, s: State<T>)
    requires ValidSize(n)
  {
    exists d :: 0 <= d < |s.drains| && s.drains[d] == RegionSize(n)
  }

  ghost predicate WakeUpDue<T>(n: nat, s: State<T>)
    requires ValidSize(n)
  {
    s.pending == [] || s.queue.occupancy != 0 || s.awake != {} || FreshDrain(n, s)
  }

  /** Each pending waker belongs to a future that still waits, and to no push in progress; those
      that count as awake will go on. */
  ghost predicate WakersLive<T>(s: State<T>) {
    && (forall f :: f in s.pending ==> f !in s.over)
    && (forall f :: f in s.awake ==> f !in s.over)
    && (s.poller.Some? ==> s.poller.value in s.awake && s.poller.value !in s.pending)
  }

  /** A refused push that is not parked yet was refused while a batch was live, which still is; and
      no push is taken for refused that got its task in. */
  ghost predicate PollerTracks<T>(n: nat, policy: Policy, s: State<T>)
    requires ValidSize(n)
  {
    && (Refused(n, s) ==> !policy.atomic && s.queue.occupancy != 0)
    && (s.poller.Some? && s.queue.owner.Added? ==> s.queue.owner.base % 2 != s.queue.localSlot % 2)
    && (s.poller.Some? ==> !s.queue.owner.Occupied?)
  }

  ghost predicate Inv<T>(n: nat, policy: Policy, s: State<T>)
    requires ValidSize(n)
  {
    Q.Inv(n, s.queue) && WakersLive(s) && PollerTracks(n, policy, s) && WakeUpDue(n, s)
  }

  lemma CountedMakesPositive<T>(n: nat, q: Q.State<T>, b: nat)
    requires ValidSize(n) && Q.Inv(n, q) && b < |q.batches| && q.batches[b].InWord()
    ensures q.occupancy != 0
  {
    WordZero(n, q);
  }

  /** A task joins only a batch that is open, and so counted. */
  lemma JoinMeansPositive<T>(n: nat, q: Q.State<T>)
    requires ValidSize(n) && Q.Inv(n, q) && q.owner.Written? && Q.AdvanceSlot(q).batches == q.batches
    ensures q.occupancy != 0
  {
    XorLowBit(q.slot, q.localSlot);
    assert Q.HasOpen(q);
    CountedMakesPositive(n, q, |q.batches| - 1);
  }

  lemma CountedAfterOccupy<T>(n: nat, q: Q.State<T>)
    requires ValidSize(n) && Q.Inv(n, q) && BoundedStep(n, q, Q.Occupy).Some?
    ensures Q.Step(n, q, Q.Occupy).value.occupancy != 0
  {
    BoundedStepInv(n, q, Q.Occupy);
    CountedMakesPositive(n, Q.Step(n, q, Q.Occupy).value, |q.batches| - 1);
  }

  /** What the owner's steps do to the word, and to what the poller is waiting for. */
  lemma OwnerEffect<T>(n: nat, q: Q.State<T>, a: Q.Action<T>)
    requires ValidSize(n) && Q.Step(n, q, a).Some? && ByOwner(a)
    ensures var t := Q.Step(n, q, a).value;
            && !q.owner.Idle? && (!a.Occupy? ==> t.occupancy == q.occupancy)
            && (t.owner.Idle? ==>
                  || (a.StoreOccupied? && q.owner.Occupied?)
                  || (a.ReplaceSlot? && q.owner.Added? && q.owner.base % 2 == q.localSlot % 2)
                  || (a.StoreLoaded? && q.owner.Loaded? && And(q.owner.seen, RegionMask(n, q.owner.index)) != 0))
            && (t.owner.Loaded? ==>
                  && a.Load? && q.owner.Contended?
                  && t.owner.seen == q.occupancy && t.owner.index == q.owner.index)
            && (t.owner.Added? ==>
                  && a.AddSlot? && q.owner.Written? && t.owner.base == q.slot && t.localSlot == q.localSlot
                  && (t.batches == q.batches <==> q.slot % 2 == q.localSlot % 2))
            && (t.owner.Occupied? ==> a.Occupy?)
  {
    match a
    case AddSlot => XorLowBit(q.slot, q.localSlot);
    case ReplaceSlot => XorLowBit(q.owner.base, q.localSlot);
    case _ =>
  }

  lemma OwnerStep<T>(n: nat, policy: Policy, s: State<T>, a: Q.Action<T>)
    requires ValidSize(n) && Inv(n, policy, s) && Step(n, policy, s, Owner(a)).Some?
    ensures Inv(n, policy, Step(n, policy, s, Owner(a)).value)
  {
    hide Q.Inv, Q.Step, And;
    var q := BoundedStep(n, s.queue, a).value;
    var t := Step(n, policy, s, Owner(a)).value;
    BoundedStepInv(n, s.queue, a);
    OwnerEffect(n, s.queue, a);
    NothingMasked(n, s.queue);
    if a.Occupy? {
      CountedAfterOccupy(n, s.queue);
    } else if a.AddSlot? && q.batches == s.queue.batches {
      AddedByWriter(n, s.queue);
      JoinMeansPositive(n, s.queue);
    }
    assert t.drains == s.drains;
    assert FreshDrain(n, s) ==> FreshDrain(n, t);
  }

  lemma AddedByWriter<T>(n: nat, q: Q.State<T>)
    requires ValidSize(n) && Q.Step(n, q, Q.AddSlot).Some?
    ensures q.owner.Written? && Q.Step(n, q, Q.AddSlot).value == Q.AdvanceSlot(q)
  {
  }

  lemma NothingMasked<T>(n: nat, q: Q.State<T>)
    requires ValidSize(n)
    ensures FindsFull(n, q) ==> q.occupancy != 0
  {
  }

  lemma ProcessorStep<T>(n: nat, policy: Policy, s: State<T>, a: Q.Action<T>)
    requires ValidSize(n) && Inv(n, policy, s) && Step(n, policy, s, Processor(a)).Some?
    requires !Undercuts(n, s, Processor(a))
    ensures Inv(n, policy, Step(n, policy, s, Processor(a)).value)
  {
    hide Q.Inv;
    var t := Step(n, policy, s, Processor(a)).value;
    BoundedStepInv(n, s.queue, a);
    if a.Deoccupy? && t.queue.occupancy == 0 {
      assert t.drains[|s.drains|] == RegionSize(n);
    } else if FreshDrain(n, s) {
      var d :| 0 <= d < |s.drains| && s.drains[d] == RegionSize(n);
      assert t.drains[d] == RegionSize(n);
    }
  }

  lemma DrainStep<T>(n: nat, policy: Policy, s: State<T>, d: nat)
    requires ValidSize(n) && Inv(n, policy, s) && Step(n, policy, s, DrainOne(d)).Some?
    ensures Inv(n, policy, Step(n, policy, s, DrainOne(d)).value)
  {
    hide Q.Inv;
    var t := Step(n, policy, s, DrainOne(d)).value;
    if s.drains[d] == 0 && s.pending != [] {
      if FreshDrain(n, s) {
        var e :| 0 <= e < |s.drains| && s.drains[e] == RegionSize(n);
        assert t.drains[if e < d then e else e - 1] == RegionSize(n);
      }
    } else if s.pending != [] {
      assert s.pending[0] in t.awake;
    }
  }

  lemma PollStep<T>(n: nat, policy: Policy, s: State<T>, f: Future, task: T)
    requires ValidSize(n) && policy.pollOnlyWhenWoken && Inv(n, policy, s)
    requires Step(n, policy, s, Poll(f, task)).Some?
    ensures Inv(n, policy, Step(n, policy, s, Poll(f, task)).value)
  {
    hide Q.Inv;
    BoundedStepInv(n, s.queue, Q.Begin(task));
    assert f in Step(n, policy, s, Poll(f, task)).value.awake;
  }

  lemma ParkStep<T>(n: nat, policy: Policy, s: State<T>)
    requires ValidSize(n) && Inv(n, policy, s) && Step(n, policy, s, Park).Some?
    ensures Inv(n, policy, Step(n, policy, s, Park).value)
  {
    hide Q.Inv;
    assert Refused(n, s);
  }

  /** No step leaves a waiting future without anything to wake it, unless it undercuts a refusal. */
  lemma StepKeeps<T>(n: nat, policy: Policy, s: State<T>, a: Action<T>)
    requires ValidSize(n) && policy.pollOnlyWhenWoken && policy.neverDropped
    requires Inv(n, policy, s) && Step(n, policy, s, a).Some? && (policy.atomic || !Undercuts(n, s, a))
    ensures Inv(n, policy, Step(n, policy, s, a).value)
  {
    hide Q.Inv, Q.Step, BoundedStep, WakersLive, WakeUpDue;
    match a
    case Poll(f, task) => PollStep(n, policy, s, f, task);
    case Owner(step) => OwnerStep(n, policy, s, step);
    case Park => ParkStep(n, policy, s);
    case Processor(step) => ProcessorStep(n, policy, s, step);
    case DrainOne(d) => DrainStep(n, policy, s, d);
    case DropFuture(f) =>
  }

  lemma {:induction false} RunKeeps<T>(n: nat, policy: Policy, s: State<T>, actions: seq<Action<T>>)
    requires ValidSize(n) && policy.pollOnlyWhenWoken && policy.neverDropped
    requires Inv(n, policy, s) && Run(n, policy, s, actions).Some?
    requires policy.atomic || Calm(n, policy, s, actions)
    ensures Inv(n, policy, Run(n, policy, s, actions).value)
    decreases |actions|
  {
    hide Inv, Undercuts;
    if actions != [] {
      StepKeeps(n, policy, s, actions[0]);
      RunKeeps(n, policy, Step(n, policy, s, actions[0]).value, actions[1..]);
    }
  }

  lemma NotStranded<T>(n: nat, policy: Policy, actions: seq<Action<T>>, s: State<T>)
    requires ValidSize(n) && policy.pollOnlyWhenWoken && policy.neverDropped
    requires Run(n, policy, Initial(n), actions) == Some(s)
    requires policy.atomic || Calm(n, policy, Initial(n), actions)
    ensures !Stranded(s)
  {
    InitialInv<T>(n);
    RunKeeps(n, policy, Initial<T>(n), actions);
  }

  /** As the code is, with check and parking apart: no future is left waiting with nothing to wake
      it in any run where the last batch is never given back just between the two. */
  lemma CalmRunsStrandNobody<T>(n: nat, policy: Policy, actions: seq<Action<T>>, s: State<T>)
    requires ValidSize(n) && policy.pollOnlyWhenWoken && policy.neverDropped
    requires Run(n, policy, Initial(n), actions) == Some(s) && Calm(n, policy, Initial(n), actions)
    ensures !Stranded(s)
    ensures s.pending != [] ==> s.queue.occupancy != 0 || s.awake != {} || FreshDrain(n, s)
    ensures forall f :: f in s.awake || f in s.pending ==> f !in s.over
  {
    InitialInv<T>(n);
    RunKeeps(n, policy, Initial<T>(n), actions);
    NotStranded(n, policy, actions, s);
  }

  // ---------------------------------------------------------------- runs that strand a future

  ghost predicate Leads<T(!new)>(n: nat, policy: Policy, s: State<T>)
    requires ValidSize(n)
  {
    exists actions :: Run(n, policy, Initial(n), actions) == Some(s)
  }

  lemma {:induction false} RunSnoc<T>(n: nat, policy: Policy, s: State<T>, actions: seq<Action<T>>, a: Action<T>)
    requires ValidSize(n) && Run(n, policy, s, actions).Some?
    ensures Run(n, policy, s, actions + [a]) == Step(n, policy, Run(n, policy, s, actions).value, a)
    decreases |actions|
  {
    hide Step;
    if actions == [] {
      assert actions + [a] == [a] && [a][1..] == [];
      assert Step(n, policy, s, a).Some? ==> Run(n, policy, Step(n, policy, s, a).value, []) == Step(n, policy, s, a);
    } else {
      assert (actions + [a])[0] == actions[0] && (actions + [a])[1..] == actions[1..] + [a];
      RunSnoc(n, policy, Step(n, policy, s, actions[0]).value, actions[1..], a);
    }
  }

  /** One step of a construction. */
  lemma Taken<T(!new)>(n: nat, policy: Policy, s: State<T>, a: Action<T>) returns (t: State<T>)
    requires ValidSize(n) && Leads(n, policy, s) && Step(n, policy, s, a).Some?
    ensures Step(n, policy, s, a) == Some(t) && Leads(n, policy, t)
  {
    hide Step;
    t := Step(n, policy, s, a).value;
    var actions :| Run(n, policy, Initial(n), actions) == Some(s);
    RunSnoc(n, policy, Initial(n), actions, a);
    assert Run(n, policy, Initial(n), actions + [a]) == Some(t);
  }

  /** The middle of a push, as the queue sees it. */
  lemma PushPath<T>(n: nat, q: Q.State<T>) returns (q1: Q.State<T>, q2: Q.State<T>, q3: Q.State<T>)
    requires ValidSize(n) && Q.Inv(n, q) && q.owner.Ready?
    ensures BoundedStep(n, q, Q.Write) == Some(q1) && BoundedStep(n, q1, Q.AddSlot) == Some(q2)
    ensures BoundedStep(n, q2, Q.ReplaceSlot) == Some(q3) && Q.Inv(n, q3)
    ensures q3.occupancy == q.occupancy && q3.localOccupancy == q.localOccupancy && Q.Total(q3) == Q.Total(q) + 1
    ensures q3.batches == q2.batches && q1.batches == q.batches
    ensures if Q.HasOpen(q) then q3.owner.Idle? && q2.batches == q.batches
            else q3.owner == Q.Opening(q.owner.index)
                 && q2.batches == q.batches + [Q.Batch(Q.Total(q), q.slot, Q.Forming)]
  {
    QuietBoundedStep(n, q, Q.Write);
    q1 := Q.Step(n, q, Q.Write).value;
    q2, q3 := PushTail(n, q1);
  }

  lemma PushTail<T>(n: nat, q: Q.State<T>) returns (q2: Q.State<T>, q3: Q.State<T>)
    requires ValidSize(n) && Q.Inv(n, q) && q.owner.Written?
    ensures BoundedStep(n, q, Q.AddSlot) == Some(q2) && BoundedStep(n, q2, Q.ReplaceSlot) == Some(q3) && Q.Inv(n, q3)
    ensures q3.occupancy == q.occupancy && q3.localOccupancy == q.localOccupancy && Q.Total(q3) == Q.Total(q) + 1
    ensures q3.batches == q2.batches
    ensures if Q.HasOpen(q) then q3.owner.Idle? && q2.batches == q.batches
            else q3.owner == Q.Opening(q.owner.index)
                 && q2.batches == q.batches + [Q.Batch(Q.Total(q), q.slot, Q.Forming)]
  {
    hide BoundedStep, Q.SmallCounts, Q.CellsHold, Q.Protected, Q.Cleared, Q.WordTracks, Q.CopiesCover;
    XorLowBit(q.slot, q.localSlot);
    QuietBoundedStep(n, q, Q.AddSlot);
    q2 := Q.Step(n, q, Q.AddSlot).value;
    QuietBoundedStep(n, q2, Q.ReplaceSlot);
    q3 := Q.Step(n, q2, Q.ReplaceSlot).value;
  }

  /** The middle of a push: the cell is written and both slots move on. A task that joins is in. */
  lemma PushOn<T(!new)>(n: nat, policy: Policy, s: State<T>, f: Future) returns (t: State<T>)
    requires ValidSize(n) && Leads(n, policy, s) && Q.Inv(n, s.queue) && s.queue.owner.Ready?
    requires s.poller == Some(f) && s.awake == {f}
    ensures Leads(n, policy, t) && Q.Inv(n, t.queue) && Q.Total(t.queue) == Q.Total(s.queue) + 1
    ensures t.queue.occupancy == s.queue.occupancy && t.queue.localOccupancy == s.queue.localOccupancy
    ensures t.pending == s.pending && t.drains == s.drains
    ensures if Q.HasOpen(s.queue)
            then t.queue.owner.Idle? && t.queue.batches == s.queue.batches
                 && t.awake == {} && t.over == s.over + {f} && t.poller == None
            else t.queue.owner == Q.Opening(s.queue.owner.index)
                 && t.queue.batches == s.queue.batches + [Q.Batch(Q.Total(s.queue), s.queue.slot, Q.Forming)]
                 && t.awake == {f} && t.over == s.over && t.poller == Some(f)
  {
    hide Q.Inv, Q.Step, BoundedStep, Leads;
    var q1, q2, q3 := PushPath(n, s.queue);
    var s1 := Taken(n, policy, s, Owner(Q.Write));
    var s2 := Taken(n, policy, s1, Owner(Q.AddSlot));
    t := Taken(n, policy, s2, Owner(Q.ReplaceSlot));
  }

  /** The end of a push that opens a batch where the word is zero, as the queue sees it. */
  lemma OpenPath<T>(n: nat, q: Q.State<T>) returns (q1: Q.State<T>, q2: Q.State<T>)
    requires ValidSize(n) && Q.Inv(n, q) && q.owner.Opening? && q.occupancy == 0
    ensures BoundedStep(n, q, Q.Occupy) == Some(q1) && BoundedStep(n, q1, Q.StoreOccupied) == Some(q2)
    ensures Q.Inv(n, q2) && q2.owner.Idle? && q2.pushed == q.pushed
    ensures |q2.batches| == |q.batches| > 0 && q2.batches[|q.batches| - 1].status.Open?
    ensures forall b :: 0 <= b < |q.batches| - 1 ==> q2.batches[b] == q.batches[b]
    ensures q2.occupancy == q2.localOccupancy == Unit(CurrentRegion(n, q.owner.index))
  {
    hide Q.Inv, Q.SmallCounts;
    ZeroOccupies(n, q);
    BoundedStepInv(n, q, Q.Occupy);
    q1 := Q.OccupyRegion(n, q);
    QuietBoundedStep(n, q1, Q.StoreOccupied);
    q2 := Q.HandOver(q1);
  }

  lemma ZeroOccupies<T>(n: nat, q: Q.State<T>)
    requires ValidSize(n) && Q.Inv(n, q) && q.owner.Opening? && q.occupancy == 0
    ensures q.batches != [] && Q.SmallCounts(n, Q.OccupyRegion(n, q))
    ensures Q.OccupyRegion(n, q).occupancy == Unit(CurrentRegion(n, q.owner.index))
  {
    WordZero(n, q);
    RegionWords(n, q.owner.index);
    Overflow.FromZero(Unit(CurrentRegion(n, q.owner.index)));
    CountZero(n, q.batches, RegionOf(n, Q.Total(q) - 1));
    OccupySmall(n, q);
  }

  lemma OpenOn<T(!new)>(n: nat, policy: Policy, s: State<T>, f: Future) returns (t: State<T>)
    requires ValidSize(n) && Leads(n, policy, s) && Q.Inv(n, s.queue) && s.queue.owner.Opening?
    requires s.queue.occupancy == 0 && s.poller == Some(f) && s.awake == {f}
    ensures Leads(n, policy, t) && Q.Inv(n, t.queue) && t.queue.owner.Idle? && t.queue.pushed == s.queue.pushed
    ensures |t.queue.batches| == |s.queue.batches| > 0 && t.queue.batches[|s.queue.batches| - 1].status.Open?
    ensures forall b :: 0 <= b < |s.queue.batches| - 1 ==> t.queue.batches[b] == s.queue.batches[b]
    ensures t.queue.occupancy == t.queue.localOccupancy == Unit(CurrentRegion(n, s.queue.owner.index))
    ensures t.pending == s.pending && t.drains == s.drains
    ensures t.awake == {} && t.over == s.over + {f} && t.poller == None
  {
    hide Leads, Q.Inv, Q.Step, BoundedStep, Unit, CurrentRegion;
    var q1, q2 := OpenPath(n, s.queue);
    var s1 := Taken(n, policy, s, Owner(Q.Occupy));
    t := Taken(n, policy, s1, Owner(Q.StoreOccupied));
  }

  /** w tasks in one open batch that began at the start, pushed by the futures before w; `who` are
      waiting. */
  ghost predicate OneBatch<T(!new)>(n: nat, policy: Policy, s: State<T>, w: nat, who: seq<Future>)
    requires ValidSize(n)
  {
    && Leads(n, policy, s) && Q.Inv(n, s.queue) && s.queue.owner.Idle? && Q.Total(s.queue) == w
    && |s.queue.batches| == 1 && s.queue.batches[0].status.Open?
    && s.queue.occupancy == Unit(0) && s.queue.localOccupancy == Unit(0)
    && s.pending == who && s.drains == [] && s.awake == {} && s.poller == None
    && forall f :: f in s.over ==> f < w
  }

  lemma FirstPush<T(!new)>(n: nat, policy: Policy, task: T) returns (t: State<T>)
    requires ValidSize(n)
    ensures OneBatch(n, policy, t, 1, [])
  {
    var s0 := Initial<T>(n);
    assert Run(n, policy, s0, []) == Some(s0);
    InitialInv<T>(n);
    SlotIndexOf(n, 0, 1);
    RegionWords(n, 0);
    QuietBoundedStep(n, s0.queue, Q.Begin(task));
    var s1 := Taken(n, policy, s0, Poll(0, task));
    var s2 := PushOn(n, policy, s1, 0);
    t := OpenOn(n, policy, s2, 0);
  }

  lemma {:induction false} FillRing<T(!new)>(n: nat, policy: Policy, task: T, w: nat) returns (t: State<T>)
    requires ValidSize(n) && 1 <= w <= n
    ensures OneBatch(n, policy, t, w, [])
  {
    hide OneBatch;
    if w == 1 {
      t := FirstPush(n, policy, task);
    } else {
      var s := FillRing(n, policy, task, w - 1);
      t := JoinNext(n, policy, s, task, w - 1);
    }
  }

  lemma JoinNext<T(!new)>(n: nat, policy: Policy, s: State<T>, task: T, w: nat) returns (t: State<T>)
    requires ValidSize(n) && 1 <= w < n && OneBatch(n, policy, s, w, [])
    ensures OneBatch(n, policy, t, w + 1, [])
  {
    hide Leads, Q.SmallCounts;
    JoinBegins(n, s.queue, task);
    QuietBoundedStep(n, s.queue, Q.Begin(task));
    var s1 := Taken(n, policy, s, Poll(w, task));
    t := PushOn(n, policy, s1, w);
  }

  lemma JoinBegins<T>(n: nat, q: Q.State<T>, task: T)
    requires ValidSize(n) && Q.Inv(n, q) && q.owner.Idle? && 1 <= Q.Total(q) < n && q.localOccupancy == Unit(0)
    ensures Q.BeginPush(n, q, task).owner.Ready?
  {
    var w := Q.Total(q);
    SlotIndexOf(n, w, q.localSlot % 2);
    LaterRegions(n, w);
  }

  lemma LaterRegions(n: nat, w: nat)
    requires ValidSize(n) && 1 <= w < n
    ensures AtBoundary(n, w % n) ==> And(Unit(0), RegionMask(n, w % n)) == 0
  {
    hide AtBoundary, RegionOf, RegionMask, And, Unit;
    if AtBoundary(n, w % n) {
      Overflow.BetweenBlocks(n, 0, 8, w);
      Overflow.UnitMisses(n, w, 0);
    }
  }

  /** The ring is full: the next push finds the region of the first batch occupied in its copy. */
  lemma FullBegins<T>(n: nat, q: Q.State<T>, task: T)
    requires ValidSize(n) && Q.Inv(n, q) && q.owner.Idle? && Q.Total(q) == n && q.localOccupancy == Unit(0)
    ensures Q.BeginPush(n, q, task).owner == Q.Contended(task, 0)
    ensures And(Unit(0), RegionMask(n, 0)) != 0 && And(0, RegionMask(n, 0)) == 0 && CurrentRegion(n, 0) == 0
  {
    SlotIndexOf(n, n, q.localSlot % 2);
    Remainder(n, n, 1, 0);
    MaskReadsByte(n, 0, Unit(0));
    RegionWords(n, 0);
    assert AtBoundary(n, 0);
  }

  /** A poll of the full ring, up to the atomic load. */
  lemma FindsRingFull<T(!new)>(n: nat, policy: Policy, s: State<T>, who: seq<Future>, f: Future, task: T)
    returns (t: State<T>)
    requires ValidSize(n) && OneBatch(n, policy, s, n, who) && f >= n && (policy.pollOnlyWhenWoken ==> f !in who)
    ensures Leads(n, policy, t) && Q.Inv(n, t.queue)
    ensures t.queue.owner == Q.Loaded(task, 0, Unit(0)) && And(Unit(0), RegionMask(n, 0)) != 0
    ensures t.queue.batches == s.queue.batches && t.queue.pushed == s.queue.pushed
    ensures t.queue.occupancy == t.queue.localOccupancy == Unit(0)
    ensures t.drains == [] && t.over == s.over
    ensures if policy.atomic then t.pending == who + [f] && t.awake == {} && t.poller == None
            else t.pending == who && t.awake == {f} && t.poller == Some(f)
  {
    hide Leads, Q.Inv, Q.SmallCounts, RegionMask, And, Unit;
    FullBegins(n, s.queue, task);
    QuietBoundedStep(n, s.queue, Q.Begin(task));
    var s1 := Taken(n, policy, s, Poll(f, task));
    QuietBoundedStep(n, s1.queue, Q.Load);
    t := Taken(n, policy, s1, Owner(Q.Load));
  }

  lemma ParkOne<T(!new)>(n: nat, policy: Policy, s: State<T>, who: seq<Future>, f: Future, task: T)
    returns (t: State<T>)
    requires ValidSize(n) && policy.atomic && OneBatch(n, policy, s, n, who)
    requires f >= n && (policy.pollOnlyWhenWoken ==> f !in who)
    ensures OneBatch(n, policy, t, n, who + [f])
  {
    hide Leads, Q.Inv, Q.SmallCounts, RegionMask, And, Unit;
    var s1 := FindsRingFull(n, policy, s, who, f, task);
    QuietBoundedStep(n, s1.queue, Q.StoreLoaded);
    t := Taken(n, policy, s1, Owner(Q.StoreLoaded));
  }

  /** One future after the other finds the ring full and is parked. */
  lemma {:induction false} ParkAll<T(!new)>(n: nat, policy: Policy, who: seq<Future>, task: T) returns (t: State<T>)
    requires ValidSize(n) && policy.atomic && forall i :: 0 <= i < |who| ==> who[i] >= n
    requires policy.pollOnlyWhenWoken ==> forall i, j :: 0 <= i < j < |who| ==> who[i] != who[j]
    ensures OneBatch(n, policy, t, n, who)
  {
    hide OneBatch;
    if who == [] {
      t := FillRing(n, policy, task, n);
    } else {
      var init, f := who[..|who| - 1], who[|who| - 1];
      var s := ParkAll(n, policy, init, task);
      t := ParkOne(n, policy, s, init, f, task);
      assert init + [f] == who;
    }
  }

  /** The only batch that is left is closed and given back, which starts a drain. */
  lemma ReleaseOnly<T(!new)>(n: nat, policy: Policy, s: State<T>) returns (t: State<T>)
    requires ValidSize(n) && Leads(n, policy, s) && Q.Inv(n, s.queue) && s.queue.batches != []
    requires s.queue.batches[|s.queue.batches| - 1].status.Open?
    requires forall b :: 0 <= b < |s.queue.batches| - 1 ==> s.queue.batches[b].status.Released?
    ensures Leads(n, policy, t) && Q.Inv(n, t.queue) && t.queue.occupancy == 0 && !Q.HasOpen(t.queue)
    ensures t == s.(queue := t.queue, drains := s.drains + [RegionSize(n)])
    ensures t.queue.owner == s.queue.owner && t.queue.pushed == s.queue.pushed
    ensures t.queue.localOccupancy == s.queue.localOccupancy && |t.queue.batches| == |s.queue.batches|
    ensures forall b :: 0 <= b < |s.queue.batches| ==> t.queue.batches[b].status.Released?
  {
    hide Leads, Q.Inv, Q.SmallCounts;
    var last := |s.queue.batches| - 1;
    QuietBoundedStep(n, s.queue, Q.Close(last));
    var s1 := Taken(n, policy, s, Processor(Q.Close(last)));
    QuietBoundedStep(n, s1.queue, Q.Deoccupy(last));
    AllReleased(n, Q.Step(n, s1.queue, Q.Deoccupy(last)).value);
    t := Taken(n, policy, s1, Processor(Q.Deoccupy(last)));
  }

  lemma AllReleased<T>(n: nat, q: Q.State<T>)
    requires ValidSize(n) && Q.Inv(n, q) && forall b :: 0 <= b < |q.batches| ==> q.batches[b].status.Released?
    ensures q.occupancy == 0
  {
    WordZero(n, q);
  }

  /** The first drain takes k wakers of futures that will not poll again. */
  lemma {:induction false} DrainStale<T(!new)>(n: nat, policy: Policy, s: State<T>, k: nat) returns (t: State<T>)
    requires ValidSize(n) && Leads(n, policy, s) && s.drains != [] && k <= s.drains[0] && k <= |s.pending|
    requires forall i :: 0 <= i < k ==> s.pending[i] in s.over
    ensures Leads(n, policy, t)
    ensures t == s.(drains := s.drains[0 := s.drains[0] - k], pending := s.pending[k..])
    decreases k
  {
    hide Leads;
    if k == 0 {
      t := s;
      assert s.drains[0 := s.drains[0]] == s.drains;
    } else {
      var s1 := Taken(n, policy, s, DrainOne(0));
      t := DrainStale(n, policy, s1, k - 1);
    }
  }

  /** It spends its whole limit on them and ends. */
  lemma DrainSpent<T(!new)>(n: nat, policy: Policy, s: State<T>) returns (t: State<T>)
    requires ValidSize(n) && Leads(n, policy, s) && s.drains != [] && s.drains[0] < |s.pending|
    requires forall i :: 0 <= i < s.drains[0] ==> s.pending[i] in s.over
    ensures Leads(n, policy, t) && t == s.(drains := s.drains[1..], pending := s.pending[s.drains[0]..])
  {
    hide Leads;
    var s1 := DrainStale(n, policy, s, s.drains[0]);
    t := Taken(n, policy, s1, DrainOne(0));
    assert s1.drains[..0] + s1.drains[1..] == s.drains[1..];
  }

  // ---------------------------------------------------------------- without atomic parking

  /** The load sees the one batch; before the waker is pushed, the batch is closed and given
      back, and the drain it starts finds nobody to wake. */
  lemma StrandedByUndercut<T(!new)>(n: nat, policy: Policy, task: T) returns (t: State<T>)
    requires ValidSize(n) && !policy.atomic
    ensures Leads(n, policy, t) && Stranded(t)
  {
    hide Leads, Q.Inv, Q.SmallCounts, RegionMask, And, Unit;
    var s0 := FillRing(n, policy, task, n);
    var s1 := FindsRingFull(n, policy, s0, [], n, task);
    var s2 := ReleaseOnly(n, policy, s1);
    var s3 := Taken(n, policy, s2, DrainOne(0));
    QuietBoundedStep(n, s3.queue, Q.StoreLoaded);
    var s4 := Taken(n, policy, s3, Owner(Q.StoreLoaded));
    t := Taken(n, policy, s4, Park);
    assert n in t.pending && n !in t.over;
  }

  // ---------------------------------------------------------------- with polls ahead of the wake

  /** The ring is empty again, and a future whose wakers are pending is polled and gets its task in,
      in a batch of its own that is given back. */
  lemma PollsAhead<T(!new)>(n: nat, policy: Policy, s: State<T>, f: Future, task: T) returns (t: State<T>)
    requires ValidSize(n) && Leads(n, policy, s) && !policy.pollOnlyWhenWoken
    requires Q.Inv(n, s.queue) && s.queue.owner.Idle? && Q.Total(s.queue) == n
    requires s.queue.occupancy == 0 && s.queue.localOccupancy == Unit(0) && !Q.HasOpen(s.queue)
    requires forall b :: 0 <= b < |s.queue.batches| ==> s.queue.batches[b].status.Released?
    requires s.awake == {} && s.poller == None && f !in s.over
    ensures Leads(n, policy, t) && t.queue.occupancy == 0
    ensures t == s.(queue := t.queue, drains := s.drains + [RegionSize(n)], over := s.over + {f})
  {
    hide Leads, Q.Inv, Q.SmallCounts, RegionMask, And, Unit;
    var s3 := PassesLoad(n, policy, s, f, task);
    var s4 := PushOn(n, policy, s3, f);
    var s5 := OpenOn(n, policy, s4, f);
    t := ReleaseOnly(n, policy, s5);
  }

  lemma PassesLoad<T(!new)>(n: nat, policy: Policy, s: State<T>, f: Future, task: T) returns (t: State<T>)
    requires ValidSize(n) && Leads(n, policy, s) && !policy.pollOnlyWhenWoken
    requires Q.Inv(n, s.queue) && s.queue.owner.Idle? && Q.Total(s.queue) == n
    requires s.queue.occupancy == 0 && s.queue.localOccupancy == Unit(0) && s.poller == None && f !in s.over
    ensures Leads(n, policy, t) && Q.Inv(n, t.queue) && t.queue.owner == Q.Ready(task, 0)
    ensures t == s.(queue := t.queue, poller := Some(f), awake := s.awake + {f})
    ensures t.queue.occupancy == 0 && t.queue.batches == s.queue.batches && t.queue.pushed == s.queue.pushed
    ensures t.queue.slot == s.queue.slot
  {
    hide Leads, Q.Inv, Q.SmallCounts, RegionMask, And, Unit;
    FullBegins(n, s.queue, task);
    QuietBoundedStep(n, s.queue, Q.Begin(task));
    var s1 := Taken(n, policy, s, Poll(f, task));
    QuietBoundedStep(n, s1.queue, Q.Load);
    var s2 := Taken(n, policy, s1, Owner(Q.Load));
    QuietBoundedStep(n, s2.queue, Q.StoreLoaded);
    t := Taken(n, policy, s2, Owner(Q.StoreLoaded));
  }

  /** One future is polled over and over and leaves a waker each time, as many as two drains take;
      another waits behind it. The first gets in ahead of its wakers, and the drains are spent on
      them. */
  lemma StrandedBehindStale<T(!new)>(n: nat, policy: Policy, task: T) returns (t: State<T>)
    requires ValidSize(n) && policy.atomic && !policy.pollOnlyWhenWoken
    ensures Leads(n, policy, t) && Stranded(t)
  {
    hide Leads, Q.Inv, Q.SmallCounts, Unit;
    var r := RegionSize(n);
    var stale := seq(2 * r, _ => n);
    var s0 := ParkAll(n, policy, stale + [n + 1], task);
    var s1 := ReleaseOnly(n, policy, s0);
    var s2 := PollsAhead(n, policy, s1, n, task);
    assert s2.drains == [r, r];
    var s3 := DrainSpent(n, policy, s2);
    t := DrainSpent(n, policy, s3);
    assert n + 1 in t.pending && n + 1 !in t.over;
  }

  // ---------------------------------------------------------------- with futures dropped

  lemma {:induction false} DropAll<T(!new)>(n: nat, policy: Policy, s: State<T>, k: nat) returns (t: State<T>)
    requires ValidSize(n) && Leads(n, policy, s) && !policy.neverDropped && s.poller == None
    ensures Leads(n, policy, t)
    ensures t.queue == s.queue && t.pending == s.pending && t.drains == s.drains && t.poller == None
    ensures forall f :: f in t.over <==> f in s.over || n <= f < n + k
    ensures t.awake <= s.awake
  {
    hide Leads;
    if k == 0 {
      t := s;
    } else {
      var s1 := DropAll(n, policy, s, k - 1);
      t := Taken(n, policy, s1, DropFuture(n + k - 1));
    }
  }

  /** As many futures wait as a drain takes, and one more behind them. All but the last are dropped,
      and the drain is spent on their wakers. */
  lemma StrandedBehindDropped<T(!new)>(n: nat, policy: Policy, task: T) returns (t: State<T>)
    requires ValidSize(n) && policy.atomic && !policy.neverDropped
    ensures Leads(n, policy, t) && Stranded(t)
  {
    hide Leads, Q.Inv, Q.SmallCounts, Unit;
    var r := RegionSize(n);
    var who := seq(r + 1, i => n + i);
    var s0 := ParkAll(n, policy, who, task);
    var s1 := DropAll(n, policy, s0, r);
    var s2 := ReleaseOnly(n, policy, s1);
    assert s2.drains == [r];
    t := DrainSpent(n, policy, s2);
    assert t.pending[0] == n + r && n + r !in t.over;
  }

  lemma Strands<T(!new)>(n: nat, policy: Policy, task: T) returns (t: State<T>)
    requires ValidSize(n) && !(policy.atomic && policy.pollOnlyWhenWoken && policy.neverDropped)
    ensures Leads(n, policy, t) && Stranded(t)
  {
    if !policy.atomic {
      t := StrandedByUndercut(n, policy, task);
    } else if !policy.pollOnlyWhenWoken {
      t := StrandedBehindStale(n, policy, task);
    } else {
      t := StrandedBehindDropped(n, policy, task);
    }
  }

  /** No future is ever left waiting with nothing to wake it, in all runs, exactly when the failed
      check and the pushing of the waker cannot be separated, no future is polled while its waker is
      pending, and none is dropped before its task is in. */
  lemma NobodyStrandedExactlyWhenKept<T(!new)>(n: nat, policy: Policy, task: T)
    requires ValidSize(n)
    ensures policy.atomic && policy.pollOnlyWhenWoken && policy.neverDropped <==>
            forall actions, s: State<T> :: Run(n, policy, Initial(n), actions) == Some(s) ==> !Stranded(s)
  {
    if policy.atomic && policy.pollOnlyWhenWoken && policy.neverDropped {
      forall actions, s: State<T> | Run(n, policy, Initial(n), actions) == Some(s)
        ensures !Stranded(s)
      {
        NotStranded(n, policy, actions, s);
      }
    } else {
      var t := Strands(n, policy, task);
      var actions :| Run(n, policy, Initial(n), actions) == Some(t);
      assert Run(n, policy, Initial(n), actions) == Some(t) && Stranded(t);
    }
  }
}
