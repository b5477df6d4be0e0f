/** What decides how a push ends: the state it finds, and which batches others close or give back
    while it is under way. */
module Outcomes {
  import opened Wrappers
  import opened Helpers
  import opened Protocol
  import opened ProtocolSteps
  import opened Guarantees
  import opened Turns

  /** The owner's steps in a push and the numbered points at which the others may run; `own` says
      how a step of the owner is told among the actions of the system at hand. */
  function PushTurns<T, A>(env: nat -> seq<A>, own: Action<T> -> A, task: T, slow: bool, outcome: Outcome<T>)
    : seq<Turn<A>>
  {
    [Others(env(0)), Own(own(Begin(task)))] + (if slow then CheckTurns(env, own) else [])
    + (if outcome.Rejected? then [] else CommitTurns(env, own, outcome))
  }

  function CheckTurns<T, A>(env: nat -> seq<A>, own: Action<T> -> A): seq<Turn<A>> {
    [Others(env(1)), Own(own(Load)), Others(env(2)), Own(own(StoreLoaded))]
  }

  function CommitTurns<T, A>(env: nat -> seq<A>, own: Action<T> -> A, outcome: Outcome<T>): seq<Turn<A>> {
    AppendTurns(env, own) + SettleTurns(env, own, outcome)
  }

  function AppendTurns<T, A>(env: nat -> seq<A>, own: Action<T> -> A): seq<Turn<A>> {
    [Others(env(3)), Own(own(Write)), Others(env(4)), Own(own(AddSlot))]
  }

  function SettleTurns<T, A>(env: nat -> seq<A>, own: Action<T> -> A, outcome: Outcome<T>): seq<Turn<A>> {
    [Others(env(5)), Own(own(ReplaceSlot))] + (if outcome.Opened? then OccupyTurns(env, own) else [])
  }

  function OccupyTurns<T, A>(env: nat -> seq<A>, own: Action<T> -> A): seq<Turn<A>> {
    [Others(env(6)), Own(own(Occupy)), Others(env(7)), Own(own(StoreOccupied))]
  }

  /** In the queue by itself the owner's steps are told as they are. */
  function Plain<T>(a: Action<T>): Action<T> {
    a
  }

  /** The batches for which others have the given action on one of their schedules. */
  ghost function Scheduled<A>(env: nat -> seq<A>, act: nat -> A): iset<nat> {
    iset b: nat | exists k: nat :: act(b) in env(k)
  }

  /** The queue's steps within the bound on the counters. */
  function Mover<T>(n: nat): Stepper<State<T>, Action<T>>
    requires ValidSize(n)
  {
    (s, a) => BoundedStep(n, s, a)
  }

  lemma {:induction false} MovesAreARun<T>(n: nat, s: State<T>, actions: seq<Action<T>>)
    requires ValidSize(n) && RunOf(Mover(n), s, actions).Some?
    ensures Run(n, s, actions) == RunOf(Mover(n), s, actions)
    decreases |actions|
  {
    if actions != [] {
      MovesAreARun(n, Mover<T>(n)(s, actions[0]).value, actions[1..]);
    }
  }

  lemma StepSpares<T>(n: nat, s: State<T>, a: Action<T>, b: nat)
    requires ValidSize(n) && HandOverTracks(s) && Step(n, s, a).Some? && b < |s.batches|
    requires !s.batches[b].status.Forming? && !s.batches[b].status.Counted?
    requires a != Close(b) && (s.batches[b].status.Open? || a != Deoccupy(b))
    ensures b < |Step(n, s, a).value.batches| && Step(n, s, a).value.batches[b] == s.batches[b]
  {
  }

  /** A batch that nobody closes and nobody gives back stays what it is. */
  lemma {:induction false} RunSpares<T>(n: nat, s: State<T>, steps: seq<Action<T>>, b: nat)
    requires ValidSize(n) && Shape(n, s) && Run(n, s, steps).Some? && b < |s.batches|
    requires !s.batches[b].status.Forming? && !s.batches[b].status.Counted?
    requires Close(b) !in steps && (s.batches[b].status.Open? || Deoccupy(b) !in steps)
    ensures b < |Run(n, s, steps).value.batches| && Run(n, s, steps).value.batches[b] == s.batches[b]
    decreases |steps|
  {
    hide Shape, Step;
    if steps != [] {
      StepShape(n, s, steps[0]);
      HandOverOf(n, s);
      StepSpares(n, s, steps[0], b);
      RunSpares(n, Step(n, s, steps[0]).value, steps[1..], b);
    }
  }

  lemma StepKeepsLive<T>(n: nat, s: State<T>, a: Action<T>, b: nat)
    requires ValidSize(n) && Step(n, s, a).Some? && b < |s.batches| && s.batches[b].Live() && a != Deoccupy(b)
    ensures var t := Step(n, s, a).value;
            b < |t.batches| && t.batches[b].Live() && t.batches[b].start == s.batches[b].start
  {
  }

  /** A batch that nobody gives back stays live. */
  lemma {:induction false} RunKeepsLive<T>(n: nat, s: State<T>, steps: seq<Action<T>>, b: nat)
    requires ValidSize(n) && Run(n, s, steps).Some? && b < |s.batches| && s.batches[b].Live()
    requires Deoccupy(b) !in steps
    ensures var t := Run(n, s, steps).value;
            b < |t.batches| && t.batches[b].Live() && t.batches[b].start == s.batches[b].start
    decreases |steps|
  {
    hide Step;
    if steps != [] {
      StepKeepsLive(n, s, steps[0], b);
      RunKeepsLive(n, Step(n, s, steps[0]).value, steps[1..], b);
    }
  }

  /** As long as a batch that starts in a region is live, no push gets into that region again. */
  lemma NoEntryWhereLive<T>(n: nat, s: State<T>, t: State<T>, b: nat)
    requires ValidSize(n) && Contiguous(s) && Protected(n, t) && b < |s.batches| && b < |t.batches|
    requires t.batches[b].Live() && t.batches[b].start == s.batches[b].start && InTheWay(n, s, b)
    ensures Total(t) <= Total(s)
  {
    hide RegionOf, RegionStart;
    var start := s.batches[b].start;
    if Total(t) > Total(s) {
      SameRegionSameStretch(n, start, Total(s));
      StartsBefore(n, start);
    }
  }

  lemma StartsBefore(n: nat, w: nat)
    requires ValidSize(n)
    ensures RegionStart(n, w) <= w
  {
  }

  /** Where a batch is open and stays so, no batch is opened. */
  lemma OpenAdmitsNoOther<T>(t: State<T>, b: nat)
    requires Contiguous(t) && b < |t.batches| && !t.batches[b].Ended()
    ensures |t.batches| == b + 1
  {
  }

  /** Where none is open, a task that gets in opens one. */
  lemma NoneOpenOpens<T>(n: nat, s: State<T>, steps: seq<Action<T>>, t: State<T>)
    requires ValidSize(n) && Shape(n, s) && Shape(n, t) && Run(n, s, steps) == Some(t)
    requires !HasOpen(s) && Total(t) > Total(s)
    ensures |t.batches| > |s.batches|
  {
    hide SlotsTrack, OwnerTracks, HandOverTracks, PhaseTracks, GuardsTrack, Run;
    if s.batches != [] {
      ClosedBatchesAreForever(n, s, steps, |s.batches| - 1);
    }
  }

  /** The next push begins a region, and batch b is live and starts in that region. */
  ghost predicate InTheWay<T>(n: nat, s: State<T>, b: nat)
    requires ValidSize(n) && b < |s.batches|
  {
    && s.batches[b].Live() && RegionStart(n, Total(s)) == Total(s)
    && RegionOf(n, Total(s)) == RegionOf(n, s.batches[b].start)
  }

  /** The answer a push must give, by what it found and what the others did meanwhile. */
  ghost predicate Decided<T>(n: nat, s: State<T>, t: State<T>, outcome: Outcome<T>,
                             closed: iset<nat>, released: iset<nat>)
    requires ValidSize(n)
  {
    // batches that others leave alone are left alone
    && (forall b: nat :: b < |s.batches| && b !in closed && b !in released ==>
          b < |t.batches| && t.batches[b] == s.batches[b])
    // a live batch in the region to be entered, which others do not give back, refuses the push
    && (forall b: nat :: b < |s.batches| && InTheWay(n, s, b) && b !in released ==> outcome.Rejected?)
    // otherwise the task joins an open batch that others do not close, and opens one if there is none
    && (!outcome.Rejected? && HasOpen(s) && |s.batches| - 1 !in closed ==> outcome.Joined?)
    && (!outcome.Rejected? && !HasOpen(s) ==> outcome.Opened?)
  }

  /** A push in which others close and give back nothing: it is refused exactly when a live batch is
      in the way, else it joins exactly when a batch is open; and no batch but a new one changes. */
  lemma LeftAlone<T>(n: nat, s: State<T>, t: State<T>, outcome: Outcome<T>)
    requires ValidSize(n) && Decided(n, s, t, outcome, iset{}, iset{}) && outcome != Nothing
    requires outcome.Rejected? ==>
               RegionStart(n, Total(s)) == Total(s) && CountIn(n, s.batches, RegionOf(n, Total(s))) > 0
    ensures outcome.Rejected? <==> exists b: nat :: b < |s.batches| && InTheWay(n, s, b)
    ensures outcome.Joined? <==> !outcome.Rejected? && HasOpen(s)
    ensures s.batches <= t.batches
  {
    hide RegionOf, RegionStart, CountIn;
    if outcome.Rejected? {
      var r := RegionOf(n, Total(s));
      CountZero(n, s.batches, r);
      var b :| 0 <= b < |s.batches| && s.batches[b].InWord() && RegionOf(n, s.batches[b].start) == r;
      assert InTheWay(n, s, b);
    }
    assert |s.batches| > 0 ==> |s.batches| - 1 < |t.batches|;
  }

  /** What the queue and the outcome show of each other after a push. */
  ghost predicate Ends<T>(s: State<T>, t: State<T>, outcome: Outcome<T>) {
    match outcome
    case Nothing => false
    case Joined => |t.batches| == |s.batches| && Total(t) == Total(s) + 1
    case Opened(_) => |t.batches| == |s.batches| + 1 && Total(t) == Total(s) + 1
    case Rejected(_) => |t.batches| == |s.batches| && t.pushed == s.pushed
  }

  lemma RunDecides<T>(n: nat, s: State<T>, steps: seq<Action<T>>, t: State<T>, outcome: Outcome<T>,
                      closed: iset<nat>, released: iset<nat>)
    requires ValidSize(n) && Inv(n, s) && Inv(n, t) && Run(n, s, steps) == Some(t)
    requires s.owner.Idle? && Ends(s, t, outcome)
    requires forall b: nat :: (Close(b) in steps ==> b in closed) && (Deoccupy(b) in steps ==> b in released)
    ensures Decided(n, s, t, outcome, closed, released)
  {
    hide Inv, Run, RegionOf, RegionStart;
    PartsOf(n, s);
    PartsOf(n, t);
    forall b: nat | b < |s.batches| && b !in closed && b !in released
      ensures b < |t.batches| && t.batches[b] == s.batches[b]
    {
      RunSpares(n, s, steps, b);
    }
    forall b: nat | b < |s.batches| && InTheWay(n, s, b) && b !in released
      ensures outcome.Rejected?
    {
      RunKeepsLive(n, s, steps, b);
      NoEntryWhereLive(n, s, t, b);
    }
    if !outcome.Rejected? && HasOpen(s) && |s.batches| - 1 !in closed {
      RunSpares(n, s, steps, |s.batches| - 1);
      OpenAdmitsNoOther(t, |s.batches| - 1);
    }
    if !outcome.Rejected? && !HasOpen(s) {
      NoneOpenOpens(n, s, steps, t);
    }
  }

  lemma PartsOf<T>(n: nat, s: State<T>)
    requires ValidSize(n) && Inv(n, s)
    ensures Shape(n, s) && Contiguous(s) && Protected(n, s)
    ensures s.owner.Idle? ==> forall b :: 0 <= b < |s.batches| ==>
              !s.batches[b].status.Forming? && !s.batches[b].status.Counted?
  {
  }

  // ---------------------------------------------------------------- whose steps a push consists of

  /** Own turns are none of the holders', and all others are at the numbered points. */
  ghost predicate OwnerAnd<A>(env: nat -> seq<A>, byHolders: A -> bool, turns: seq<Turn<A>>) {
    forall i :: 0 <= i < |turns| ==>
      match turns[i]
      case Own(a) => !byHolders(a)
      case Others(schedule) => exists k: nat :: schedule == env(k)
  }

  lemma TwoTurns<A>(env: nat -> seq<A>, byHolders: A -> bool, k: nat, a: A)
    requires !byHolders(a)
    ensures OwnerAnd(env, byHolders, [Others(env(k)), Own(a)])
  {
  }

  lemma PushIsOwnerAnd<T, A>(env: nat -> seq<A>, own: Action<T> -> A, byHolders: A -> bool, task: T, slow: bool,
                             outcome: Outcome<T>)
    requires !byHolders(own(Begin(task))) && !byHolders(own(Load)) && !byHolders(own(StoreLoaded))
    requires !byHolders(own(Write)) && !byHolders(own(AddSlot)) && !byHolders(own(ReplaceSlot))
    requires !byHolders(own(Occupy)) && !byHolders(own(StoreOccupied))
    ensures OwnerAnd(env, byHolders, PushTurns(env, own, task, slow, outcome))
  {
    TwoTurns(env, byHolders, 0, own(Begin(task)));
    TwoTurns(env, byHolders, 1, own(Load));
    TwoTurns(env, byHolders, 2, own(StoreLoaded));
    TwoTurns(env, byHolders, 3, own(Write));
    TwoTurns(env, byHolders, 4, own(AddSlot));
    TwoTurns(env, byHolders, 5, own(ReplaceSlot));
    TwoTurns(env, byHolders, 6, own(Occupy));
    TwoTurns(env, byHolders, 7, own(StoreOccupied));
  }

  predicate IsGuardStep<T>(a: Action<T>) {
    a.Close? || a.Deoccupy?
  }

  /** The closings and releases in a push are those that others scheduled. */
  lemma OnlyScheduled<T>(n: nat, s: State<T>, env: nat -> seq<Action<T>>, turns: seq<Turn<Action<T>>>, a: Action<T>)
    requires ValidSize(n) && OwnerAnd(env, IsGuardStep, turns) && IsGuardStep(a) && a in Weave(Mover<T>(n), s, turns)
    ensures exists k: nat :: a in env(k)
  {
    hide Weave;
    WeaveSources(Mover<T>(n), s, turns, a);
    var i :| 0 <= i < |turns| && match turns[i] case Own(b) => b == a case Others(schedule) => a in schedule;
    assert turns[i].Others?;
    var k: nat :| turns[i].schedule == env(k);
  }

  lemma PushDecides<T>(n: nat, s: State<T>, env: nat -> seq<Action<T>>, task: T, slow: bool, outcome: Outcome<T>,
                       t: State<T>)
    requires ValidSize(n) && Inv(n, s) && Inv(n, t) && s.owner.Idle? && Ends(s, t, outcome)
    requires Played(Mover<T>(n), s, PushTurns(env, Plain, task, slow, outcome), t)
    ensures Decided(n, s, t, outcome, Scheduled(env, b => Close(b)), Scheduled(env, b => Deoccupy(b)))
  {
    hide Inv, Run, RunOf, Decided, Ends, Weave, PushTurns;
    var turns := PushTurns(env, Plain, task, slow, outcome);
    PushIsOwnerAnd(env, Plain, IsGuardStep, task, slow, outcome);
    var steps := Weave(Mover<T>(n), s, turns);
    forall b: nat
      ensures Close(b) in steps ==> b in Scheduled(env, b => Close(b))
      ensures Deoccupy(b) in steps ==> b in Scheduled(env, b => Deoccupy(b))
    {
      if Close(b) in steps {
        OnlyScheduled(n, s, env, turns, Close(b));
      }
      if Deoccupy(b) in steps {
        OnlyScheduled(n, s, env, turns, Deoccupy(b));
      }
    }
    MovesAreARun(n, s, steps);
    RunDecides(n, s, steps, t, outcome, Scheduled(env, b => Close(b)), Scheduled(env, b => Deoccupy(b)));
  }
}
