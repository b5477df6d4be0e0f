/** Handing a value from the resolver of a task to its receiver, which may be polled, or dropped
    at any moment (crates/stack-queue/src/task.rs). Each atomic operation on the flag word, and
    each access to the receiver's memory, is one step. */
module Handoff {
  import opened Wrappers

  const SETTING_VALUE: bv64 := 1
  const VALUE_SET: bv64 := 2
  const RX_DROPPED: bv64 := 4

  datatype Memory<+V> = Uninit | Init(value: V)

  /** The receiver waits, spins in its drop (with the flags last seen), has yielded its value, or
      is deallocated. */
  datatype Receiver = Batched | Dropping(seen: bv64) | Received | Gone

  /** The steps of `resolve_unchecked`. */
  datatype Resolver = Before | Claimed | Stored | Woken | Finished | Skipped

  /** What has become of the value so far. */
  datatype Ledger = Ledger(writes: nat, taken: nat, dropsByReceiver: nat, dropsByResolver: nat)

  datatype State<V> = State(
    flags: bv64, memory: Memory<V>, receiver: Receiver, resolver: Resolver, woken: bool,
    recycled: bool, fault: bool, ledger: Ledger, output: Memory<V>)

  datatype Action = FetchOr | StoreValue | Wake | FetchXor | Poll | BeginDrop | SpinLoad | FinishDrop | Recycle

  /** What the surroundings promise: a batched future is polled only once woken; a cell is used
      for another task only once its receiver is done. */
  datatype Policy = Policy(pollOnlyAfterWake: bool, recycleOnlyAfterReceiver: bool)

  function Initial<V>(): State<V> {
    State(0, Uninit, Batched, Before, false, false, false, Ledger(0, 0, 0, 0), Uninit)
  }

  predicate Allocated(receiver: Receiver) {
    receiver.Batched? || receiver.Dropping?
  }

  predicate Done(receiver: Receiver) {
    receiver.Received? || receiver.Gone?
  }

  predicate ByReceiver(a: Action) {
    a.Poll? || a.BeginDrop? || a.SpinLoad? || a.FinishDrop?
  }

  predicate ByResolver(a: Action) {
    a.FetchOr? || a.StoreValue? || a.Wake? || a.FetchXor?
  }

  /** Nobody is at work on the cell any more, whether its task was resolved or not. */
  predicate Retired<V>(s: State<V>) {
    Done(s.receiver) && AtRest(s.resolver)
  }

  predicate AtRest(resolver: Resolver) {
    resolver.Before? || resolver.Finished? || resolver.Skipped?
  }

  /** One step; `fault` records an access to memory that is not there, to a value that is not
      there or already is, or to the flags of another task. */
  function Step<V>(policy: Policy, needsDrop: bool, value: V, s: State<V>, a: Action): Option<State<V>> {
    match a
    case FetchOr =>
      if !s.resolver.Before? || s.recycled then None
      else if s.flags & RX_DROPPED == 0 then Some(s.(flags := s.flags | SETTING_VALUE, resolver := Claimed))
      else Some(s.(flags := s.flags | SETTING_VALUE, resolver := Skipped,
                   ledger := s.ledger.(dropsByResolver := s.ledger.dropsByResolver + 1)))
    case StoreValue =>
      if !s.resolver.Claimed? then None
      else Some(s.(memory := Init(value), resolver := Stored,
                   fault := s.fault || !Allocated(s.receiver) || s.memory.Init?,
                   ledger := s.ledger.(writes := s.ledger.writes + 1)))
    case Wake =>
      if !s.resolver.Stored? then None
      else Some(s.(woken := true, resolver := Woken, fault := s.fault || !Allocated(s.receiver)))
    case FetchXor =>
      if !s.resolver.Woken? then None
      else Some(s.(flags := s.flags ^ (SETTING_VALUE | VALUE_SET), resolver := Finished))
    case Recycle =>
      if s.recycled || !AtRest(s.resolver) || (policy.recycleOnlyAfterReceiver && !Done(s.receiver)) then None
      else Some(s.(flags := 0, recycled := true))
    case _ => ReceiverStep(policy, needsDrop, s, a)
  }

  function ReceiverStep<V>(policy: Policy, needsDrop: bool, s: State<V>, a: Action): Option<State<V>> {
    match a
    case Poll =>
      if !s.receiver.Batched? || (policy.pollOnlyAfterWake && !s.woken) then None
      else Some(s.(receiver := Received, output := s.memory, memory := Uninit,
                   fault := s.fault || s.memory.Uninit?,
                   ledger := s.ledger.(taken := s.ledger.taken + 1)))
    case BeginDrop =>
      if !s.receiver.Batched? then None
      else Some(s.(receiver := Dropping(s.flags), flags := s.flags | RX_DROPPED, fault := s.fault || s.recycled))
    case SpinLoad =>
      if !(s.receiver.Dropping? && s.receiver.seen & SETTING_VALUE == SETTING_VALUE) then None
      else Some(s.(receiver := Dropping(s.flags), fault := s.fault || s.recycled))
    case FinishDrop =>
      if !(s.receiver.Dropping? && s.receiver.seen & SETTING_VALUE == 0) then None
      else if needsDrop && s.receiver.seen & VALUE_SET == VALUE_SET
      then Some(s.(receiver := Gone, memory := Uninit, fault := s.fault || s.memory.Uninit?,
                   ledger := s.ledger.(dropsByReceiver := s.ledger.dropsByReceiver + 1)))
      else Some(s.(receiver := Gone))
    case _ => None
  }

  function Run<V>(policy: Policy, needsDrop: bool, value: V, s: State<V>, actions: seq<Action>): Option<State<V>>
    decreases |actions|
  {
    if actions == [] then Some(s)
    else
      match Step(policy, needsDrop, value, s, actions[0])
      case None => None
      case Some(next) => Run(policy, needsDrop, value, next, actions[1..])
  }

  // ---------------------------------------------------------------- invariant

  predicate Setting(r: Resolver) {
    r.Claimed? || r.Stored? || r.Woken? || r.Skipped?
  }

  function FlagsFor<V>(s: State<V>): bv64 {
    (if Setting(s.resolver) then SETTING_VALUE else 0)
    | (if s.resolver.Finished? then VALUE_SET else 0)
    | (if s.receiver.Dropping? || s.receiver.Gone? then RX_DROPPED else 0)
  }

  /** What the receiver last saw tells how far the resolver is. */
  predicate SeenTells(seen: bv64, r: Resolver) {
    if seen & SETTING_VALUE == SETTING_VALUE then r.Claimed? || r.Stored? || r.Woken? || r.Finished?
    else if seen & VALUE_SET == VALUE_SET then r.Finished?
    else r.Before? || r.Skipped?
  }

  ghost predicate ReceiverTracks<V>(s: State<V>) {
    match s.receiver
    case Batched => !s.resolver.Skipped?
    case Dropping(seen) => SeenTells(seen, s.resolver)
    case Received => s.resolver.Woken? || s.resolver.Finished?
    case Gone => s.resolver.Before? || s.resolver.Skipped? || s.resolver.Finished?
  }

  ghost predicate MemoryTracks<V>(value: V, s: State<V>) {
    && (s.resolver.Before? || s.resolver.Claimed? || s.resolver.Skipped? ==> s.memory == Uninit)
    && (Allocated(s.receiver) && s.woken ==> s.memory == Init(value))
    && (Allocated(s.receiver) && s.resolver.Stored? ==> s.memory == Init(value))
    && (s.woken <==> s.resolver.Woken? || s.resolver.Finished?)
    && s.output == if s.receiver.Received? then Init(value) else Uninit
  }

  ghost predicate LedgerTracks<V>(needsDrop: bool, s: State<V>) {
    && s.ledger.writes == (if s.resolver.Stored? || s.resolver.Woken? || s.resolver.Finished? then 1 else 0)
    && s.ledger.taken == (if s.receiver.Received? then 1 else 0)
    && s.ledger.dropsByResolver == (if s.resolver.Skipped? then 1 else 0)
    && s.ledger.dropsByReceiver == (if needsDrop && s.receiver.Gone? && s.resolver.Finished? then 1 else 0)
  }

  ghost predicate Inv<V>(needsDrop: bool, value: V, s: State<V>) {
    && !s.fault
    && (!s.recycled ==> s.flags == FlagsFor(s))
    && (s.recycled ==> Retired(s))
    && ReceiverTracks(s) && MemoryTracks(value, s) && LedgerTracks(needsDrop, s)
  }

  lemma FetchOrInv<V>(policy: Policy, needsDrop: bool, value: V, s: State<V>)
    requires Inv(needsDrop, value, s) && Step(policy, needsDrop, value, s, FetchOr).Some?
    ensures Inv(needsDrop, value, Step(policy, needsDrop, value, s, FetchOr).value)
  {
    if s.flags & RX_DROPPED == 0 {
      assert !s.receiver.Dropping? && !s.receiver.Gone?;
    }
  }

  lemma StoreAndWakeInv<V>(policy: Policy, needsDrop: bool, value: V, s: State<V>, a: Action)
    requires Inv(needsDrop, value, s) && Step(policy, needsDrop, value, s, a).Some? && (a.StoreValue? || a.Wake?)
    ensures Inv(needsDrop, value, Step(policy, needsDrop, value, s, a).value)
  {
  }

  lemma FetchXorInv<V>(policy: Policy, needsDrop: bool, value: V, s: State<V>)
    requires Inv(needsDrop, value, s) && Step(policy, needsDrop, value, s, FetchXor).Some?
    ensures Inv(needsDrop, value, Step(policy, needsDrop, value, s, FetchXor).value)
  {
    assert s.flags & VALUE_SET == 0 && s.flags & SETTING_VALUE == SETTING_VALUE;
  }

  lemma ResolverStepInv<V>(policy: Policy, needsDrop: bool, value: V, s: State<V>, a: Action)
    requires Inv(needsDrop, value, s) && Step(policy, needsDrop, value, s, a).Some?
    requires ByResolver(a)
    ensures Inv(needsDrop, value, Step(policy, needsDrop, value, s, a).value)
  {
    hide Inv, Step;
    match a
    case FetchOr => FetchOrInv(policy, needsDrop, value, s);
    case StoreValue => StoreAndWakeInv(policy, needsDrop, value, s, a);
    case Wake => StoreAndWakeInv(policy, needsDrop, value, s, a);
    case FetchXor => FetchXorInv(policy, needsDrop, value, s);
  }

  lemma ReceiverStepInv<V>(policy: Policy, needsDrop: bool, value: V, s: State<V>, a: Action)
    requires policy.pollOnlyAfterWake && Inv(needsDrop, value, s) && Step(policy, needsDrop, value, s, a).Some?
    requires ByReceiver(a)
    ensures Inv(needsDrop, value, Step(policy, needsDrop, value, s, a).value)
  {
  }

  /** Under the two promises no step faults, and flags, memory and ledger stay consistent. */
  lemma StepInv<V>(policy: Policy, needsDrop: bool, value: V, s: State<V>, a: Action)
    requires policy.pollOnlyAfterWake && policy.recycleOnlyAfterReceiver
    requires Inv(needsDrop, value, s) && Step(policy, needsDrop, value, s, a).Some?
    ensures Inv(needsDrop, value, Step(policy, needsDrop, value, s, a).value)
  {
    hide Inv, Step;
    if a.Recycle? {
      RecycleInv(policy, needsDrop, value, s);
    } else if ByReceiver(a) {
      ReceiverStepInv(policy, needsDrop, value, s, a);
    } else {
      ResolverStepInv(policy, needsDrop, value, s, a);
    }
  }

  lemma RecycleInv<V>(policy: Policy, needsDrop: bool, value: V, s: State<V>)
    requires policy.recycleOnlyAfterReceiver && Inv(needsDrop, value, s)
    requires Step(policy, needsDrop, value, s, Recycle).Some?
    ensures Inv(needsDrop, value, Step(policy, needsDrop, value, s, Recycle).value)
  {
  }

  // ---------------------------------------------------------------- guarantees over all runs

  predicate Disciplined(policy: Policy) {
    policy.pollOnlyAfterWake && policy.recycleOnlyAfterReceiver
  }

  lemma {:induction false} RunInv<V>(policy: Policy, needsDrop: bool, value: V, s: State<V>, actions: seq<Action>)
    requires Disciplined(policy) && Inv(needsDrop, value, s) && Run(policy, needsDrop, value, s, actions).Some?
    ensures Inv(needsDrop, value, Run(policy, needsDrop, value, s, actions).value)
    decreases |actions|
  {
    if actions != [] {
      StepInv(policy, needsDrop, value, s, actions[0]);
      RunInv(policy, needsDrop, value, Step(policy, needsDrop, value, s, actions[0]).value, actions[1..]);
    }
  }

  ghost predicate Reached<V>(policy: Policy, needsDrop: bool, value: V, actions: seq<Action>, s: State<V>) {
    Run(policy, needsDrop, value, Initial(), actions) == Some(s)
  }

  lemma ReachedInv<V>(policy: Policy, needsDrop: bool, value: V, actions: seq<Action>, s: State<V>)
    requires Disciplined(policy) && Reached(policy, needsDrop, value, actions, s)
    ensures Inv(needsDrop, value, s)
  {
    RunInv(policy, needsDrop, value, Initial(), actions);
  }

  lemma RunOne<V>(policy: Policy, needsDrop: bool, value: V, s: State<V>, a: Action, rest: seq<Action>)
    ensures Step(policy, needsDrop, value, s, a).Some? ==>
              Run(policy, needsDrop, value, s, [a] + rest)
              == Run(policy, needsDrop, value, Step(policy, needsDrop, value, s, a).value, rest)
  {
    assert ([a] + rest)[1..] == rest;
  }

  /** A poll ahead of the wake reads a value that was never written. */
  lemma EarlyPollFaults<V>(policy: Policy, needsDrop: bool, value: V) returns (s: State<V>)
    requires !policy.pollOnlyAfterWake
    ensures Reached(policy, needsDrop, value, [Poll], s) && s.fault
  {
    RunOne(policy, needsDrop, value, Initial<V>(), Poll, []);
    s := Run(policy, needsDrop, value, Initial<V>(), [Poll] + []).value;
    assert [Poll] + [] == [Poll];
  }

  /** The resolver's four operations one after the other, with the receiver waiting. */
  lemma Resolved<V>(policy: Policy, needsDrop: bool, value: V, rest: seq<Action>) returns (s: State<V>)
    ensures s == State(VALUE_SET, Init(value), Batched, Finished, true, false, false, Ledger(1, 0, 0, 0), Uninit)
    ensures Run(policy, needsDrop, value, Initial<V>(), [FetchOr, StoreValue, Wake, FetchXor] + rest)
            == Run(policy, needsDrop, value, s, rest)
  {
    var s0 := Initial<V>();
    var s1 := Step(policy, needsDrop, value, s0, FetchOr).value;
    var s2 := Step(policy, needsDrop, value, s1, StoreValue).value;
    var s3 := Step(policy, needsDrop, value, s2, Wake).value;
    s := Step(policy, needsDrop, value, s3, FetchXor).value;
    RunOne(policy, needsDrop, value, s3, FetchXor, rest);
    RunOne(policy, needsDrop, value, s2, Wake, [FetchXor] + rest);
    RunOne(policy, needsDrop, value, s1, StoreValue, [Wake] + ([FetchXor] + rest));
    RunOne(policy, needsDrop, value, s0, FetchOr, [StoreValue] + ([Wake] + ([FetchXor] + rest)));
    assert [FetchOr, StoreValue, Wake, FetchXor] + rest == [FetchOr] + ([StoreValue] + ([Wake] + ([FetchXor] + rest)));
  }

  /** A receiver that outlives the use of its cell flags the drop to another task. */
  lemma EarlyRecycleFaults<V>(policy: Policy, needsDrop: bool, value: V) returns (s: State<V>)
    requires !policy.recycleOnlyAfterReceiver
    ensures Reached(policy, needsDrop, value, [FetchOr, StoreValue, Wake, FetchXor] + [Recycle, BeginDrop], s)
    ensures s.fault
  {
    var s4 := Resolved(policy, needsDrop, value, [Recycle, BeginDrop]);
    var s5 := Step(policy, needsDrop, value, s4, Recycle).value;
    s := Step(policy, needsDrop, value, s5, BeginDrop).value;
    RunOne(policy, needsDrop, value, s4, Recycle, [BeginDrop]);
    RunOne(policy, needsDrop, value, s5, BeginDrop, []);
    assert [Recycle, BeginDrop] == [Recycle] + [BeginDrop] && [BeginDrop] == [BeginDrop] + [];
  }

  /** In every interleaving the resolver touches the receiver only while it is allocated, the
      value is written at most once and never read or dropped where there is none, and a
      receiver flags only its own task, exactly when the surroundings keep both promises. */
  lemma SafeExactlyWhenDisciplined<V>(policy: Policy, needsDrop: bool, value: V)
    ensures Disciplined(policy) <==>
            forall actions, s: State<V> :: Reached(policy, needsDrop, value, actions, s) ==> !s.fault
  {
    if Disciplined(policy) {
      forall actions, s: State<V> | Reached(policy, needsDrop, value, actions, s)
        ensures !s.fault
      {
        ReachedInv(policy, needsDrop, value, actions, s);
      }
    } else if !policy.pollOnlyAfterWake {
      var s := EarlyPollFaults(policy, needsDrop, value);
    } else {
      var s := EarlyRecycleFaults(policy, needsDrop, value);
    }
  }

  /** A receiver that yields a value yields the resolver's. */
  lemma ReceiverGetsTheValue<V>(policy: Policy, needsDrop: bool, value: V, actions: seq<Action>, s: State<V>)
    requires Disciplined(policy) && Reached(policy, needsDrop, value, actions, s)
    ensures s.output == if s.receiver.Received? then Init(value) else Uninit
    ensures s.ledger.writes <= 1
  {
    hide FlagsFor, SeenTells, Step, Run;
    ReachedInv(policy, needsDrop, value, actions, s);
  }

  // ---------------------------------------------------------------- what becomes of the value

  function Disposals(ledger: Ledger): nat {
    ledger.taken + ledger.dropsByReceiver + ledger.dropsByResolver
  }

  /** Both sides are done with each other. */
  predicate Settled<V>(s: State<V>) {
    Done(s.receiver) && (s.resolver.Finished? || s.resolver.Skipped?)
  }

  lemma AtMostOneDisposal<V>(policy: Policy, needsDrop: bool, value: V, actions: seq<Action>, s: State<V>)
    requires Disciplined(policy) && Reached(policy, needsDrop, value, actions, s)
    ensures Disposals(s.ledger) <= 1
    ensures Settled(s) ==> (Disposals(s.ledger) == 0 <==> !needsDrop && s.receiver.Gone? && s.resolver.Finished?)
  {
    hide FlagsFor, SeenTells, Step, Run, ReceiverTracks, LedgerTracks, MemoryTracks, Disposals, Settled;
    ReachedInv(policy, needsDrop, value, actions, s);
    LedgerMeans(needsDrop, s);
  }

  lemma LedgerMeans<V>(needsDrop: bool, s: State<V>)
    requires ReceiverTracks(s) && LedgerTracks(needsDrop, s)
    ensures Disposals(s.ledger) <= 1
    ensures Settled(s) ==> (Disposals(s.ledger) == 0 <==> !needsDrop && s.receiver.Gone? && s.resolver.Finished?)
  {
    hide SeenTells;
  }

  /** A receiver that goes away unread with the value in place. */
  lemma DropAfterValue<V>(policy: Policy, needsDrop: bool, value: V) returns (s: State<V>)
    ensures Reached(policy, needsDrop, value, [FetchOr, StoreValue, Wake, FetchXor] + [BeginDrop, FinishDrop], s)
    ensures Settled(s) && Disposals(s.ledger) == if needsDrop then 1 else 0
  {
    var s4 := Resolved(policy, needsDrop, value, [BeginDrop, FinishDrop]);
    var s5 := Step(policy, needsDrop, value, s4, BeginDrop).value;
    s := Step(policy, needsDrop, value, s5, FinishDrop).value;
    RunOne(policy, needsDrop, value, s4, BeginDrop, [FinishDrop]);
    RunOne(policy, needsDrop, value, s5, FinishDrop, []);
    assert [BeginDrop, FinishDrop] == [BeginDrop] + [FinishDrop] && [FinishDrop] == [FinishDrop] + [];
  }

  /** The code asks whether tasks need dropping where the value is dropped. So every value that
      needs dropping is read or dropped exactly once, in all runs, exactly when a value that
      needs dropping comes with a task that does. */
  lemma NoLeakExactlyWhenNeedsAgree<V>(policy: Policy, taskNeedsDrop: bool, valueNeedsDrop: bool, value: V)
    requires Disciplined(policy)
    ensures (valueNeedsDrop ==> taskNeedsDrop) <==>
            forall actions, s: State<V> ::
              Reached(policy, taskNeedsDrop, value, actions, s) && Settled(s) && valueNeedsDrop ==>
                Disposals(s.ledger) == 1
  {
    if valueNeedsDrop ==> taskNeedsDrop {
      forall actions, s: State<V> | Reached(policy, taskNeedsDrop, value, actions, s) && Settled(s) && valueNeedsDrop
        ensures Disposals(s.ledger) == 1
      {
        AtMostOneDisposal(policy, taskNeedsDrop, value, actions, s);
      }
    } else {
      var s := DropAfterValue(policy, taskNeedsDrop, value);
    }
  }

  // ---------------------------------------------------------------- the spin

  predicate Spinning<V>(s: State<V>) {
    s.receiver.Dropping? && s.receiver.seen & SETTING_VALUE == SETTING_VALUE
  }

  /** The steps the resolver has left. */
  function Remaining(r: Resolver): seq<Action> {
    match r
    case Before => [FetchOr, StoreValue, Wake, FetchXor]
    case Claimed => [StoreValue, Wake, FetchXor]
    case Stored => [Wake, FetchXor]
    case Woken => [FetchXor]
    case _ => []
  }

  /** While the receiver spins, the resolver is between its two flag operations or already past
      them; the value flag it left set when it skipped a dropped receiver is never spun on. */
  lemma SpinMeansResolving<V>(policy: Policy, needsDrop: bool, value: V, actions: seq<Action>, s: State<V>)
    requires Disciplined(policy) && Reached(policy, needsDrop, value, actions, s) && Spinning(s)
    ensures s.resolver.Claimed? || s.resolver.Stored? || s.resolver.Woken? || s.resolver.Finished?
    ensures s.resolver.Finished? <==> s.flags & SETTING_VALUE == 0
  {
    hide Step, Run;
    ReachedInv(policy, needsDrop, value, actions, s);
  }

  /** Each resolver step leaves fewer; no other step adds any. */
  lemma RemainingShrinks<V>(policy: Policy, needsDrop: bool, value: V, s: State<V>, a: Action)
    requires Step(policy, needsDrop, value, s, a).Some?
    ensures var t := Step(policy, needsDrop, value, s, a).value;
            if ByResolver(a)
            then |Remaining(t.resolver)| < |Remaining(s.resolver)| else t.resolver == s.resolver
  {
  }

  /** How many of the steps are the resolver's. */
  function ResolverSteps(actions: seq<Action>): nat {
    if actions == [] then 0 else (if ByResolver(actions[0]) then 1 else 0) + ResolverSteps(actions[1..])
  }

  lemma {:induction false} RemainingAfter<V>(policy: Policy, needsDrop: bool, value: V, s: State<V>,
                                             actions: seq<Action>)
    requires Run(policy, needsDrop, value, s, actions).Some?
    ensures |Remaining(Run(policy, needsDrop, value, s, actions).value.resolver)| + ResolverSteps(actions)
            <= |Remaining(s.resolver)|
    decreases |actions|
  {
    hide Step, Remaining;
    if actions != [] {
      RemainingShrinks(policy, needsDrop, value, s, actions[0]);
      RemainingAfter(policy, needsDrop, value, Step(policy, needsDrop, value, s, actions[0]).value, actions[1..]);
    }
  }

  /** The spin ends under every interleaving: whatever steps are taken by whom, once the resolver
      has taken those it had left, at most three, the next look at the flags ends the spin. */
  lemma SpinEndsInEveryRun<V>(policy: Policy, needsDrop: bool, value: V, before: seq<Action>, s: State<V>,
                              actions: seq<Action>, t: State<V>)
    requires Disciplined(policy) && Reached(policy, needsDrop, value, before, s) && Spinning(s)
    requires Run(policy, needsDrop, value, s, actions) == Some(t) && Step(policy, needsDrop, value, t, SpinLoad).Some?
    ensures |Remaining(s.resolver)| <= 3 && ResolverSteps(actions) <= |Remaining(s.resolver)|
    ensures ResolverSteps(actions) == |Remaining(s.resolver)| ==>
              var u := Step(policy, needsDrop, value, t, SpinLoad).value;
              !Spinning(u) && Step(policy, needsDrop, value, u, FinishDrop).Some?
  {
    ReachedInv(policy, needsDrop, value, before, s);
    SpinTells(needsDrop, value, s);
    RemainingAfter(policy, needsDrop, value, s, actions);
    RunInv(policy, needsDrop, value, s, actions);
    LastLook(policy, needsDrop, value, t);
  }

  lemma LastLook<V>(policy: Policy, needsDrop: bool, value: V, s: State<V>)
    requires Inv(needsDrop, value, s) && Step(policy, needsDrop, value, s, SpinLoad).Some?
    ensures Remaining(s.resolver) == [] ==>
              var u := Step(policy, needsDrop, value, s, SpinLoad).value;
              !Spinning(u) && Step(policy, needsDrop, value, u, FinishDrop).Some?
  {
  }

  /** And it can always be brought to its end: from every spinning state the resolver's remaining
      steps, at most three, and one more look at the
      flags end the spin, and the drop completes. */
  lemma SpinEnds<V>(policy: Policy, needsDrop: bool, value: V, actions: seq<Action>, s: State<V>)
    requires Disciplined(policy) && Reached(policy, needsDrop, value, actions, s) && Spinning(s)
    ensures |Remaining(s.resolver)| <= 3
    ensures var t := Run(policy, needsDrop, value, s, Remaining(s.resolver) + [SpinLoad, FinishDrop]);
            t.Some? && t.value.receiver.Gone?
  {
    ReachedInv(policy, needsDrop, value, actions, s);
    FinishSpin(policy, needsDrop, value, s);
  }

  lemma SpinTells<V>(needsDrop: bool, value: V, s: State<V>)
    requires Inv(needsDrop, value, s) && Spinning(s)
    ensures s.resolver.Claimed? || s.resolver.Stored? || s.resolver.Woken? || s.resolver.Finished?
  {
  }

  /** The resolver is done: the next look at the flags ends the spin. */
  lemma SpinOver<V>(policy: Policy, needsDrop: bool, value: V, s: State<V>)
    requires Inv(needsDrop, value, s) && Spinning(s) && Remaining(s.resolver) == []
    ensures var t := Run(policy, needsDrop, value, s, [SpinLoad] + [FinishDrop]);
            t.Some? && t.value.receiver.Gone?
  {
    var s1 := Step(policy, needsDrop, value, s, SpinLoad).value;
    RunOne(policy, needsDrop, value, s, SpinLoad, [FinishDrop]);
    RunOne(policy, needsDrop, value, s1, FinishDrop, []);
    assert [FinishDrop] == [FinishDrop] + [];
  }

  lemma {:induction false} FinishSpin<V>(policy: Policy, needsDrop: bool, value: V, s: State<V>)
    requires Disciplined(policy) && Inv(needsDrop, value, s) && Spinning(s)
    ensures var t := Run(policy, needsDrop, value, s, Remaining(s.resolver) + [SpinLoad, FinishDrop]);
            t.Some? && t.value.receiver.Gone?
    decreases |Remaining(s.resolver)|
  {
    hide Inv, Run;
    SpinTells(needsDrop, value, s);
    var rest := Remaining(s.resolver);
    if rest == [] {
      SpinOver(policy, needsDrop, value, s);
      assert rest + [SpinLoad, FinishDrop] == [SpinLoad] + [FinishDrop];
    } else {
      var next := Step(policy, needsDrop, value, s, rest[0]).value;
      StepInv(policy, needsDrop, value, s, rest[0]);
      RunOne(policy, needsDrop, value, s, rest[0], rest[1..] + [SpinLoad, FinishDrop]);
      assert rest + [SpinLoad, FinishDrop] == [rest[0]] + (rest[1..] + [SpinLoad, FinishDrop]);
      assert Remaining(next.resolver) == rest[1..];
      FinishSpin(policy, needsDrop, value, next);
    }
  }
}
