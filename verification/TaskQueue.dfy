/** The cells of a task queue (crates/stack-queue/src/task.rs): each holds a task and the flags its
    resolver and its receiver share, changed in place by one atomic operation at a time. */
module TaskQueue {
  import opened Wrappers
  import opened Helpers
  import opened Handoff

  const KEPT := Policy(true, true)

  /** The task is enqueued and nobody has begun to resolve it; its receiver may have gone. */
  ghost predicate Unresolved<V>(needsDrop: bool, link: State<V>) {
    && link.resolver.Before? && !link.fault && !link.recycled && link.flags == FlagsFor(link)
    && ReceiverTracks(link) && LedgerTracks(needsDrop, link)
    && link.memory == Uninit && link.output == Uninit && !link.woken
  }

  /** Such a link is fine whatever value it is going to be resolved with. */
  lemma UnresolvedIsOpen<V>(needsDrop: bool, link: State<V>, v: V)
    ensures Unresolved(needsDrop, link) <==> link.resolver.Before? && !link.recycled && Inv(needsDrop, v, link)
  {
  }

  /** The task was resolved with v. A waiting receiver is woken and has the value at hand, one
      that was polled since has yielded it, and one that was dropped is not touched any more. */
  ghost predicate ResolvedWith<V>(needsDrop: bool, v: V, link: State<V>) {
    && Inv(needsDrop, v, link)
    && match link.receiver
       case Batched => link.resolver.Finished? && link.woken && link.memory == Init(v)
       case Received => link.resolver.Finished? && link.output == Init(v)
       case Dropping(_) => link.resolver.Finished? || link.resolver.Skipped?
       case Gone => (link.resolver.Finished? || link.resolver.Skipped?) && (needsDrop ==> Disposals(link.ledger) == 1)
  }

  lemma WhatResolvedMeans<V>(needsDrop: bool, v: V, link: State<V>)
    ensures ResolvedWith(needsDrop, v, link) <==>
            Inv(needsDrop, v, link) && (link.resolver.Finished? || link.resolver.Skipped?)
  {
  }

  /** The link of a cell no task has used yet. */
  function Vacant<V>(): State<V> {
    Initial().(receiver := Gone, recycled := true)
  }

  // ---------------------------------------------------------------- while others are at work

  /** What the resolver of a link can rely on while its receiver is polled or dropped. */
  ghost predicate LinkKept<V(!new)>(needsDrop: bool, before: State<V>, after: State<V>) {
    && after.resolver == before.resolver
    && (Unresolved(needsDrop, before) ==> Unresolved(needsDrop, after))
    && (forall v :: Inv(needsDrop, v, before) ==> Inv(needsDrop, v, after))
  }

  lemma ReceiverKeepsLink<V(!new)>(needsDrop: bool, link: State<V>, a: Action)
    requires ReceiverStep(KEPT, needsDrop, link, a).Some?
    ensures LinkKept(needsDrop, link, ReceiverStep(KEPT, needsDrop, link, a).value)
  {
    hide Inv, Unresolved;
    var after := ReceiverStep(KEPT, needsDrop, link, a).value;
    forall v | Inv(needsDrop, v, link)
      ensures Inv(needsDrop, v, after)
    {
      ReceiverStepInv(KEPT, needsDrop, v, link, a);
    }
    if Unresolved(needsDrop, link) {
      ReceiverKeepsUnresolved(needsDrop, link, a);
    }
  }

  lemma ReceiverKeepsUnresolved<V>(needsDrop: bool, link: State<V>, a: Action)
    requires Unresolved(needsDrop, link) && ReceiverStep(KEPT, needsDrop, link, a).Some?
    ensures Unresolved(needsDrop, ReceiverStep(KEPT, needsDrop, link, a).value)
  {
  }

  lemma KeptStaysResolved<V(!new)>(needsDrop: bool, v: V, before: State<V>, after: State<V>)
    requires ResolvedWith(needsDrop, v, before) && LinkKept(needsDrop, before, after)
    ensures ResolvedWith(needsDrop, v, after)
  {
    hide Inv, ResolvedWith, Unresolved;
    WhatResolvedMeans(needsDrop, v, before);
    WhatResolvedMeans(needsDrop, v, after);
  }

  /** A link that is all right, with whatever value it has or is going to have. */
  ghost predicate Sound<V(!new)>(needsDrop: bool, link: State<V>) {
    Unresolved(needsDrop, link) || link == Vacant() || exists v :: Inv(needsDrop, v, link)
  }

  lemma SoundHasNoFault<V(!new)>(needsDrop: bool, link: State<V>)
    requires Sound(needsDrop, link)
    ensures !link.fault
  {
  }

  lemma ReceiverKeepsSound<V(!new)>(needsDrop: bool, link: State<V>, a: Action)
    requires Sound(needsDrop, link) && ReceiverStep(KEPT, needsDrop, link, a).Some?
    ensures Sound(needsDrop, ReceiverStep(KEPT, needsDrop, link, a).value)
  {
    hide Inv, Unresolved;
    assert link != Vacant();
    ReceiverKeepsLink(needsDrop, link, a);
  }

  /** Nothing is fixed about the value before it is written. */
  lemma ResolverKeepsSound<V(!new)>(needsDrop: bool, v: V, link: State<V>, a: Action)
    requires Sound(needsDrop, link) && ByResolver(a) && Step(KEPT, needsDrop, v, link, a).Some?
    ensures Sound(needsDrop, Step(KEPT, needsDrop, v, link, a).value)
  {
    hide Step, Unresolved;
    var next := Step(KEPT, needsDrop, v, link, a).value;
    NothingOnVacant(needsDrop, v, link, a);
    var w := v;
    if Unresolved(needsDrop, link) {
      UnresolvedIsOpen(needsDrop, link, v);
    } else {
      w :| Inv(needsDrop, w, link);
      if a.StoreValue? {
        UnwrittenIsOpen(needsDrop, v, w, link);
        w := v;
      }
    }
    OnlyStoreWrites(needsDrop, v, w, link, a);
    ResolverStepInv(KEPT, needsDrop, w, link, a);
  }

  lemma NothingOnVacant<V>(needsDrop: bool, v: V, link: State<V>, a: Action)
    requires ByResolver(a) && Step(KEPT, needsDrop, v, link, a).Some?
    ensures link != Vacant() && (a.StoreValue? ==> link.resolver.Claimed?)
  {
  }

  lemma UnwrittenIsOpen<V>(needsDrop: bool, v: V, w: V, link: State<V>)
    requires Inv(needsDrop, w, link) && link.resolver.Claimed?
    ensures Inv(needsDrop, v, link)
  {
  }

  lemma OnlyStoreWrites<V>(needsDrop: bool, v: V, w: V, link: State<V>, a: Action)
    requires a.StoreValue? ==> v == w
    ensures Step(KEPT, needsDrop, v, link, a) == Step(KEPT, needsDrop, w, link, a)
  {
  }

  // ---------------------------------------------------------------- the cells

  class TaskRing<T, V> {
    const n: nat
    const needsDrop: bool
    const tasks: array<Option<T>>
    const links: array<State<V>>

    ghost predicate Valid() {
      ValidSize(n) && tasks.Length == n && links.Length == n && tasks as object != links as object
    }

    constructor (n: nat, needsDrop: bool)
      requires ValidSize(n)
      ensures Valid() && this.n == n && this.needsDrop == needsDrop && fresh(tasks) && fresh(links)
      ensures tasks[..] == seq(n, _ => None) && links[..] == seq(n, _ => Vacant())
    {
      this.n, this.needsDrop := n, needsDrop;
      tasks := new Option<T>[n](_ => None);
      links := new State<V>[n](_ => Vacant());
      new;
      assert tasks[..] == seq(n, _ => None);
      assert links[..] == seq(n, _ => Vacant());
    }

    method Become(newTasks: seq<Option<T>>, newLinks: seq<State<V>>)
      requires Valid() && |newTasks| == |newLinks| == n
      modifies tasks, links
      ensures tasks[..] == newTasks && links[..] == newLinks
    {
      forall k | 0 <= k < n {
        tasks[k] := newTasks[k];
      }
      forall k | 0 <= k < n {
        links[k] := newLinks[k];
      }
      assert tasks[..] == newTasks && links[..] == newLinks;
    }

    /** `init`: the cell gets a task and the link to its receiver. */
    method InitCell(i: nat, task: T)
      requires Valid() && i < n
      modifies tasks, links
      ensures tasks[..] == old(tasks[..])[i := Some(task)] && links[..] == old(links[..])[i := Handoff.Initial()]
      ensures Unresolved(needsDrop, links[i])
    {
      tasks[i] := Some(task);
      links[i] := Handoff.Initial();
    }

    /** `take_task_unchecked`: the cell is left uninitialised. */
    method TakeTask(i: nat) returns (task: T)
      requires Valid() && i < n && tasks[i].Some?
      modifies tasks
      ensures tasks[..] == old(tasks[..])[i := None] && Some(task) == old(tasks[i])
    {
      task := tasks[i].value;
      tasks[i] := None;
    }

    // -------------------------------------------------------------- the resolver's side

    method ClaimReceiver(i: nat, v: V) returns (state: bv64)
      requires Valid() && i < n && Inv(needsDrop, v, links[i]) && links[i].resolver.Before? && !links[i].recycled
      modifies links
      ensures Inv(needsDrop, v, links[i]) && links[..] == old(links[..])[i := links[i]]
      ensures Step(KEPT, needsDrop, v, old(links[i]), FetchOr) == Some(links[i])
      ensures links[i].resolver == if state & RX_DROPPED == 0 then Claimed else Skipped
    {
      var link := links[i];
      StepInv(KEPT, needsDrop, v, link, FetchOr);
      state := link.flags;
      if state & RX_DROPPED == 0 {
        links[i] := link.(flags := state | SETTING_VALUE, resolver := Claimed);
      } else {
        links[i] := link.(flags := state | SETTING_VALUE, resolver := Skipped,
                          ledger := link.ledger.(dropsByResolver := link.ledger.dropsByResolver + 1));
      }
    }

    method WriteValue(i: nat, v: V)
      requires Valid() && i < n && Inv(needsDrop, v, links[i]) && links[i].resolver.Claimed?
      modifies links
      ensures Inv(needsDrop, v, links[i]) && links[..] == old(links[..])[i := links[i]]
      ensures Step(KEPT, needsDrop, v, old(links[i]), StoreValue) == Some(links[i])
      ensures links[i].resolver.Stored?
    {
      var link := links[i];
      StepInv(KEPT, needsDrop, v, link, StoreValue);
      links[i] := link.(memory := Init(v), resolver := Stored,
                        ledger := link.ledger.(writes := link.ledger.writes + 1));
    }

    method WakeReceiver(i: nat, v: V)
      requires Valid() && i < n && Inv(needsDrop, v, links[i]) && links[i].resolver.Stored?
      modifies links
      ensures Inv(needsDrop, v, links[i]) && links[..] == old(links[..])[i := links[i]]
      ensures Step(KEPT, needsDrop, v, old(links[i]), Wake) == Some(links[i])
      ensures links[i].resolver.Woken?
    {
      var link := links[i];
      StepInv(KEPT, needsDrop, v, link, Wake);
      links[i] := link.(woken := true, resolver := Woken);
    }

    method PublishValue(i: nat, v: V)
      requires Valid() && i < n && Inv(needsDrop, v, links[i]) && links[i].resolver.Woken?
      modifies links
      ensures Inv(needsDrop, v, links[i]) && links[..] == old(links[..])[i := links[i]]
      ensures Step(KEPT, needsDrop, v, old(links[i]), FetchXor) == Some(links[i])
      ensures links[i].resolver.Finished?
    {
      var link := links[i];
      StepInv(KEPT, needsDrop, v, link, FetchXor);
      links[i] := link.(flags := link.flags ^ (SETTING_VALUE | VALUE_SET), resolver := Finished);
    }

    // -------------------------------------------------------------- the receiver's side

    /** The resolver, if it is at work on cell i, takes its next step. */
    method ResolverMovesOn(i: nat, v: V)
      requires Valid() && i < n && Inv(needsDrop, v, links[i]) && !links[i].recycled
      modifies links
      ensures Inv(needsDrop, v, links[i]) && links[..] == old(links[..])[i := links[i]]
      ensures links[i].receiver == old(links[i]).receiver && !links[i].recycled
      ensures links[i].resolver.Finished? || links[i].resolver.Skipped? ||
              |Remaining(links[i].resolver)| < |Remaining(old(links[i]).resolver)|
      ensures |Remaining(links[i].resolver)| <= |Remaining(old(links[i]).resolver)|
    {
      if Remaining(links[i].resolver) != [] {
        var a := Remaining(links[i].resolver)[0];
        StepInv(KEPT, needsDrop, v, links[i], a);
        links[i] := Step(KEPT, needsDrop, v, links[i], a).value;
      }
    }

    /** The resolver takes no step or several, as it pleases; it rests only a bounded number of
        times. */
    method ResolverTurn(i: nat, v: V, patience: nat) returns (left: nat)
      requires Valid() && i < n && Inv(needsDrop, v, links[i]) && !links[i].recycled
      modifies links
      ensures Inv(needsDrop, v, links[i]) && links[..] == old(links[..])[i := links[i]]
      ensures links[i].receiver == old(links[i]).receiver && !links[i].recycled
      ensures |Remaining(links[i].resolver)| <= |Remaining(old(links[i]).resolver)|
      ensures left <= patience
      ensures || (left < patience && links[i] == old(links[i]))
              || links[i].resolver.Finished? || links[i].resolver.Skipped?
              || |Remaining(links[i].resolver)| < |Remaining(old(links[i]).resolver)|
    {
      hide Inv, Step, Remaining;
      left := patience;
      if * {
        if patience > 0 {
          return patience - 1;
        }
      }
      ResolverMovesOn(i, v);
      var more := *;
      while more
        invariant Inv(needsDrop, v, links[i]) && links[..] == old(links[..])[i := links[i]]
        invariant links[i].receiver == old(links[i]).receiver && !links[i].recycled
        invariant |Remaining(links[i].resolver)| <= |Remaining(old(links[i]).resolver)|
        invariant || links[i].resolver.Finished? || links[i].resolver.Skipped?
                  || |Remaining(links[i].resolver)| < |Remaining(old(links[i]).resolver)|
        decreases |Remaining(links[i].resolver)|, more
      {
        NothingLeft(links[i].resolver);
        if Remaining(links[i].resolver) == [] {
          more := false;
        } else {
          ResolverMovesOn(i, v);
          NothingLeft(links[i].resolver);
          more := *;
        }
      }
    }

    method FlagDropped(i: nat, v: V) returns (state: bv64)
      requires Valid() && i < n && Inv(needsDrop, v, links[i]) && links[i].receiver.Batched? && !links[i].recycled
      modifies links
      ensures Inv(needsDrop, v, links[i]) && links[..] == old(links[..])[i := links[i]]
      ensures ReceiverStep(KEPT, needsDrop, old(links[i]), BeginDrop) == Some(links[i])
      ensures links[i].receiver == Dropping(state) && !links[i].recycled
    {
      var link := links[i];
      ReceiverStepInv(KEPT, needsDrop, v, link, BeginDrop);
      state := link.flags;
      links[i] := link.(receiver := Dropping(state), flags := state | RX_DROPPED);
    }

    method Reload(i: nat, v: V) returns (state: bv64)
      requires Valid() && i < n && Inv(needsDrop, v, links[i]) && Spinning(links[i]) && !links[i].recycled
      modifies links
      ensures Inv(needsDrop, v, links[i]) && links[..] == old(links[..])[i := links[i]]
      ensures ReceiverStep(KEPT, needsDrop, old(links[i]), SpinLoad) == Some(links[i])
      ensures links[i].receiver == Dropping(state) && !links[i].recycled && links[i].resolver == old(links[i]).resolver
      ensures state & SETTING_VALUE == SETTING_VALUE ==> Remaining(links[i].resolver) != []
    {
      var link := links[i];
      ReceiverStepInv(KEPT, needsDrop, v, link, SpinLoad);
      state := link.flags;
      links[i] := link.(receiver := Dropping(state));
    }

    method Deallocate(i: nat, v: V, state: bv64)
      requires Valid() && i < n && Inv(needsDrop, v, links[i]) && links[i].receiver == Dropping(state)
      requires state & SETTING_VALUE != SETTING_VALUE
      modifies links
      ensures Inv(needsDrop, v, links[i]) && links[..] == old(links[..])[i := links[i]]
      ensures ReceiverStep(KEPT, needsDrop, old(links[i]), FinishDrop) == Some(links[i])
      ensures links[i].receiver.Gone?
    {
      var link := links[i];
      ReceiverStepInv(KEPT, needsDrop, v, link, FinishDrop);
      if needsDrop && state & VALUE_SET == VALUE_SET {
        links[i] := link.(memory := Uninit, receiver := Gone,
                          ledger := link.ledger.(dropsByReceiver := link.ledger.dropsByReceiver + 1));
      } else {
        links[i] := link.(receiver := Gone);
      }
    }

    /** The drop of a waiting receiver: it spins while a value is being set. Each time round, the
        resolver may have rested, or moved on by any number of steps. */
    method DropReceiver(i: nat, v: V, patience: nat)
      requires Valid() && i < n && Inv(needsDrop, v, links[i]) && links[i].receiver.Batched? && !links[i].recycled
      modifies links
      ensures Inv(needsDrop, v, links[i]) && links[i].receiver.Gone? && links[..] == old(links[..])[i := links[i]]
    {
      hide Inv, Step, ReceiverStep, Remaining;
      var left := ResolverTurn(i, v, patience);
      var state := FlagDropped(i, v);
      while state & SETTING_VALUE == SETTING_VALUE
        invariant Inv(needsDrop, v, links[i]) && links[i].receiver == Dropping(state) && !links[i].recycled
        invariant links[..] == old(links[..])[i := links[i]]
        decreases |Remaining(links[i].resolver)|, left, state & SETTING_VALUE == SETTING_VALUE
      {
        left := ResolverTurn(i, v, left);
        NothingLeft(links[i].resolver);
        state := Reload(i, v);
      }
      Deallocate(i, v, state);
    }
  }

  lemma NothingLeft(r: Resolver)
    ensures Remaining(r) == [] <==> r.Finished? || r.Skipped?
  {
  }
}
