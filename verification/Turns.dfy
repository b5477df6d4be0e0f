/** Taking turns. What happens during an operation is told as a list of turns: a step of the thread
    that carries it out, or a schedule of what the others try to do in between. Of a schedule happens
    what is possible when its turn comes. `step` is the system at hand. */
module Turns {
  import opened Wrappers

  type Stepper<!S, !A> = (S, A) -> Option<S>

  datatype Turn<+A> = Own(act: A) | Others(schedule: seq<A>)

  function RunOf<S, A>(step: Stepper<S, A>, s: S, actions: seq<A>): Option<S>
    decreases |actions|
  {
    if actions == [] then Some(s)
    else
      match step(s, actions[0])
      case None => None
      case Some(next) => RunOf(step, next, actions[1..])
  }

  /** The steps of a schedule that happen: those that are possible at the point they come up. */
  function Applied<S, A>(step: Stepper<S, A>, s: S, schedule: seq<A>): seq<A>
    decreases |schedule|
  {
    if schedule == [] then []
    else
      match step(s, schedule[0])
      case None => Applied(step, s, schedule[1..])
      case Some(next) => [schedule[0]] + Applied(step, next, schedule[1..])
  }

  /** The steps of one turn. */
  function Steps<S, A>(step: Stepper<S, A>, s: S, turn: Turn<A>): seq<A> {
    match turn
    case Own(a) => [a]
    case Others(schedule) => Applied(step, s, schedule)
  }

  /** All the steps of a list of turns, in order. */
  function Weave<S, A>(step: Stepper<S, A>, s: S, turns: seq<Turn<A>>): seq<A>
    decreases |turns|
  {
    if turns == [] then []
    else
      match RunOf(step, s, Steps(step, s, turns[0]))
      case None => Steps(step, s, turns[0])
      case Some(next) => Steps(step, s, turns[0]) + Weave(step, next, turns[1..])
  }

  /** The turns lead from s to t. */
  ghost predicate Played<S, A>(step: Stepper<S, A>, s: S, turns: seq<Turn<A>>, t: S) {
    RunOf(step, s, Weave(step, s, turns)) == Some(t)
  }

  lemma {:induction false} RunOfConcat<S, A>(step: Stepper<S, A>, s: S, xs: seq<A>, ys: seq<A>)
    requires RunOf(step, s, xs).Some?
    ensures RunOf(step, s, xs + ys) == RunOf(step, RunOf(step, s, xs).value, ys)
    decreases |xs|
  {
    if xs == [] {
      assert xs + ys == ys;
    } else {
      assert (xs + ys)[0] == xs[0] && (xs + ys)[1..] == xs[1..] + ys;
      RunOfConcat(step, step(s, xs[0]).value, xs[1..], ys);
    }
  }

  lemma RunOfSnoc<S, A>(step: Stepper<S, A>, s: S, xs: seq<A>, a: A)
    requires RunOf(step, s, xs).Some?
    ensures RunOf(step, s, xs + [a]) == step(RunOf(step, s, xs).value, a)
  {
    RunOfConcat(step, s, xs, [a]);
    var t := RunOf(step, s, xs).value;
    assert step(t, a).Some? ==> RunOf(step, t, [a]) == RunOf(step, step(t, a).value, []);
  }

  lemma NoTurns<S, A>(step: Stepper<S, A>, s: S)
    ensures RunOf(step, s, []) == Some(s) && Played(step, s, [], s)
  {
  }

  lemma PlayedTurn<S, A>(step: Stepper<S, A>, s: S, turn: Turn<A>, t: S)
    requires RunOf(step, s, Steps(step, s, turn)) == Some(t)
    ensures Played(step, s, [turn], t) && Weave(step, s, [turn]) == Steps(step, s, turn)
  {
    hide Steps, RunOf;
    assert [turn][1..] == [] && Weave(step, t, []) == [];
    assert Steps(step, s, turn) + [] == Steps(step, s, turn);
  }

  lemma FirstTurn<S, A>(step: Stepper<S, A>, r: S, x: seq<Turn<A>>, s: S)
    requires Played(step, r, x, s) && x != []
    ensures RunOf(step, r, Steps(step, r, x[0])).Some?
    ensures Played(step, RunOf(step, r, Steps(step, r, x[0])).value, x[1..], s)
  {
    hide Steps;
    var steps := Steps(step, r, x[0]);
    if RunOf(step, r, steps).Some? {
      RunOfConcat(step, r, steps, Weave(step, RunOf(step, r, steps).value, x[1..]));
    }
  }

  /** Turns follow upon turns. */
  lemma {:induction false} PlayedOn<S, A>(step: Stepper<S, A>, r: S, x: seq<Turn<A>>, s: S, y: seq<Turn<A>>, t: S)
    requires Played(step, r, x, s) && Played(step, s, y, t)
    ensures Played(step, r, x + y, t) && Weave(step, r, x + y) == Weave(step, r, x) + Weave(step, s, y)
    decreases |x|
  {
    hide Steps;
    if x == [] {
      assert x + y == y;
    } else {
      var steps := Steps(step, r, x[0]);
      assert (x + y)[0] == x[0] && (x + y)[1..] == x[1..] + y;
      FirstTurn(step, r, x, s);
      var q := RunOf(step, r, steps).value;
      PlayedOn(step, q, x[1..], s, y, t);
      RunOfConcat(step, r, steps, Weave(step, q, x[1..] + y));
    }
  }

  /** What was played after some turns is what the turns after them play. */
  lemma {:induction false} PlayedRest<S, A>(step: Stepper<S, A>, r: S, x: seq<Turn<A>>, s: S, y: seq<Turn<A>>, t: S)
    requires Played(step, r, x, s) && Played(step, r, x + y, t)
    ensures Played(step, s, y, t)
    decreases |x|
  {
    hide Steps;
    if x == [] {
      assert x + y == y;
    } else {
      var steps := Steps(step, r, x[0]);
      assert (x + y)[0] == x[0] && (x + y)[1..] == x[1..] + y;
      FirstTurn(step, r, x, s);
      FirstTurn(step, r, x + y, t);
      PlayedRest(step, RunOf(step, r, steps).value, x[1..], s, y, t);
    }
  }

  /** One's own step comes next. */
  lemma ThenOwn<S, A>(step: Stepper<S, A>, from: S, before: seq<Turn<A>>, s: S, a: A, t: S)
    returns (turns: seq<Turn<A>>)
    requires Played(step, from, before, s) && step(s, a) == Some(t)
    ensures turns == before + [Own(a)] && Played(step, from, turns, t)
    ensures Weave(step, from, turns) == Weave(step, from, before) + [a]
  {
    hide Played, Weave;
    turns := before + [Own(a)];
    assert RunOf(step, s, [a]) == RunOf(step, t, []);
    PlayedTurn(step, s, Own(a), t);
    PlayedOn(step, from, before, s, [Own(a)], t);
  }

  /** The others come next. */
  lemma ThenOthers<S, A>(step: Stepper<S, A>, from: S, before: seq<Turn<A>>, s: S, schedule: seq<A>, t: S)
    returns (turns: seq<Turn<A>>)
    requires Played(step, from, before, s) && RunOf(step, s, Applied(step, s, schedule)) == Some(t)
    ensures turns == before + [Others(schedule)] && Played(step, from, turns, t)
    ensures Weave(step, from, turns) == Weave(step, from, before) + Applied(step, s, schedule)
  {
    hide Played, Weave, RunOf;
    turns := before + [Others(schedule)];
    PlayedTurn(step, s, Others(schedule), t);
    PlayedOn(step, from, before, s, [Others(schedule)], t);
  }

  lemma {:induction false} AppliedSources<S, A>(step: Stepper<S, A>, s: S, schedule: seq<A>, a: A)
    requires a in Applied(step, s, schedule)
    ensures a in schedule
    decreases |schedule|
  {
    match step(s, schedule[0])
    case None => AppliedSources(step, s, schedule[1..], a);
    case Some(next) =>
      if a != schedule[0] {
        AppliedSources(step, next, schedule[1..], a);
      }
  }

  /** The action is a turn of one's own, or was scheduled by the others. */
  ghost predicate Sourced<A>(turns: seq<Turn<A>>, a: A) {
    exists i :: 0 <= i < |turns| && match turns[i] case Own(b) => b == a case Others(schedule) => a in schedule
  }

  /** Whose steps there are: no step comes from nowhere. */
  lemma {:induction false} WeaveSources<S, A>(step: Stepper<S, A>, s: S, turns: seq<Turn<A>>, a: A)
    requires a in Weave(step, s, turns)
    ensures Sourced(turns, a)
    decreases |turns|
  {
    var steps := Steps(step, s, turns[0]);
    if a in steps {
      if turns[0].Others? {
        AppliedSources(step, s, turns[0].schedule, a);
      }
    } else {
      var rest := turns[1..];
      WeaveSources(step, RunOf(step, s, steps).value, rest, a);
      var i :| 0 <= i < |rest| && match rest[i] case Own(b) => b == a case Others(schedule) => a in schedule;
      assert turns[i + 1] == rest[i];
    }
  }

  /** The others run at points from..to. */
  function OthersTurns<A>(env: nat -> seq<A>, from: nat, to: nat): (turns: seq<Turn<A>>)
    requires from <= to
    ensures |turns| == to - from
  {
    seq(to - from, k requires 0 <= k < to - from => Others(env(from + k)))
  }

  lemma OneMore<A>(env: nat -> seq<A>, from: nat, to: nat)
    requires from <= to
    ensures OthersTurns(env, from, to + 1) == OthersTurns(env, from, to) + [Others(env(to))]
  {
  }
}
