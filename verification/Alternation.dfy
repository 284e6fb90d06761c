/**
 The abstract request/response machine that the ping-pong programs implement: a
 requester sends the value it holds, a responder echoes it, the requester
 accepts the echo, `rounds` times at most.
 */
module Alternation {
  import opened Options
  import opened Transitions

  datatype Event<T> = Send(v: T) | Echo(v: T) | Accept(v: T)

  datatype Phase = Ready | Requested | Answered

  datatype Alt<T> = Alt(round: nat, phase: Phase, held: T)

  function Step<T(==)>(rounds: nat, a: Alt<T>, e: Event<T>): Option<Alt<T>>
  {
    match e
    case Send(v) =>
      if a.phase.Ready? && a.round < rounds && v == a.held then Some(a.(phase := Requested)) else None
    case Echo(v) =>
      if a.phase.Requested? && v == a.held then Some(a.(phase := Answered)) else None
    case Accept(v) =>
      if a.phase.Answered? && v == a.held then Some(a.(phase := Ready, round := a.round + 1)) else None
  }

  ghost predicate Accepts<T>(rounds: nat, a: Alt<T>, trace: seq<Event<T>>)
    decreases |trace|
  {
    trace == [] ||
    match Step(rounds, a, trace[0])
    case None => false
    case Some(a') => Accepts(rounds, a', trace[1..])
  }

  /** The only possible i-th event of an alternating run that passes `v` around. */
  function EventAt<T>(v: T, i: nat): Event<T>
  {
    if i % 3 == 0 then Send(v) else if i % 3 == 1 then Echo(v) else Accept(v)
  }

  function Position<T>(a: Alt<T>): nat
  {
    3 * a.round + (match a.phase case Ready => 0 case Requested => 1 case Answered => 2)
  }

  lemma {:induction false} AcceptsFrom<T>(rounds: nat, a: Alt<T>, trace: seq<Event<T>>)
    requires Position(a) <= 3 * rounds
    ensures Accepts(rounds, a, trace) <==>
      Position(a) + |trace| <= 3 * rounds && forall i :: 0 <= i < |trace| ==> trace[i] == EventAt(a.held, Position(a) + i)
    decreases |trace|
  {
    if trace != [] {
      var e := trace[0];
      match Step(rounds, a, e)
      case None =>
        assert e == trace[0 as nat];
        assert Position(a) == 3 * rounds || e != EventAt(a.held, Position(a) + 0);
      case Some(a') =>
        AcceptsFrom(rounds, a', trace[1..]);
        assert forall i :: 1 <= i < |trace| ==> trace[i] == trace[1..][i - 1];
        assert forall i {:trigger EventAt(a.held, Position(a) + i)} :: Position(a') + (i - 1) == Position(a) + i;
    }
  }

  /**
   Acceptance is exactly strict alternation with an unchanged payload: the k-th
   Accept returns the k-th Echo of the k-th Send.
   */
  lemma AcceptsIffAlternating<T>(rounds: nat, v: T, trace: seq<Event<T>>)
    ensures Accepts(rounds, Alt(0, Ready, v), trace) <==>
      |trace| <= 3 * rounds && forall i :: 0 <= i < |trace| ==> trace[i] == EventAt(v, i)
  {
    AcceptsFrom(rounds, Alt(0, Ready, v), trace);
  }

  /**
   A refinement mapping: a step shows at most one event, a silent step leaves the
   abstract state alone, and a visible one makes the matching abstract step.
   */
  ghost predicate Simulates<S(!new), M(!new), T>(
    rounds: nat, sys: System<S, M>, inv: S -> bool, emit: (S, M) -> seq<Event<T>>, abs: S -> Alt<T>)
  {
    forall s, m :: inv(s) && sys.enabled(s, m) ==>
      var shown := emit(s, m);
      if shown == [] then abs(sys.next(s, m)) == abs(s)
      else |shown| == 1 && Step(rounds, abs(s), shown[0]) == Some(abs(sys.next(s, m)))
  }

  lemma {:induction false} RefinementOnRuns<S(!new), M(!new), T>(
    rounds: nat, sys: System<S, M>, inv: S -> bool, emit: (S, M) -> seq<Event<T>>, abs: S -> Alt<T>,
    s: S, moves: seq<M>)
    requires Inductive(sys, inv) && Simulates(rounds, sys, inv, emit, abs)
    requires inv(s) && IsRun(sys, s, moves)
    ensures Accepts(rounds, abs(s), Trace(sys, emit, s, moves))
    ensures Position(abs(s)) + |Trace(sys, emit, s, moves)| == Position(abs(Exec(sys, s, moves)))
    decreases |moves|
  {
    if moves != [] {
      var m := moves[0];
      var s' := sys.next(s, m);
      RefinementOnRuns(rounds, sys, inv, emit, abs, s', moves[1..]);
      var rest := Trace(sys, emit, s', moves[1..]);
      var shown := emit(s, m);
      if shown == [] {
        assert shown + rest == rest;
      } else {
        assert (shown + rest)[0] == shown[0] && (shown + rest)[1..] == rest;
      }
    }
  }
}
