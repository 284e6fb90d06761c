/**
 Labelled transition systems and their runs.

 Every concurrent program of the project is a state type, a move type and a
 `System`: which moves the kernel allows in a state, and the state each leads to.
 A schedule is a sequence of moves; quantifying over schedules is quantifying
 over interleavings. The lemmas here lift facts about one step to whole runs.
 */
module Transitions {

  datatype System<!S, !M> = System(enabled: (S, M) -> bool, next: (S, M) -> S)

  /** Every move of the schedule is allowed in the state it is made in. */
  ghost predicate IsRun<S, M>(sys: System<S, M>, s: S, moves: seq<M>)
  {
    moves == [] || (sys.enabled(s, moves[0]) && IsRun(sys, sys.next(s, moves[0]), moves[1..]))
  }

  ghost function Exec<S, M>(sys: System<S, M>, s: S, moves: seq<M>): S
  {
    if moves == [] then s else Exec(sys, sys.next(s, moves[0]), moves[1..])
  }

  /** Nothing the schedule could do next. */
  ghost predicate Stuck<S, M(!new)>(sys: System<S, M>, s: S)
  {
    forall m :: !sys.enabled(s, m)
  }

  ghost predicate Inductive<S(!new), M(!new)>(sys: System<S, M>, inv: S -> bool)
  {
    forall s, m :: inv(s) && sys.enabled(s, m) ==> inv(sys.next(s, m))
  }

  lemma {:induction false} InvariantOnRuns<S(!new), M(!new)>(sys: System<S, M>, inv: S -> bool, s: S, moves: seq<M>)
    requires Inductive(sys, inv)
    requires inv(s) && IsRun(sys, s, moves)
    ensures inv(Exec(sys, s, moves))
    decreases |moves|
  {
    if moves != [] {
      InvariantOnRuns(sys, inv, sys.next(s, moves[0]), moves[1..]);
    }
  }

  function Count<M>(p: M -> bool, moves: seq<M>): nat
  {
    if moves == [] then 0 else (if p(moves[0]) then 1 else 0) + Count(p, moves[1..])
  }

  /**
   A measure that every ordinary move lowers and every `free` move raises by at
   most `slack` bounds the length of every run.
   */
  ghost predicate Ranked<S(!new), M(!new)>(sys: System<S, M>, inv: S -> bool, rank: S -> nat, free: M -> bool, slack: nat)
  {
    forall s, m :: inv(s) && sys.enabled(s, m) ==>
      rank(sys.next(s, m)) <= if free(m) then rank(s) + slack else rank(s) - 1
  }

  lemma {:induction false} RunLength<S(!new), M(!new)>(
    sys: System<S, M>, inv: S -> bool, rank: S -> nat, free: M -> bool, slack: nat, s: S, moves: seq<M>)
    requires Inductive(sys, inv) && Ranked(sys, inv, rank, free, slack)
    requires inv(s) && IsRun(sys, s, moves)
    ensures |moves| + rank(Exec(sys, s, moves)) <= rank(s) + (slack + 1) * Count(free, moves)
    decreases |moves|
  {
    if moves != [] {
      var s' := sys.next(s, moves[0]);
      RunLength(sys, inv, rank, free, slack, s', moves[1..]);
      var tail := Count(free, moves[1..]);
      if free(moves[0]) {
        assert (slack + 1) * (1 + tail) == (slack + 1) + (slack + 1) * tail;
      }
    }
  }

  /** Without free moves, the rank itself bounds the run. */
  lemma {:induction false} StrictRunLength<S(!new), M(!new)>(
    sys: System<S, M>, inv: S -> bool, rank: S -> nat, s: S, moves: seq<M>)
    requires Inductive(sys, inv)
    requires forall s, m :: inv(s) && sys.enabled(s, m) ==> rank(sys.next(s, m)) < rank(s)
    requires inv(s) && IsRun(sys, s, moves)
    ensures |moves| + rank(Exec(sys, s, moves)) <= rank(s)
    decreases |moves|
  {
    if moves != [] {
      StrictRunLength(sys, inv, rank, sys.next(s, moves[0]), moves[1..]);
    }
  }

  /** The visible events of a run, in order. */
  ghost function Trace<S, M, E>(sys: System<S, M>, emit: (S, M) -> seq<E>, s: S, moves: seq<M>): seq<E>
  {
    if moves == [] then []
    else emit(s, moves[0]) + Trace(sys, emit, sys.next(s, moves[0]), moves[1..])
  }

  lemma {:induction false} RunSplit<S, M>(sys: System<S, M>, s: S, xs: seq<M>, ys: seq<M>)
    ensures IsRun(sys, s, xs + ys) <==> IsRun(sys, s, xs) && IsRun(sys, Exec(sys, s, xs), ys)
    ensures Exec(sys, s, xs + ys) == Exec(sys, Exec(sys, s, xs), ys)
    decreases |xs|
  {
    if xs == [] {
      assert xs + ys == ys;
    } else {
      assert (xs + ys)[0] == xs[0] && (xs + ys)[1..] == xs[1..] + ys;
      RunSplit(sys, sys.next(s, xs[0]), xs[1..], ys);
    }
  }

  lemma {:induction false} TraceSplit<S, M, E>(sys: System<S, M>, emit: (S, M) -> seq<E>, s: S, xs: seq<M>, ys: seq<M>)
    ensures Trace(sys, emit, s, xs + ys) == Trace(sys, emit, s, xs) + Trace(sys, emit, Exec(sys, s, xs), ys)
    decreases |xs|
  {
    if xs == [] {
      assert xs + ys == ys;
    } else {
      assert (xs + ys)[0] == xs[0] && (xs + ys)[1..] == xs[1..] + ys;
      TraceSplit(sys, emit, sys.next(s, xs[0]), xs[1..], ys);
    }
  }

  lemma RunFrom<S, M>(sys: System<S, M>, s: S, m: M, rest: seq<M>)
    ensures IsRun(sys, s, [m] + rest) <==> sys.enabled(s, m) && IsRun(sys, sys.next(s, m), rest)
    ensures Exec(sys, s, [m] + rest) == Exec(sys, sys.next(s, m), rest)
  {
    assert ([m] + rest)[1..] == rest;
  }

  lemma OneMoreMove<S, M>(sys: System<S, M>, s: S, moves: seq<M>, m: M)
    requires IsRun(sys, s, moves) && sys.enabled(Exec(sys, s, moves), m)
    ensures IsRun(sys, s, moves + [m]) && Exec(sys, s, moves + [m]) == sys.next(Exec(sys, s, moves), m)
  {
    RunSplit(sys, s, moves, [m]);
    assert [m][1..] == [];
  }

  /** Every permitted move appends to the log what it emits. */
  ghost predicate Logs<S(!new), M(!new), E>(
    sys: System<S, M>, inv: S -> bool, permitted: M -> bool, emit: (S, M) -> seq<E>, log: S -> seq<E>)
  {
    forall s, m :: inv(s) && sys.enabled(s, m) && permitted(m) ==>
      inv(sys.next(s, m)) && log(sys.next(s, m)) == log(s) + emit(s, m)
  }

  /** Then a run of permitted moves appends its trace. */
  lemma {:induction false} LogIsTrace<S(!new), M(!new), E>(
    sys: System<S, M>, inv: S -> bool, permitted: M -> bool, emit: (S, M) -> seq<E>, log: S -> seq<E>,
    s: S, moves: seq<M>)
    requires Logs(sys, inv, permitted, emit, log)
    requires inv(s) && IsRun(sys, s, moves) && forall m :: m in moves ==> permitted(m)
    ensures log(Exec(sys, s, moves)) == log(s) + Trace(sys, emit, s, moves)
    decreases |moves|
  {
    if moves != [] {
      LogIsTrace(sys, inv, permitted, emit, log, sys.next(s, moves[0]), moves[1..]);
    }
  }

  ghost predicate Reaches<S, M(!new)>(sys: System<S, M>, s: S, t: S)
  {
    exists moves :: IsRun(sys, s, moves) && Exec(sys, s, moves) == t
  }

  lemma ReachesSelf<S, M(!new)>(sys: System<S, M>, s: S)
    ensures Reaches(sys, s, s)
  {
    assert IsRun(sys, s, []);
  }

  lemma ReachesAfter<S, M(!new)>(sys: System<S, M>, s: S, m: M, t: S)
    requires sys.enabled(s, m) && Reaches(sys, sys.next(s, m), t)
    ensures Reaches(sys, s, t)
  {
    var moves :| IsRun(sys, sys.next(s, m), moves) && Exec(sys, sys.next(s, m), moves) == t;
    assert ([m] + moves)[1..] == moves;
    assert IsRun(sys, s, [m] + moves);
  }

  lemma ReachesTransitive<S, M(!new)>(sys: System<S, M>, s: S, t: S, u: S)
    requires Reaches(sys, s, t) && Reaches(sys, t, u)
    ensures Reaches(sys, s, u)
  {
    var xs :| IsRun(sys, s, xs) && Exec(sys, s, xs) == t;
    var ys :| IsRun(sys, t, ys) && Exec(sys, t, ys) == u;
    RunSplit(sys, s, xs, ys);
  }
}
