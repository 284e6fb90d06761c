/**
 The condition-variable ping-pong of thread_ctx_switch.c: `main` (the ping side)
 and `pong_thread` share one mutex, two condition variables and `turn`.

 One move is one mutex, condition-variable or `turn` operation of one thread, or
 a spurious wakeup. The start-up sleep plays no part: either thread may run first.
 */
module PingPong {
  import opened Alternation
  import opened Options
  import opened Transitions

  /** Where a thread stands: what it does next, or `Parked` in pthread_cond_wait. */
  datatype Pc = Loop | Lock | Store | Signal | Test | Parked | Reacquire | Unlock | Join | Done

  datatype Owner = Free | ByMain | ByPong

  datatype State = State(turn: nat, owner: Owner, main: Pc, mainDone: nat, pong: Pc, pongDone: nat)

  datatype Move = Main | Pong | WakeMain | WakePong {
    predicate Spurious() { WakeMain? || WakePong? }
  }

  function Init(): State { State(0, Free, Loop, 0, Loop, 0) }

  predicate Enabled(s: State, m: Move)
  {
    match m
    case Main =>
      (match s.main
       case Lock | Reacquire => s.owner == Free
       case Parked | Done => false
       case Join => s.pong == Done
       case _ => true)
    case Pong =>
      (match s.pong
       case Lock | Reacquire => s.owner == Free
       case Parked | Join | Done => false
       case _ => true)
    case WakeMain => s.main == Parked
    case WakePong => s.pong == Parked
  }

  /** thread_ctx_switch.c:51-65. */
  function MainStep(iterations: nat, s: State): State
  {
    match s.main
    case Loop => s.(main := if s.mainDone < iterations then Lock else Join)
    case Lock => s.(main := Store, owner := ByMain)
    case Store => s.(main := Signal, turn := 1)
    case Signal => s.(main := Test, pong := if s.pong == Parked then Reacquire else s.pong)
    case Test => if s.turn != 0 then s.(main := Parked, owner := Free) else s.(main := Unlock)
    case Reacquire => s.(main := Test, owner := ByMain)
    case Unlock => s.(main := Loop, owner := Free, mainDone := s.mainDone + 1)
    case Join => s.(main := Done)
    case Parked | Done => s
  }

  /** thread_ctx_switch.c:17-26. */
  function PongStep(iterations: nat, s: State): State
  {
    match s.pong
    case Loop => s.(pong := if s.pongDone < iterations then Lock else Done)
    case Lock | Reacquire => s.(pong := Test, owner := ByPong)
    case Test => if s.turn != 1 then s.(pong := Parked, owner := Free) else s.(pong := Store)
    case Store => s.(pong := Signal, turn := 0)
    case Signal => s.(pong := Unlock, main := if s.main == Parked then Reacquire else s.main)
    case Unlock => s.(pong := Loop, owner := Free, pongDone := s.pongDone + 1)
    case Parked | Join | Done => s
  }

  function Next(iterations: nat, s: State, m: Move): State
  {
    match m
    case Main => MainStep(iterations, s)
    case Pong => PongStep(iterations, s)
    case WakeMain => s.(main := Reacquire)
    case WakePong => s.(pong := Reacquire)
  }

  function Threads(iterations: nat): System<State, Move>
  {
    System(Enabled, (s, m) => Next(iterations, s, m))
  }

  /** How often `turn` has been set to 1, and to 0. */
  function Pings(s: State): nat
  {
    s.mainDone + if (s.main.Signal? || s.main.Test? || s.main.Parked? || s.main.Reacquire? || s.main.Unlock?) then 1 else 0
  }

  function Pongs(s: State): nat
  {
    s.pongDone + if (s.pong.Signal? || s.pong.Unlock?) then 1 else 0
  }

  /** A thread sleeps although `turn` already favours it, and its wake-up is no longer coming. */
  predicate WakeupLost(s: State)
  {
    || (s.main == Parked && s.turn == 0 && !(s.pong == Signal && s.owner == ByPong))
    || (s.pong == Parked && s.turn == 1 && !(s.main == Signal && s.owner == ByMain))
  }

  ghost predicate Inv(iterations: nat, s: State)
  {
    // the mutex is held exactly by the thread between its lock and its unlock or wait
    && (s.owner == ByMain <==> (s.main.Store? || s.main.Signal? || s.main.Test? || s.main.Unlock?))
    && (s.owner == ByPong <==> (s.pong.Test? || s.pong.Store? || s.pong.Signal? || s.pong.Unlock?))
    // `turn` counts the unanswered pings
    && s.turn <= 1
    && Pings(s) == Pongs(s) + s.turn
    && ((s.main.Loop? || s.main.Lock? || s.main.Store? || s.main.Unlock? || s.main.Join? || s.main.Done?) ==> s.turn == 0)
    && (s.main == Signal ==> s.turn == 1)
    && (s.pong == Store ==> s.turn == 1)
    && (s.pong == Signal || s.pong == Unlock ==> s.turn == 0)
    && !WakeupLost(s)
    // loop counters
    && s.mainDone <= iterations && s.pongDone <= iterations
    && ((!s.main.Loop? && !s.main.Join? && !s.main.Done?) ==> s.mainDone < iterations)
    && ((s.main.Join? || s.main.Done?) ==> s.mainDone == iterations)
    && s.pong != Join
    && ((!s.pong.Loop? && !s.pong.Done?) ==> s.pongDone < iterations)
    && (s.pong == Done ==> s.pongDone == iterations)
    && (s.main == Done ==> s.pong == Done)
  }

  lemma InvMain(iterations: nat, s: State)
    requires Inv(iterations, s) && Enabled(s, Main)
    ensures Inv(iterations, MainStep(iterations, s))
  {
  }

  lemma InvPong(iterations: nat, s: State)
    requires Inv(iterations, s) && Enabled(s, Pong)
    ensures Inv(iterations, PongStep(iterations, s))
  {
  }

  lemma InvMove(iterations: nat, s: State, m: Move)
    requires Inv(iterations, s) && Enabled(s, m)
    ensures Inv(iterations, Next(iterations, s, m))
  {
    match m
    case Main => InvMain(iterations, s);
    case Pong => InvPong(iterations, s);
    case _ =>
  }

  lemma InvStep(iterations: nat)
    ensures Inductive(Threads(iterations), s => Inv(iterations, s))
  {
    forall s, m | Inv(iterations, s) && Enabled(s, m)
      ensures Inv(iterations, Next(iterations, s, m))
    {
      InvMove(iterations, s, m);
    }
  }

  ghost predicate Reachable(iterations: nat, s: State)
  {
    Reaches(Threads(iterations), Init(), s)
  }

  lemma ReachableInv(iterations: nat, s: State)
    requires Reachable(iterations, s)
    ensures Inv(iterations, s)
  {
    var moves :| IsRun(Threads(iterations), Init(), moves) && Exec(Threads(iterations), Init(), moves) == s;
    InvStep(iterations);
    InvariantOnRuns(Threads(iterations), s => Inv(iterations, s), Init(), moves);
  }

  lemma SomeThreadRuns(iterations: nat, s: State)
    requires Inv(iterations, s)
    ensures s.main == Done || Enabled(s, Main) || Enabled(s, Pong)
  {
  }

  /**
   No wakeup is lost, and before both threads have finished some move other than
   a spurious wakeup is always possible: no deadlock.
   */
  lemma NoLostWakeup(iterations: nat, s: State)
    requires Reachable(iterations, s)
    ensures !WakeupLost(s)
    ensures s.main == Done || Enabled(s, Main) || Enabled(s, Pong)
    ensures Stuck(Threads(iterations), s) <==> s.main == Done
  {
    ReachableInv(iterations, s);
    SomeThreadRuns(iterations, s);
    assert Threads(iterations).enabled(s, Main) || Threads(iterations).enabled(s, Pong) || s.main == Done;
  }

  lemma ThreeMoves(iterations: nat, s: State, a: Move, b: Move, c: Move)
    ensures var t := Next(iterations, s, a); var u := Next(iterations, t, b);
      && (IsRun(Threads(iterations), s, [a, b, c]) <==> Enabled(s, a) && Enabled(t, b) && Enabled(u, c))
      && Exec(Threads(iterations), s, [a, b, c]) == Next(iterations, u, c)
  {
    var t := Next(iterations, s, a);
    var u := Next(iterations, t, b);
    hide Next, Enabled;
    RunFrom(Threads(iterations), s, a, [b] + ([c] + []));
    RunFrom(Threads(iterations), t, b, [c] + []);
    RunFrom(Threads(iterations), u, c, []);
    assert [a, b, c] == [a] + ([b] + ([c] + []));
  }

  /**
   A parked thread may wake spuriously at any time. It then takes the mutex and tests
   `turn` again: if the condition does not favour it, it is parked as before.
   */
  lemma SpuriousWakeup(iterations: nat, s: State)
    requires s.owner == Free
    ensures s.main == Parked ==> IsRun(Threads(iterations), s, [WakeMain, Main, Main])
    ensures s.main == Parked && s.turn != 0 ==> Exec(Threads(iterations), s, [WakeMain, Main, Main]) == s
    ensures s.pong == Parked ==> IsRun(Threads(iterations), s, [WakePong, Pong, Pong])
    ensures s.pong == Parked && s.turn != 1 ==> Exec(Threads(iterations), s, [WakePong, Pong, Pong]) == s
  {
    ThreeMoves(iterations, s, WakeMain, Main, Main);
    ThreeMoves(iterations, s, WakePong, Pong, Pong);
    hide IsRun, Exec;
  }

  /** Strict alternation: `turn` is 1 exactly while one ping is unanswered, and no ping overwrites another. */
  lemma StrictAlternation(iterations: nat, s: State)
    requires Reachable(iterations, s)
    ensures Pongs(s) <= Pings(s) <= Pongs(s) + 1
    ensures s.turn == 1 <==> Pings(s) == Pongs(s) + 1
    ensures s.main == Store ==> s.turn == 0
    ensures s.pong == Store ==> s.turn == 1
    ensures s.owner == ByMain ==> (!s.pong.Test? && !s.pong.Store? && !s.pong.Signal? && !s.pong.Unlock?)
    ensures s.owner == ByPong ==> (!s.main.Store? && !s.main.Signal? && !s.main.Test? && !s.main.Unlock?)
    ensures s.main == Done ==> s.pong == Done && Pings(s) == Pongs(s) == iterations && s.turn == 0 && s.owner == Free
  {
    ReachableInv(iterations, s);
  }

  /** Moves left, if no wakeup is spurious: eight to an iteration of either thread. */
  function MainRank(iterations: nat, s: State): nat
    requires s.mainDone <= iterations
    requires (!s.main.Loop? && !s.main.Join? && !s.main.Done?) ==> s.mainDone < iterations
  {
    match s.main
    case Done => 0
    case Join => 1
    case Loop => 8 * (iterations - s.mainDone) + 2
    case _ =>
      8 * (iterations - s.mainDone - 1) + 2 +
      match s.main
      case Unlock => 1
      case Test => if s.turn == 0 then 2 else 4
      case Parked => 3
      case Reacquire => if s.turn == 0 then 3 else 5
      case Signal => 5
      case Store => 6
      case _ => 7
  }

  function PongRank(iterations: nat, s: State): nat
    requires s.pongDone <= iterations
    requires (!s.pong.Loop? && !s.pong.Done?) ==> s.pongDone < iterations
  {
    match s.pong
    case Done => 0
    case Loop => 8 * (iterations - s.pongDone) + 1
    case _ =>
      8 * (iterations - s.pongDone - 1) + 1 +
      match s.pong
      case Unlock => 1
      case Signal => 2
      case Store => 3
      case Test => if s.turn == 1 then 4 else 6
      case Parked => 5
      case Reacquire => if s.turn == 1 then 5 else 7
      case _ => 7
  }

  ghost function Rank(iterations: nat, s: State): nat
  {
    if Inv(iterations, s) then MainRank(iterations, s) + PongRank(iterations, s) else 0
  }

  lemma RankMain(iterations: nat, s: State)
    requires Inv(iterations, s) && Enabled(s, Main) && Inv(iterations, MainStep(iterations, s))
    ensures Rank(iterations, MainStep(iterations, s)) < Rank(iterations, s)
  {
  }

  lemma RankPong(iterations: nat, s: State)
    requires Inv(iterations, s) && Enabled(s, Pong) && Inv(iterations, PongStep(iterations, s))
    ensures Rank(iterations, PongStep(iterations, s)) < Rank(iterations, s)
  {
  }

  lemma RankStep(iterations: nat, s: State, m: Move)
    requires Inv(iterations, s) && Enabled(s, m)
    ensures Rank(iterations, Next(iterations, s, m)) <=
      if m.Spurious() then Rank(iterations, s) + 2 else Rank(iterations, s) - 1
  {
    InvMove(iterations, s, m);
    match m
    case Main => RankMain(iterations, s);
    case Pong => RankPong(iterations, s);
    case _ =>
  }

  /** A run with k spurious wakeups makes at most 16 * iterations + 3 + 3k moves. */
  lemma RunsAreShort(iterations: nat, moves: seq<Move>)
    requires IsRun(Threads(iterations), Init(), moves)
    ensures |moves| <= 16 * iterations + 3 + 3 * Count((m: Move) => m.Spurious(), moves)
  {
    InvStep(iterations);
    forall s, m | Inv(iterations, s) && Enabled(s, m)
      ensures Rank(iterations, Next(iterations, s, m)) <= if m.Spurious() then Rank(iterations, s) + 2 else Rank(iterations, s) - 1
    {
      RankStep(iterations, s, m);
    }
    RunLength(Threads(iterations), s => Inv(iterations, s), s => Rank(iterations, s),
      (m: Move) => m.Spurious(), 2, Init(), moves);
  }

  /** Setting `turn` to 1 is a request, to 0 an answer, and leaving the wait loop accepts it. */
  function Emit(s: State, m: Move): seq<Event<()>>
  {
    match m
    case Main => if s.main == Store then [Send(())] else if s.main == Test && s.turn == 0 then [Accept(())] else []
    case Pong => if s.pong == Store then [Echo(())] else []
    case _ => []
  }

  function Abstract(s: State): Alt<()>
  {
    if s.main == Unlock then Alt(s.mainDone + 1, Ready, ())
    else if (s.main.Signal? || s.main.Test? || s.main.Parked? || s.main.Reacquire?) then Alt(s.mainDone, if s.turn == 1 then Requested else Answered, ())
    else Alt(s.mainDone, Ready, ())
  }

  ghost predicate SimulatedMove(iterations: nat, s: State, m: Move)
  {
    var shown := Emit(s, m);
    if shown == [] then Abstract(Next(iterations, s, m)) == Abstract(s)
    else |shown| == 1 && Step(iterations, Abstract(s), shown[0]) == Some(Abstract(Next(iterations, s, m)))
  }

  lemma AbstractStep(iterations: nat, s: State, m: Move)
    requires Inv(iterations, s) && Enabled(s, m)
    ensures SimulatedMove(iterations, s, m)
  {
    InvMove(iterations, s, m);
  }

  /** Every run is a run of the alternation machine; a completed one makes all the rounds. */
  lemma RefinesAlternation(iterations: nat, moves: seq<Move>)
    requires IsRun(Threads(iterations), Init(), moves)
    ensures Accepts(iterations, Alt(0, Ready, ()), Trace(Threads(iterations), Emit, Init(), moves))
    ensures Exec(Threads(iterations), Init(), moves).main == Done ==>
      |Trace(Threads(iterations), Emit, Init(), moves)| == 3 * iterations
  {
    var sys := Threads(iterations);
    InvStep(iterations);
    forall s, m | Inv(iterations, s) && Enabled(s, m)
      ensures SimulatedMove(iterations, s, m)
    {
      AbstractStep(iterations, s, m);
    }
    RefinementOnRuns(iterations, sys, s => Inv(iterations, s), Emit, Abstract, Init(), moves);
    InvariantOnRuns(sys, s => Inv(iterations, s), Init(), moves);
  }

  /** The two threads, their shared variables updated in place. */
  class Program {
    const iterations: nat
    var turn: nat
    var owner: Owner
    var main: Pc
    var mainDone: nat
    var pong: Pc
    var pongDone: nat

    function View(): State
      reads this
    {
      State(turn, owner, main, mainDone, pong, pongDone)
    }

    constructor (iterations: nat)
      ensures this.iterations == iterations && View() == Init()
    {
      this.iterations := iterations;
      turn, owner, main, mainDone, pong, pongDone := 0, Free, Loop, 0, Loop, 0;
    }

    method RunMain()
      requires Enabled(View(), Main)
      modifies this
      ensures View() == Next(iterations, old(View()), Main)
    {
      match main {
        case Loop => main := if mainDone < iterations then Lock else Join;
        case Lock => owner, main := ByMain, Store;
        case Store => turn, main := 1, Signal;
        case Signal =>
          if pong == Parked { pong := Reacquire; }
          main := Test;
        case Test =>
          if turn != 0 {
            owner, main := Free, Parked;
          } else {
            main := Unlock;
          }
        case Reacquire => owner, main := ByMain, Test;
        case Unlock => owner, mainDone, main := Free, mainDone + 1, Loop;
        case Join => main := Done;
      }
    }

    method RunPong()
      requires Enabled(View(), Pong)
      modifies this
      ensures View() == Next(iterations, old(View()), Pong)
    {
      match pong {
        case Loop => pong := if pongDone < iterations then Lock else Done;
        case Lock | Reacquire => owner, pong := ByPong, Test;
        case Test =>
          if turn != 1 {
            owner, pong := Free, Parked;
          } else {
            pong := Store;
          }
        case Store => turn, pong := 0, Signal;
        case Signal =>
          if main == Parked { main := Reacquire; }
          pong := Unlock;
        case Unlock => owner, pongDone, pong := Free, pongDone + 1, Loop;
      }
    }

    method Run(m: Move)
      requires Enabled(View(), m)
      modifies this
      ensures View() == Next(iterations, old(View()), m)
    {
      match m {
        case Main => RunMain();
        case Pong => RunPong();
        case WakeMain => main := Reacquire;
        case WakePong => pong := Reacquire;
      }
    }

    /** Any possible move, but no spurious wakeup once none is left. */
    method Schedule(left: nat) returns (m: Move)
      requires Enabled(View(), Main) || Enabled(View(), Pong)
      ensures Enabled(View(), m) && (m.Spurious() ==> left > 0)
    {
      if {
        case Enabled(View(), Main) => m := Main;
        case Enabled(View(), Pong) => m := Pong;
        case Enabled(View(), WakeMain) && left > 0 => m := WakeMain;
        case Enabled(View(), WakePong) && left > 0 => m := WakePong;
      }
    }

    /** One move of any scheduler brings the join closer. */
    method OneMove(left: nat) returns (left': nat)
      requires Inv(iterations, View()) && main != Done
      modifies this
      ensures Inv(iterations, View())
      ensures Rank(iterations, View()) + 3 * left' < old(Rank(iterations, View())) + 3 * left
    {
      SomeThreadRuns(iterations, View());
      hide Inv, Rank, Next, Enabled;
      var m := Schedule(left);
      InvMove(iterations, View(), m);
      RankStep(iterations, View(), m);
      Run(m);
      left' := if m.Spurious() then left - 1 else left;
    }

    /**
     Runs both threads to the join under any scheduler and any `spurious` many
     spurious wakeups: the alternatives always leave one open, and the loop ends.
     */
    method RunToCompletion(spurious: nat)
      requires View() == Init()
      modifies this
      ensures main == Done && pong == Done && mainDone == pongDone == iterations && turn == 0 && owner == Free
    {
      var left := spurious;
      while main != Done
        invariant Inv(iterations, View())
        decreases Rank(iterations, View()) + 3 * left
      {
        left := OneMove(left);
      }
    }
  }
}
