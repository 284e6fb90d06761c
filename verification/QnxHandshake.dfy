/**
 The start-up handshake of qnx_priority_inversion.c: `main` creates the three tasks
 and paces them with three semaphores. All interleavings are considered, with no
 assumption on priorities or timing: a busy loop ends at some later move of its task.
 */
module QnxHandshake {
  import opened Transitions

  datatype MainPc = CreateLow | WaitLowLocked | CreateHigh | WaitHighReady | CreateMed | WaitHighDone | Returned

  datatype LowPc = NoLow | LowLock | LowPost | LowHold | LowUnlock | LowEnd

  datatype HighPc = NoHigh | HighPost | HighLock | HighLocked | HighUnlock | HighPostDone | HighEnd

  datatype MedPc = NoMed | MedBusy | MedEnd

  datatype Owner = Free | ByLow | ByHigh

  datatype State = State(
    main: MainPc, low: LowPc, med: MedPc, high: HighPc,
    owner: Owner, lowLocked: nat, highReady: nat, highDone: nat)

  datatype Move = Main | Low | Med | High

  function Init(): State { State(CreateLow, NoLow, NoMed, NoHigh, Free, 0, 0, 0) }

  /** Returning from `main` ends the process, so nothing moves after it. */
  predicate Enabled(s: State, m: Move)
  {
    s.main != Returned &&
    match m
    case Main =>
      (match s.main
       case WaitLowLocked => s.lowLocked > 0
       case WaitHighReady => s.highReady > 0
       case WaitHighDone => s.highDone > 0
       case _ => true)
    case Low => s.low != NoLow && s.low != LowEnd && (s.low == LowLock ==> s.owner == Free)
    case Med => s.med == MedBusy
    case High => s.high != NoHigh && s.high != HighEnd && (s.high == HighLock ==> s.owner == Free)
  }

  /** qnx_priority_inversion.c:114-123. */
  function MainStep(s: State): State
  {
    match s.main
    case CreateLow => s.(main := WaitLowLocked, low := LowLock)
    case WaitLowLocked => s.(main := CreateHigh, lowLocked := if s.lowLocked > 0 then s.lowLocked - 1 else 0)
    case CreateHigh => s.(main := WaitHighReady, high := HighPost)
    case WaitHighReady => s.(main := CreateMed, highReady := if s.highReady > 0 then s.highReady - 1 else 0)
    case CreateMed => s.(main := WaitHighDone, med := MedBusy)
    case WaitHighDone => s.(main := Returned, highDone := if s.highDone > 0 then s.highDone - 1 else 0)
    case Returned => s
  }

  /** qnx_priority_inversion.c:42-49. */
  function LowStep(s: State): State
  {
    match s.low
    case LowLock => s.(low := LowPost, owner := ByLow)
    case LowPost => s.(low := LowHold, lowLocked := s.lowLocked + 1)
    case LowHold => s.(low := LowUnlock)
    case LowUnlock => s.(low := LowEnd, owner := Free)
    case NoLow | LowEnd => s
  }

  /** qnx_priority_inversion.c:54-67. */
  function HighStep(s: State): State
  {
    match s.high
    case HighPost => s.(high := HighLock, highReady := s.highReady + 1)
    case HighLock => s.(high := HighLocked, owner := ByHigh)
    case HighLocked => s.(high := HighUnlock)
    case HighUnlock => s.(high := HighPostDone, owner := Free)
    case HighPostDone => s.(high := HighEnd, highDone := s.highDone + 1)
    case NoHigh | HighEnd => s
  }

  function Next(s: State, m: Move): State
  {
    match m
    case Main => MainStep(s)
    case Low => LowStep(s)
    case Med => s.(med := MedEnd)
    case High => HighStep(s)
  }

  function Threads(): System<State, Move> { System(Enabled, Next) }

  /** Progress of each thread along its program. */
  function MainAt(s: State): nat
  {
    match s.main
    case CreateLow => 0 case WaitLowLocked => 1 case CreateHigh => 2 case WaitHighReady => 3
    case CreateMed => 4 case WaitHighDone => 5 case Returned => 6
  }

  function LowAt(s: State): nat
  {
    match s.low
    case NoLow => 0 case LowLock => 1 case LowPost => 2 case LowHold => 3 case LowUnlock => 4 case LowEnd => 5
  }

  function HighAt(s: State): nat
  {
    match s.high
    case NoHigh => 0 case HighPost => 1 case HighLock => 2 case HighLocked => 3 case HighUnlock => 4
    case HighPostDone => 5 case HighEnd => 6
  }

  function MedAt(s: State): nat
  {
    match s.med
    case NoMed => 0 case MedBusy => 1 case MedEnd => 2
  }

  ghost predicate Inv(s: State)
  {
    && (s.owner == ByLow <==> 2 <= LowAt(s) <= 4)
    && (s.owner == ByHigh <==> 3 <= HighAt(s) <= 4)
    // each thread is created once, by main
    && (s.low == NoLow <==> MainAt(s) == 0)
    && (s.high == NoHigh <==> MainAt(s) <= 2)
    && (s.med == NoMed <==> MainAt(s) <= 4)
    // each semaphore counts the posts main has not taken yet
    && s.lowLocked + (if MainAt(s) >= 2 then 1 else 0) == (if LowAt(s) >= 3 then 1 else 0)
    && s.highReady + (if MainAt(s) >= 4 then 1 else 0) == (if HighAt(s) >= 2 then 1 else 0)
    && s.highDone + (if MainAt(s) >= 6 then 1 else 0) == (if HighAt(s) >= 6 then 1 else 0)
    && (HighAt(s) >= 3 ==> s.low == LowEnd)
  }

  lemma InvMove(s: State, m: Move)
    requires Inv(s) && Enabled(s, m)
    ensures Inv(Next(s, m))
  {
  }

  lemma InvStep()
    ensures Inductive(Threads(), Inv)
  {
    forall s, m | Inv(s) && Enabled(s, m)
      ensures Inv(Next(s, m))
    {
      InvMove(s, m);
    }
  }

  ghost predicate Reachable(s: State)
  {
    Reaches(Threads(), Init(), s)
  }

  lemma ReachableInv(s: State)
    requires Reachable(s)
    ensures Inv(s)
  {
    var moves :| IsRun(Threads(), Init(), moves) && Exec(Threads(), Init(), moves) == s;
    InvStep();
    InvariantOnRuns(Threads(), Inv, Init(), moves);
  }

  /** In every interleaving the start-up order that makes the measurement meaningful is kept. */
  lemma OrderKept(s: State)
    requires Reachable(s)
    // mutual exclusion
    ensures !(2 <= LowAt(s) <= 4 && 3 <= HighAt(s) <= 4)
    // low has locked before high exists
    ensures s.high != NoHigh ==> LowAt(s) >= 3
    // med exists only after high announced itself
    ensures s.med != NoMed ==> HighAt(s) >= 2
    // high locks only after low unlocked
    ensures HighAt(s) >= 3 ==> s.low == LowEnd
    // main returns only after high has unlocked and reported
    ensures s.main == Returned ==> s.high == HighEnd && s.owner == Free
    // no semaphore ever holds more than one post
    ensures s.lowLocked <= 1 && s.highReady <= 1 && s.highDone <= 1
  {
    ReachableInv(s);
  }

  lemma SomeThreadRuns(s: State)
    requires Inv(s)
    ensures s.main == Returned || Enabled(s, Main) || Enabled(s, Low) || Enabled(s, High)
  {
  }

  /** Until main returns, some thread other than the busy med can move. */
  lemma NeverStuck(s: State)
    requires Reachable(s)
    ensures s.main == Returned || Enabled(s, Main) || Enabled(s, Low) || Enabled(s, High)
    ensures Stuck(Threads(), s) <==> s.main == Returned
  {
    ReachableInv(s);
    SomeThreadRuns(s);
    assert s.main == Returned || Threads().enabled(s, Main) || Threads().enabled(s, Low) || Threads().enabled(s, High);
  }

  function Rank(s: State): nat { 19 - MainAt(s) - LowAt(s) - HighAt(s) - MedAt(s) }

  lemma RankMove(s: State, m: Move)
    requires Inv(s) && Enabled(s, m)
    ensures Rank(Next(s, m)) < Rank(s)
  {
  }

  /** Every run has at most 19 moves. */
  lemma RunsAreShort(moves: seq<Move>)
    requires IsRun(Threads(), Init(), moves)
    ensures |moves| <= 19
  {
    InvStep();
    forall s, m | Inv(s) && Enabled(s, m)
      ensures Rank(Next(s, m)) < Rank(s)
    {
      RankMove(s, m);
    }
    StrictRunLength(Threads(), Inv, Rank, Init(), moves);
  }

  // ----- program order

  const MAIN_PROGRAM: seq<MainPc> := [CreateLow, WaitLowLocked, CreateHigh, WaitHighReady, CreateMed, WaitHighDone]

  const LOW_PROGRAM: seq<LowPc> := [LowLock, LowPost, LowHold, LowUnlock]

  const HIGH_PROGRAM: seq<HighPc> := [HighPost, HighLock, HighLocked, HighUnlock, HighPostDone]

  function MainOperation(s: State, m: Move): seq<MainPc> { if m == Main then [s.main] else [] }

  function LowOperation(s: State, m: Move): seq<LowPc> { if m == Low then [s.low] else [] }

  function HighOperation(s: State, m: Move): seq<HighPc> { if m == High then [s.high] else [] }

  function MainDid(s: State): seq<MainPc> { MAIN_PROGRAM[..MainAt(s)] }

  function LowDid(s: State): seq<LowPc> { LOW_PROGRAM[..if LowAt(s) == 0 then 0 else LowAt(s) - 1] }

  function HighDid(s: State): seq<HighPc> { HIGH_PROGRAM[..if HighAt(s) == 0 then 0 else HighAt(s) - 1] }

  lemma MainOperationDone(s: State, m: Move)
    requires Inv(s) && Enabled(s, m)
    ensures MainDid(Next(s, m)) == MainDid(s) + MainOperation(s, m)
  {
    hide Inv;
  }

  lemma LowOperationDone(s: State, m: Move)
    requires Inv(s) && Enabled(s, m)
    ensures LowDid(Next(s, m)) == LowDid(s) + LowOperation(s, m)
  {
  }

  lemma HighOperationDone(s: State, m: Move)
    requires Inv(s) && Enabled(s, m)
    ensures HighDid(Next(s, m)) == HighDid(s) + HighOperation(s, m)
  {
  }

  lemma OperationsLogged(moves: seq<Move>)
    requires IsRun(Threads(), Init(), moves)
    ensures var s := Exec(Threads(), Init(), moves);
      && Inv(s)
      && MainDid(s) == MainDid(Init()) + Trace(Threads(), MainOperation, Init(), moves)
      && LowDid(s) == LowDid(Init()) + Trace(Threads(), LowOperation, Init(), moves)
      && HighDid(s) == HighDid(Init()) + Trace(Threads(), HighOperation, Init(), moves)
  {
    InvStep();
    InvariantOnRuns(Threads(), Inv, Init(), moves);
    assert Inv(Init());
    forall s, m | Inv(s) && Enabled(s, m)
      ensures Inv(Next(s, m))
      ensures MainDid(Next(s, m)) == MainDid(s) + MainOperation(s, m)
      ensures LowDid(Next(s, m)) == LowDid(s) + LowOperation(s, m)
      ensures HighDid(Next(s, m)) == HighDid(s) + HighOperation(s, m)
    {
      InvMove(s, m);
      MainOperationDone(s, m);
      LowOperationDone(s, m);
      HighOperationDone(s, m);
    }
    hide Inv, Next, Enabled, MainDid, LowDid, HighDid, MainOperation, LowOperation, HighOperation, Init;
    LogIsTrace(Threads(), Inv, (_: Move) => true, MainOperation, MainDid, Init(), moves);
    LogIsTrace(Threads(), Inv, (_: Move) => true, LowOperation, LowDid, Init(), moves);
    LogIsTrace(Threads(), Inv, (_: Move) => true, HighOperation, HighDid, Init(), moves);
  }

  lemma ProgramsDone(s: State)
    requires Inv(s)
    ensures MainDid(Init()) == [] && LowDid(Init()) == [] && HighDid(Init()) == []
    ensures MainDid(s) <= MAIN_PROGRAM && LowDid(s) <= LOW_PROGRAM && HighDid(s) <= HIGH_PROGRAM
    ensures s.main == Returned ==> MainDid(s) == MAIN_PROGRAM && LowDid(s) == LOW_PROGRAM && HighDid(s) == HIGH_PROGRAM
  {
  }

  /**
   In every run each thread goes through its program in order and skips nothing; in a
   run that returns, main, low and high have gone through all of theirs.
   */
  lemma ProgramOrder(moves: seq<Move>)
    requires IsRun(Threads(), Init(), moves)
    ensures Trace(Threads(), MainOperation, Init(), moves) <= MAIN_PROGRAM
    ensures Trace(Threads(), LowOperation, Init(), moves) <= LOW_PROGRAM
    ensures Trace(Threads(), HighOperation, Init(), moves) <= HIGH_PROGRAM
    ensures Exec(Threads(), Init(), moves).main == Returned ==>
      && Trace(Threads(), MainOperation, Init(), moves) == MAIN_PROGRAM
      && Trace(Threads(), LowOperation, Init(), moves) == LOW_PROGRAM
      && Trace(Threads(), HighOperation, Init(), moves) == HIGH_PROGRAM
  {
    OperationsLogged(moves);
    ProgramsDone(Exec(Threads(), Init(), moves));
    hide Inv, MainDid, LowDid, HighDid;
  }

  /** The semaphores, the mutex and the four threads, updated in place. */
  class Program {
    var main: MainPc
    var low: LowPc
    var med: MedPc
    var high: HighPc
    var owner: Owner
    var lowLocked: nat
    var highReady: nat
    var highDone: nat

    function View(): State
      reads this
    {
      State(main, low, med, high, owner, lowLocked, highReady, highDone)
    }

    constructor ()
      ensures View() == Init()
    {
      main, low, med, high, owner := CreateLow, NoLow, NoMed, NoHigh, Free;
      lowLocked, highReady, highDone := 0, 0, 0;
    }

    method Run(m: Move)
      requires Enabled(View(), m)
      modifies this
      ensures View() == Next(old(View()), m)
    {
      match m {
        case Main =>
          match main {
            case CreateLow => low, main := LowLock, WaitLowLocked;
            case WaitLowLocked => lowLocked, main := lowLocked - 1, CreateHigh;
            case CreateHigh => high, main := HighPost, WaitHighReady;
            case WaitHighReady => highReady, main := highReady - 1, CreateMed;
            case CreateMed => med, main := MedBusy, WaitHighDone;
            case WaitHighDone => highDone, main := highDone - 1, Returned;
          }
        case Low =>
          match low {
            case LowLock => owner, low := ByLow, LowPost;
            case LowPost => lowLocked, low := lowLocked + 1, LowHold;
            case LowHold => low := LowUnlock;
            case LowUnlock => owner, low := Free, LowEnd;
          }
        case Med => med := MedEnd;
        case High =>
          match high {
            case HighPost => highReady, high := highReady + 1, HighLock;
            case HighLock => owner, high := ByHigh, HighLocked;
            case HighLocked => high := HighUnlock;
            case HighUnlock => owner, high := Free, HighPostDone;
            case HighPostDone => highDone, high := highDone + 1, HighEnd;
          }
      }
    }

    /** Under any scheduler `main` returns, after high's report and with the mutex free. */
    method RunToReturn()
      requires View() == Init()
      modifies this
      ensures main == Returned && high == HighEnd && low == LowEnd && owner == Free
    {
      while main != Returned
        invariant Inv(View())
        decreases Rank(View())
      {
        SomeThreadRuns(View());
        var m;
        if {
          case Enabled(View(), Main) => m := Main;
          case Enabled(View(), Low) => m := Low;
          case Enabled(View(), Med) => m := Med;
          case Enabled(View(), High) => m := High;
        }
        RankMove(View(), m);
        InvMove(View(), m);
        Run(m);
      }
    }
  }
}
