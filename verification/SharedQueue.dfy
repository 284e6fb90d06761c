/**
 ipc_latency.c: parent and child exchange "ping" over ONE message queue, so either may
 receive any message, its own included. What is kept is not lockstep but the token:
 the message is in exactly one place, the queue or the buffer of a process about to
 send it.

 Buffers are C strings in 64 bytes; a send copies strlen + 1 of them, a receive
 overwrites the front of the buffer.
 */
module SharedQueue {
  import opened Alternation
  import opened Options
  import opened Transitions

  const MAX_MESSAGES := 10
  const MSG_SIZE := 64
  const NUL: char := '\0'
  const PING: string := "ping" + [NUL]

  datatype State = State(
    queue: seq<string>,
    parentBuf: string, rounds: nat, waiting: bool,
    childBuf: string, echoed: nat, holding: bool)

  datatype Move = Parent | Child

  /** The length up to the terminator; the whole buffer if there is none. */
  function StrLen(buf: string): (n: nat)
    ensures n <= |buf|
  {
    if buf == [] || buf[0] == NUL then 0 else 1 + StrLen(buf[1..])
  }

  /** What mq_send(buffer, strlen(buffer) + 1) queues. */
  function Message(buf: string): string
  {
    if StrLen(buf) < |buf| then buf[..StrLen(buf) + 1] else buf
  }

  /** What mq_receive leaves in the buffer. */
  function Received(buf: string, message: string): string
  {
    if |message| <= |buf| then message + buf[|message|..] else buf
  }

  ghost predicate Initial(s: State)
  {
    && s.queue == [] && s.rounds == s.echoed == 0 && !s.waiting && !s.holding
    && |s.parentBuf| == |s.childBuf| == MSG_SIZE && PING <= s.parentBuf
  }

  predicate ParentDone(iterations: nat, s: State) { s.rounds >= iterations && !s.waiting }

  predicate ChildDone(iterations: nat, s: State) { s.echoed >= iterations && !s.holding }

  predicate Enabled(iterations: nat, s: State, m: Move)
  {
    match m
    case Parent => !ParentDone(iterations, s) && if s.waiting then |s.queue| > 0 else |s.queue| < MAX_MESSAGES
    case Child => !ChildDone(iterations, s) && if s.holding then |s.queue| < MAX_MESSAGES else |s.queue| > 0
  }

  /** ipc_latency.c:141-155. */
  function ParentStep(s: State): State
  {
    if !s.waiting then s.(queue := s.queue + [Message(s.parentBuf)], waiting := true)
    else if s.queue == [] then s
    else s.(parentBuf := Received(s.parentBuf, s.queue[0]), queue := s.queue[1..], waiting := false, rounds := s.rounds + 1)
  }

  /** ipc_latency.c:98-107. */
  function ChildStep(s: State): State
  {
    if s.holding then s.(queue := s.queue + [Message(s.childBuf)], holding := false, echoed := s.echoed + 1)
    else if s.queue == [] then s
    else s.(childBuf := Received(s.childBuf, s.queue[0]), queue := s.queue[1..], holding := true)
  }

  function Next(s: State, m: Move): State
  {
    match m case Parent => ParentStep(s) case Child => ChildStep(s)
  }

  function Processes(iterations: nat): System<State, Move>
  {
    System((s, m) => Enabled(iterations, s, m), Next)
  }

  /** The places the message is in. */
  function Tokens(s: State): nat
  {
    |s.queue| + (if s.waiting then 0 else 1) + (if s.holding then 1 else 0)
  }

  ghost predicate Inv(iterations: nat, s: State)
  {
    && Tokens(s) == 1
    && s.rounds <= iterations && (s.waiting ==> s.rounds < iterations)
    && s.echoed <= iterations && (s.holding ==> s.echoed < iterations)
    && |s.parentBuf| == |s.childBuf| == MSG_SIZE
    && PING <= s.parentBuf
    && (s.holding ==> PING <= s.childBuf)
    && (forall k :: 0 <= k < |s.queue| ==> s.queue[k] == PING)
  }

  lemma {:induction false} StrLenIs(buf: string, n: nat)
    requires n <= |buf| && (forall k :: 0 <= k < n ==> buf[k] != NUL) && (n < |buf| ==> buf[n] == NUL)
    ensures StrLen(buf) == n
    decreases n
  {
    if n > 0 {
      StrLenIs(buf[1..], n - 1);
    }
  }

  /** A send queues the buffer up to and with its first zero byte, whatever the buffer holds. */
  lemma MessageMeaning(buf: string, n: nat)
    requires n < |buf| && buf[n] == '\0' && '\0' !in buf[..n]
    ensures Message(buf) == buf[..n + 1]
  {
    forall k | 0 <= k < n
      ensures buf[k] != NUL
    {
      assert buf[k] == buf[..n][k];
    }
    StrLenIs(buf, n);
  }

  /** A receive overwrites the front of the buffer and nothing else. */
  lemma ReceivedMeaning(buf: string, message: string, k: nat)
    requires |message| <= |buf| && k < |buf|
    ensures |Received(buf, message)| == |buf|
    ensures Received(buf, message)[k] == if k < |message| then message[k] else buf[k]
  {
  }

  lemma PingMessage(buf: string)
    requires PING <= buf
    ensures Message(buf) == PING
  {
    StrLenIs(buf, 4);
  }

  lemma InvMove(iterations: nat, s: State, m: Move)
    requires Inv(iterations, s) && Enabled(iterations, s, m)
    ensures Inv(iterations, Next(s, m))
  {
    if m == Parent && !s.waiting { PingMessage(s.parentBuf); }
    if m == Child && s.holding { PingMessage(s.childBuf); }
  }

  lemma InvStep(iterations: nat)
    ensures Inductive(Processes(iterations), s => Inv(iterations, s))
  {
    forall s, m | Inv(iterations, s) && Enabled(iterations, s, m)
      ensures Inv(iterations, Next(s, m))
    {
      InvMove(iterations, s, m);
    }
  }

  ghost predicate Reachable(iterations: nat, s: State)
  {
    exists s0 :: Initial(s0) && Reaches(Processes(iterations), s0, s)
  }

  lemma ReachableInv(iterations: nat, s: State)
    requires Reachable(iterations, s)
    ensures Inv(iterations, s)
  {
    var s0 :| Initial(s0) && Reaches(Processes(iterations), s0, s);
    var moves :| IsRun(Processes(iterations), s0, moves) && Exec(Processes(iterations), s0, moves) == s;
    InvStep(iterations);
    InvariantOnRuns(Processes(iterations), s => Inv(iterations, s), s0, moves);
  }

  /**
   One token: whoever takes whose message, exactly one copy exists, so the queue bound
   never blocks a sender, every message is the five bytes of "ping", and the processes
   come to rest exactly when the parent has finished.
   */
  lemma OneToken(iterations: nat, s: State)
    requires Reachable(iterations, s)
    ensures Tokens(s) == 1
    ensures !s.waiting || s.holding ==> |s.queue| < MAX_MESSAGES
    ensures forall k :: 0 <= k < |s.queue| ==> s.queue[k] == PING && |s.queue[k]| == 5
    ensures Stuck(Processes(iterations), s) <==> ParentDone(iterations, s)
  {
    ReachableInv(iterations, s);
    var sys := Processes(iterations);
    assert ParentDone(iterations, s) || sys.enabled(s, Parent) || sys.enabled(s, Child);
  }

  /** Queue operations done so far. */
  function Operations(s: State): nat
  {
    2 * s.rounds + (if s.waiting then 1 else 0) + 2 * s.echoed + (if s.holding then 1 else 0)
  }

  ghost function OperationsLeft(iterations: nat, s: State): nat
  {
    if Inv(iterations, s) then 4 * iterations - Operations(s) else 0
  }

  /** Both processes together make at most 4N queue operations, whoever takes whose messages. */
  lemma RunsAreShort(iterations: nat, s0: State, moves: seq<Move>)
    requires Initial(s0) && IsRun(Processes(iterations), s0, moves)
    ensures |moves| <= 4 * iterations
  {
    InvStep(iterations);
    forall s, m | Inv(iterations, s) && Enabled(iterations, s, m)
      ensures OperationsLeft(iterations, Next(s, m)) < OperationsLeft(iterations, s)
    {
      InvMove(iterations, s, m);
    }
    StrictRunLength(Processes(iterations), s => Inv(iterations, s), s => OperationsLeft(iterations, s), s0, moves);
  }

  // ----- not an alternation

  function Emit(s: State, m: Move): seq<Event<string>>
  {
    match m
    case Parent =>
      if !s.waiting then [Send(Message(s.parentBuf))] else if s.queue != [] then [Accept(s.queue[0])] else []
    case Child => if s.holding then [Echo(Message(s.childBuf))] else []
  }

  ghost function RunTrace(iterations: nat, s: State, moves: seq<Move>): seq<Event<string>>
  {
    Trace(Processes(iterations), Emit, s, moves)
  }

  /** The schedule in which the two processes take turns at every message. */
  function Lockstep(rounds: nat): seq<Move>
  {
    if rounds == 0 then [] else [Parent, Child, Child, Parent] + Lockstep(rounds - 1)
  }

  function ParentAlone(rounds: nat): seq<Move>
  {
    if rounds == 0 then [] else [Parent, Parent] + ParentAlone(rounds - 1)
  }

  /** The parent can finish without a single message passing through the child: it receives what it sent. */
  lemma {:induction false} ChildCanBeBypassed(iterations: nat, s: State, left: nat)
    requires Inv(iterations, s) && !s.waiting && !s.holding && s.rounds + left == iterations
    ensures IsRun(Processes(iterations), s, ParentAlone(left))
    ensures var end := Exec(Processes(iterations), s, ParentAlone(left));
      ParentDone(iterations, end) && end.echoed == s.echoed && end.childBuf == s.childBuf
    decreases left
  {
    if left > 0 {
      var t := Next(s, Parent);
      InvMove(iterations, s, Parent);
      InvMove(iterations, t, Parent);
      ChildCanBeBypassed(iterations, Next(t, Parent), left - 1);
      assert ParentAlone(left)[0] == Parent && ParentAlone(left)[1..][0] == Parent;
      assert ParentAlone(left)[1..][1..] == ParentAlone(left - 1);
    }
  }

  ghost predicate RunAccepted(iterations: nat, a: Alt<string>, s: State, moves: seq<Move>)
  {
    Accepts(iterations, a, RunTrace(iterations, s, moves))
  }

  lemma FirstMove(iterations: nat, a: Alt<string>, s: State, moves: seq<Move>)
    requires moves != []
    ensures RunAccepted(iterations, a, s, moves) <==>
      var shown := Emit(s, moves[0]);
      var a' := if shown == [] then Some(a) else Step(iterations, a, shown[0]);
      a'.Some? && RunAccepted(iterations, a'.value, Next(s, moves[0]), moves[1..])
  {
    var shown, rest := Emit(s, moves[0]), RunTrace(iterations, Next(s, moves[0]), moves[1..]);
    if shown == [] {
      assert shown + rest == rest;
    } else {
      assert (shown + rest)[0] == shown[0] && (shown + rest)[1..] == rest;
    }
  }

  /** A run of the two processes that takes the parent to the end of its loop. */
  ghost predicate Completes(iterations: nat, s: State, moves: seq<Move>)
  {
    IsRun(Processes(iterations), s, moves) && ParentDone(iterations, Exec(Processes(iterations), s, moves))
  }

  /** Between two rounds of a lockstep run. */
  ghost predicate Boundary(iterations: nat, s: State)
  {
    Inv(iterations, s) && !s.waiting && !s.holding && s.echoed == s.rounds
  }

  /** The state in the middle of a lockstep round: the ping is queued for the child, held by it, queued for the parent. */
  function Asked(s: State): State { Next(s, Parent) }

  function Held(s: State): State { Next(Asked(s), Child) }

  function Answered(s: State): State { Next(Held(s), Child) }

  lemma LockstepRound(iterations: nat, s: State)
    requires Boundary(iterations, s) && s.rounds < iterations
    ensures !Enabled(iterations, s, Child)
    ensures Inv(iterations, Asked(s)) && Asked(s).waiting && Emit(s, Parent) == [Send(PING)]
    ensures Emit(Asked(s), Parent) == [Accept(PING)] && Emit(Asked(s), Child) == []
    ensures Inv(iterations, Held(s)) && !Enabled(iterations, Held(s), Parent) && Emit(Held(s), Child) == [Echo(PING)]
    ensures Inv(iterations, Answered(s)) && Answered(s).waiting
    ensures Emit(Answered(s), Parent) == [Accept(PING)] && Emit(Answered(s), Child) == []
    ensures Boundary(iterations, Next(Answered(s), Parent)) && Next(Answered(s), Parent).rounds == s.rounds + 1
  {
    PingMessage(s.parentBuf);
    InvMove(iterations, s, Parent);
    InvMove(iterations, Asked(s), Child);
    PingMessage(Held(s).childBuf);
    InvMove(iterations, Held(s), Child);
    InvMove(iterations, Answered(s), Parent);
  }

  /** A child that receives its own echo can only echo again: the run is no alternation any more. */
  lemma OwnEchoRejected(iterations: nat, a: Alt<string>, s: State, moves: seq<Move>)
    requires a.phase.Answered? && Inv(iterations, s) && s.waiting && !s.holding && Enabled(iterations, s, Child)
    requires Completes(iterations, Next(s, Child), moves)
    ensures !RunAccepted(iterations, a, Next(s, Child), moves)
  {
    var t := Next(s, Child);
    InvMove(iterations, s, Child);
    assert moves[0] == Child;
    FirstMove(iterations, a, t, moves);
  }

  /** The first half of a round: the parent asks, and the child must be the one to receive the ping. */
  lemma FirstHalf(iterations: nat, s: State, moves: seq<Move>)
    requires Boundary(iterations, s) && s.rounds < iterations && Completes(iterations, s, moves)
    ensures |moves| >= 2 && moves[0] == Parent
    ensures moves[1] == Child ==> Completes(iterations, Held(s), moves[2..])
    ensures RunAccepted(iterations, Alt(s.rounds, Ready, PING), s, moves) <==>
      moves[1] == Child && RunAccepted(iterations, Alt(s.rounds, Requested, PING), Held(s), moves[2..])
  {
    LockstepRound(iterations, s);
    assert moves != [] && moves[0] == Parent;
    FirstMove(iterations, Alt(s.rounds, Ready, PING), s, moves);
    var rest := moves[1..];
    assert Completes(iterations, Asked(s), rest) && rest != [];
    FirstMove(iterations, Alt(s.rounds, Requested, PING), Asked(s), rest);
    assert rest[1..] == moves[2..];
  }

  /** The second half of a round: the child must echo, and the parent must be the one to receive the echo. */
  lemma SecondHalf(iterations: nat, s: State, moves: seq<Move>)
    requires Boundary(iterations, s) && s.rounds < iterations && Completes(iterations, Held(s), moves)
    ensures |moves| >= 2 && moves[0] == Child
    ensures moves[1] == Parent ==> Completes(iterations, Next(Answered(s), Parent), moves[2..])
    ensures RunAccepted(iterations, Alt(s.rounds, Requested, PING), Held(s), moves) <==>
      moves[1] == Parent && RunAccepted(iterations, Alt(s.rounds + 1, Ready, PING), Next(Answered(s), Parent), moves[2..])
  {
    LockstepRound(iterations, s);
    assert moves != [] && moves[0] == Child;
    FirstMove(iterations, Alt(s.rounds, Requested, PING), Held(s), moves);
    var rest := moves[1..];
    assert Completes(iterations, Answered(s), rest) && rest != [];
    FirstMove(iterations, Alt(s.rounds, Alternation.Answered, PING), Answered(s), rest);
    assert Completes(iterations, Next(Answered(s), rest[0]), rest[1..]) && rest[1..] == moves[2..];
    if rest[0] == Child {
      OwnEchoRejected(iterations, Alt(s.rounds, Alternation.Answered, PING), Answered(s), rest[1..]);
    }
  }

  lemma {:induction false} LockstepFrom(iterations: nat, s: State, moves: seq<Move>)
    requires Boundary(iterations, s) && Completes(iterations, s, moves)
    ensures RunAccepted(iterations, Alt(s.rounds, Ready, PING), s, moves) <==> moves == Lockstep(iterations - s.rounds)
    decreases |moves|
  {
    if s.rounds == iterations {
      assert moves == [];
    } else {
      LockstepRound(iterations, s);
      FirstHalf(iterations, s, moves);
      var next := Next(Answered(s), Parent);
      hide Boundary, Completes, RunAccepted, Next, Held, Answered;
      var round := [Parent, Child, Child, Parent];
      assert Lockstep(iterations - s.rounds) == round + Lockstep(iterations - s.rounds - 1);
      if moves[1] == Child {
        SecondHalf(iterations, s, moves[2..]);
        if moves[3] == Parent {
          LockstepFrom(iterations, next, moves[4..]);
          assert moves[2..][2..] == moves[4..] && moves == round + moves[4..];
        }
      }
    }
  }

  /**
   A completed run is an alternation of requests and answers exactly when its schedule
   is the lockstep one. Nothing in the program enforces that schedule.
   */
  lemma AlternatesIffLockstep(iterations: nat, s0: State, moves: seq<Move>)
    requires Initial(s0) && Completes(iterations, s0, moves)
    ensures Accepts(iterations, Alt(0, Ready, PING), RunTrace(iterations, s0, moves)) <==> moves == Lockstep(iterations)
  {
    LockstepFrom(iterations, s0, moves);
  }

  /** Hence the program does not refine the alternation machine, for any positive number of iterations. */
  lemma DoesNotRefineAlternation(iterations: nat, s0: State)
    requires Initial(s0) && iterations > 0
    ensures var moves := ParentAlone(iterations);
      && Completes(iterations, s0, moves)
      && Exec(Processes(iterations), s0, moves).echoed == 0
      && !Accepts(iterations, Alt(0, Ready, PING), RunTrace(iterations, s0, moves))
  {
    ChildCanBeBypassed(iterations, s0, iterations);
    AlternatesIffLockstep(iterations, s0, ParentAlone(iterations));
    assert ParentAlone(iterations)[1] == Parent && Lockstep(iterations)[1] == Child;
  }

  /** The queue and the two buffers, updated in place. */
  class Program {
    const iterations: nat
    var queue: seq<string>
    var parentBuf: string
    var rounds: nat
    var waiting: bool
    var childBuf: string
    var echoed: nat
    var holding: bool

    function View(): State
      reads this
    {
      State(queue, parentBuf, rounds, waiting, childBuf, echoed, holding)
    }

    constructor (iterations: nat, parentBuf: string, childBuf: string)
      requires |parentBuf| == |childBuf| == MSG_SIZE && PING <= parentBuf
      ensures this.iterations == iterations && Initial(View())
    {
      this.iterations, this.parentBuf, this.childBuf := iterations, parentBuf, childBuf;
      queue, rounds, waiting, echoed, holding := [], 0, false, 0, false;
    }

    method SendMessage(buf: string)
      requires |queue| < MAX_MESSAGES
      modifies this`queue
      ensures queue == old(queue) + [Message(buf)]
    {
      var n := 0;
      while n < |buf| && buf[n] != NUL
        invariant n <= |buf| && forall k :: 0 <= k < n ==> buf[k] != NUL
      {
        n := n + 1;
      }
      StrLenIs(buf, n);
      queue := queue + [if n < |buf| then buf[..n + 1] else buf];
    }

    method Run(m: Move)
      requires Inv(iterations, View()) && Enabled(iterations, View(), m)
      modifies this
      ensures View() == Next(old(View()), m)
    {
      match m {
        case Parent =>
          if !waiting {
            SendMessage(parentBuf);
            waiting := true;
          } else {
            parentBuf, queue := queue[0] + parentBuf[|queue[0]|..], queue[1..];
            waiting, rounds := false, rounds + 1;
          }
        case Child =>
          if holding {
            SendMessage(childBuf);
            holding, echoed := false, echoed + 1;
          } else {
            childBuf, queue := queue[0] + childBuf[|queue[0]|..], queue[1..];
            holding := true;
          }
      }
    }

    /** Under any scheduler the parent completes its rounds, whoever received whose messages. */
    method RunToCompletion()
      requires Initial(View())
      modifies this
      ensures rounds == iterations && !waiting && queue == [] && PING <= parentBuf
    {
      while rounds < iterations || waiting
        invariant Inv(iterations, View())
        decreases OperationsLeft(iterations, View())
      {
        var m;
        if {
          case Enabled(iterations, View(), Parent) => m := Parent;
          case Enabled(iterations, View(), Child) => m := Child;
        }
        InvMove(iterations, View(), m);
        Run(m);
      }
    }
  }
}
