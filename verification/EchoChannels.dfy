/**
 The two-channel echo programs: ipc_mq_latency.c over two message queues of 64-byte
 messages, process_ctx_switch.c over two pipes of single bytes. Both parents send
 their buffer and wait for the echo; both children echo what they receive.

 A message is a value of type `T`. On pipes an exited child has closed its ends, so a
 write to it breaks the pipe and a read past its last byte meets the end of file.
 */
module EchoChannels {
  import opened Alternation
  import opened Options
  import opened Transitions

  datatype Kind = Queue | Pipe

  datatype Config = Config(kind: Kind, capacity: nat, iterations: nat)

  datatype State<T> = State(
    toChild: seq<T>, toParent: seq<T>,
    parentBuf: T, rounds: nat, waiting: bool, failed: bool,
    childBuf: T, echoed: nat, holding: bool, exited: bool)

  datatype Move = Parent | Child

  /** `message` is in the parent's buffer; the child's buffer holds garbage. */
  function Init<T>(message: T, garbage: T): State<T>
  {
    State([], [], message, 0, false, false, garbage, 0, false, false)
  }

  predicate ParentDone<T>(c: Config, s: State<T>) { s.rounds >= c.iterations && !s.waiting }

  predicate ChildGone<T>(c: Config, s: State<T>) { c.kind.Pipe? && s.exited }

  predicate Enabled<T>(c: Config, s: State<T>, m: Move)
  {
    match m
    case Parent =>
      && !s.failed && !ParentDone(c, s)
      && (ChildGone(c, s) || if s.waiting then |s.toParent| > 0 else |s.toChild| < c.capacity)
    case Child =>
      && !s.exited
      && if s.holding then |s.toParent| < c.capacity else s.echoed >= c.iterations || |s.toChild| > 0
  }

  /** ipc_mq_latency.c:136-150, process_ctx_switch.c:62-71. */
  function ParentStep<T>(c: Config, s: State<T>): State<T>
  {
    if !s.waiting then
      if ChildGone(c, s) then s.(failed := true)
      else s.(toChild := s.toChild + [s.parentBuf], waiting := true)
    else if s.toParent == [] then s.(failed := true)
    else s.(parentBuf := s.toParent[0], toParent := s.toParent[1..], waiting := false, rounds := s.rounds + 1)
  }

  /** ipc_mq_latency.c:95-108, process_ctx_switch.c:36-46. */
  function ChildStep<T>(c: Config, s: State<T>): State<T>
  {
    if s.holding then s.(toParent := s.toParent + [s.childBuf], holding := false, echoed := s.echoed + 1)
    else if s.echoed < c.iterations && s.toChild != [] then
      s.(childBuf := s.toChild[0], toChild := s.toChild[1..], holding := true)
    else s.(exited := true)
  }

  function Next<T>(c: Config, s: State<T>, m: Move): State<T>
  {
    match m case Parent => ParentStep(c, s) case Child => ChildStep(c, s)
  }

  function Processes<T>(c: Config): System<State<T>, Move>
  {
    System((s, m) => Enabled(c, s, m), (s, m) => Next(c, s, m))
  }

  /** Strict lockstep: one of four situations, the message in exactly one place. */
  ghost predicate Inv<T>(c: Config, message: T, s: State<T>)
  {
    && c.capacity > 0
    && !s.failed && s.parentBuf == message
    && s.rounds <= c.iterations && s.echoed <= c.iterations
    && (s.exited ==> s.echoed == c.iterations)
    && (if !s.waiting then s.toChild == s.toParent == [] && !s.holding && s.echoed == s.rounds
        else if s.holding then s.toChild == s.toParent == [] && s.childBuf == message && s.echoed == s.rounds < c.iterations
        else if s.echoed == s.rounds then s.toChild == [message] && s.toParent == [] && s.rounds < c.iterations
        else s.toChild == [] && s.toParent == [message] && s.echoed == s.rounds + 1)
  }

  lemma InvMove<T>(c: Config, message: T, s: State<T>, m: Move)
    requires Inv(c, message, s) && Enabled(c, s, m)
    ensures Inv(c, message, Next(c, s, m))
  {
  }

  lemma InvStep<T(!new)>(c: Config, message: T)
    ensures Inductive(Processes(c), s => Inv(c, message, s))
  {
    forall s: State<T>, m | Inv(c, message, s) && Enabled(c, s, m)
      ensures Inv(c, message, Next(c, s, m))
    {
      InvMove(c, message, s, m);
    }
  }

  ghost predicate Reachable<T(!new)>(c: Config, message: T, s: State<T>)
  {
    exists garbage :: Reaches(Processes(c), Init(message, garbage), s)
  }

  lemma ReachableInv<T(!new)>(c: Config, message: T, s: State<T>)
    requires c.capacity > 0 && Reachable(c, message, s)
    ensures Inv(c, message, s)
  {
    var garbage :| Reaches(Processes(c), Init(message, garbage), s);
    var moves :| IsRun(Processes(c), Init(message, garbage), moves) && Exec(Processes(c), Init(message, garbage), moves) == s;
    InvStep(c, message);
    InvariantOnRuns(Processes(c), s => Inv(c, message, s), Init(message, garbage), moves);
  }

  /**
   At most one message is in flight, no send ever finds its channel full, and neither
   a broken pipe nor a premature end of file ever stops the parent. Until the parent
   is done one process can move; then both channels are empty, every message has been
   echoed, a child that is killed has nothing left to send, and one that is waited for
   can exit.
   */
  lemma Lockstep<T(!new)>(c: Config, message: T, s: State<T>)
    requires c.capacity > 0 && Reachable(c, message, s)
    ensures |s.toChild| + |s.toParent| <= 1
    ensures !s.failed
    ensures !ParentDone(c, s) ==> !(c.kind.Pipe? && s.exited && s.toParent == [])
    ensures !s.waiting && s.rounds < c.iterations ==> !s.exited
    ensures !s.waiting ==> |s.toChild| < c.capacity
    ensures s.holding ==> |s.toParent| < c.capacity
    ensures ParentDone(c, s) || Enabled(c, s, Parent) || Enabled(c, s, Child)
    ensures ParentDone(c, s) ==>
      && s.toChild == s.toParent == [] && s.echoed == c.iterations && !s.holding && s.parentBuf == message
      && (s.exited || Enabled(c, s, Child))
  {
    ReachableInv(c, message, s);
  }

  function Rank<T>(c: Config, s: State<T>): int
  {
    4 * (c.iterations - s.rounds)
    - (if !s.waiting then 0 else if s.holding then 2 else if s.echoed == s.rounds then 1 else 3)
    + (if s.exited then 0 else 1)
  }

  ghost function MovesLeft<T>(c: Config, message: T, s: State<T>): nat
  {
    if Inv(c, message, s) then Rank(c, s) else 0
  }

  /** Every run has at most four moves a round and the child's exit. */
  lemma RunsAreShort<T(!new)>(c: Config, message: T, garbage: T, moves: seq<Move>)
    requires c.capacity > 0 && IsRun(Processes(c), Init(message, garbage), moves)
    ensures |moves| <= 4 * c.iterations + 1
  {
    InvStep(c, message);
    forall s: State<T>, m | Inv(c, message, s) && Enabled(c, s, m)
      ensures MovesLeft(c, message, Next(c, s, m)) < MovesLeft(c, message, s)
    {
      InvMove(c, message, s, m);
    }
    StrictRunLength(Processes(c), s => Inv(c, message, s), s => MovesLeft(c, message, s), Init(message, garbage), moves);
  }

  function Emit<T>(s: State<T>, m: Move): seq<Event<T>>
  {
    match m
    case Parent =>
      if !s.waiting then [Send(s.parentBuf)] else if s.toParent != [] then [Accept(s.toParent[0])] else []
    case Child => if s.holding then [Echo(s.childBuf)] else []
  }

  function Abstract<T>(s: State<T>): Alt<T>
  {
    Alt(s.rounds, if !s.waiting then Ready else if s.echoed > s.rounds then Answered else Requested, s.parentBuf)
  }

  ghost predicate SimulatedMove<T>(c: Config, s: State<T>, m: Move)
  {
    var shown := Emit(s, m);
    if shown == [] then Abstract(Next(c, s, m)) == Abstract(s)
    else |shown| == 1 && Step(c.iterations, Abstract(s), shown[0]) == Some(Abstract(Next(c, s, m)))
  }

  /**
   Every run refines the alternation machine: the k-th receive of the parent returns
   the child's k-th echo of the parent's k-th send, unchanged. A completed run makes
   all the rounds.
   */
  lemma RefinesAlternation<T(!new)>(c: Config, message: T, garbage: T, moves: seq<Move>)
    requires c.capacity > 0 && IsRun(Processes(c), Init(message, garbage), moves)
    ensures var trace := Trace(Processes(c), Emit, Init(message, garbage), moves);
      && |trace| <= 3 * c.iterations
      && (forall i :: 0 <= i < |trace| ==> trace[i] == EventAt(message, i))
      && (ParentDone(c, Exec(Processes(c), Init(message, garbage), moves)) ==> |trace| == 3 * c.iterations)
  {
    var sys, s0 := Processes<T>(c), Init(message, garbage);
    InvStep(c, message);
    forall s: State<T>, m | Inv(c, message, s) && Enabled(c, s, m)
      ensures SimulatedMove(c, s, m)
    {
      InvMove(c, message, s, m);
    }
    RefinementOnRuns(c.iterations, sys, s => Inv(c, message, s), Emit, Abstract, s0, moves);
    InvariantOnRuns(sys, s => Inv(c, message, s), s0, moves);
    AcceptsIffAlternating(c.iterations, message, Trace(sys, Emit, s0, moves));
  }

  /** Both processes and both channels, updated in place. */
  class Program<T> {
    const c: Config
    var toChild: seq<T>
    var toParent: seq<T>
    var parentBuf: T
    var rounds: nat
    var waiting: bool
    var failed: bool
    var childBuf: T
    var echoed: nat
    var holding: bool
    var exited: bool

    function View(): State<T>
      reads this
    {
      State(toChild, toParent, parentBuf, rounds, waiting, failed, childBuf, echoed, holding, exited)
    }

    constructor (c: Config, message: T, garbage: T)
      ensures this.c == c && View() == Init(message, garbage)
    {
      this.c := c;
      toChild, toParent := [], [];
      parentBuf, rounds, waiting, failed := message, 0, false, false;
      childBuf, echoed, holding, exited := garbage, 0, false, false;
    }

    method RunParent()
      requires Enabled(c, View(), Parent)
      modifies this
      ensures View() == Next(c, old(View()), Parent)
    {
      if !waiting {
        if ChildGone(c, View()) {
          failed := true;
        } else {
          toChild, waiting := toChild + [parentBuf], true;
        }
      } else if |toParent| == 0 {
        failed := true;
      } else {
        parentBuf, toParent := toParent[0], toParent[1..];
        waiting, rounds := false, rounds + 1;
      }
    }

    method RunChild()
      requires Enabled(c, View(), Child)
      modifies this
      ensures View() == Next(c, old(View()), Child)
    {
      if holding {
        toParent, holding, echoed := toParent + [childBuf], false, echoed + 1;
      } else if echoed < c.iterations {
        childBuf, toChild, holding := toChild[0], toChild[1..], true;
      } else {
        exited := true;
      }
    }

    /** Under any scheduler the parent completes all its rounds with its message intact. */
    method RunToCompletion(ghost message: T, ghost garbage: T)
      requires c.capacity > 0 && View() == Init(message, garbage)
      modifies this
      ensures rounds == echoed == c.iterations && !waiting && !failed && !holding
      ensures toChild == toParent == [] && parentBuf == message
    {
      while rounds < c.iterations || waiting
        invariant Inv(c, message, View())
        decreases Rank(c, View())
      {
        ghost var before := View();
        if {
          case Enabled(c, View(), Parent) => RunParent(); InvMove(c, message, before, Parent);
          case Enabled(c, View(), Child) => RunChild(); InvMove(c, message, before, Child);
        }
      }
    }
  }
}
