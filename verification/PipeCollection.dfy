/**
 How process_fairness.c, ipc_pipe_latency.c and sleep_wake_process.c collect results:
 the parent makes a pipe and forks a child for each writer, then forks the silent
 (load) children, closes its write ends, waits for every child, and only then reads
 one text from each pipe.

 A fork copies the parent's open write ends, so a child holds the ends of all earlier
 pipes too; a read of an empty pipe blocks while any process still holds its write end.
 Read ends stay open in the parent until read, so they are not part of the state.
 */
module PipeCollection {
  import opened Decimal
  import opened Options
  import opened Sums
  import opened Transitions

  /** `texts[j]` is what writer j prints; `readMax` is one less than the parent's buffer. */
  datatype Config = Config(texts: seq<string>, silent: nat, capacity: nat, readMax: nat)

  datatype KidPc = Working | Written | Closed | Exited | Reaped

  datatype Kid = Kid(pc: KidPc, ends: set<nat>)

  datatype Phase = Fork | CloseEnds(k: nat) | Wait | Read(k: nat) | Done

  datatype State = State(phase: Phase, parentEnds: set<nat>, kids: seq<Kid>, pipes: seq<string>, results: seq<string>)

  datatype Move = Parent | Child(j: nat) | Reap(j: nat)

  function Writers(c: Config): nat { |c.texts| }

  function Children(c: Config): nat { |c.texts| + c.silent }

  /** Every text is there to be read in one piece: it is not empty and fits the pipe and the buffer. */
  ghost predicate TextsFit(c: Config)
  {
    forall j :: 0 <= j < Writers(c) ==> 0 < |c.texts[j]| <= c.capacity && |c.texts[j]| <= c.readMax
  }

  function AfterFork(c: Config, forked: nat): Phase { if forked < Children(c) then Fork else CloseEnds(0) }

  function Init(c: Config): State { State(AfterFork(c, 0), {}, [], [], []) }

  /** Some process could still write to pipe `k`. */
  predicate WriteEndOpen(s: State, k: nat)
  {
    k in s.parentEnds || exists j :: 0 <= j < |s.kids| && k in s.kids[j].ends
  }

  predicate AllReaped(s: State) { forall j :: 0 <= j < |s.kids| ==> s.kids[j].pc.Reaped? }

  predicate Enabled(c: Config, s: State, m: Move)
  {
    match m
    case Parent =>
      (match s.phase
       case Wait => AllReaped(s)
       case Read(k) => k < |s.pipes| && (s.pipes[k] != "" || !WriteEndOpen(s, k))
       case Done => false
       case _ => true)
    case Child(j) =>
      && j < |s.kids|
      && (match s.kids[j].pc
          case Working => j >= Writers(c) || (j < |s.pipes| && |s.pipes[j]| + |c.texts[j]| <= c.capacity)
          case Written | Closed => true
          case _ => false)
    case Reap(j) => s.phase.Wait? && j < |s.kids| && s.kids[j].pc.Exited?
  }

  /** process_fairness.c:20-25 and 67-91, sleep_wake_process.c:155-218. */
  function ParentStep(c: Config, s: State): State
  {
    match s.phase
    case Fork =>
      var j := |s.kids|;
      var pipes := if j < Writers(c) then s.pipes + [""] else s.pipes;
      var ends := if j < Writers(c) then s.parentEnds + {j} else s.parentEnds;
      s.(phase := AfterFork(c, j + 1), pipes := pipes, parentEnds := ends, kids := s.kids + [Kid(Working, ends)])
    case CloseEnds(k) =>
      if k < Writers(c) then s.(phase := CloseEnds(k + 1), parentEnds := s.parentEnds - {k}) else s.(phase := Wait)
    case Wait => s.(phase := if Writers(c) > 0 then Read(0) else Done)
    case Read(k) =>
      if k >= |s.pipes| then s else
      var text := s.pipes[k];
      var n := if |text| <= c.readMax then |text| else c.readMax;
      s.(phase := if k + 1 < Writers(c) then Read(k + 1) else Done,
         results := s.results + [text[..n]], pipes := s.pipes[k := text[n..]])
    case Done => s
  }

  /** process_fairness.c:58-65, sleep_wake_process.c:73-81. */
  function ChildStep(c: Config, s: State, j: nat): State
    requires j < |s.kids|
  {
    var kid := s.kids[j];
    match kid.pc
    case Working =>
      if j < Writers(c) && j < |s.pipes| then
        s.(kids := s.kids[j := kid.(pc := Written)], pipes := s.pipes[j := s.pipes[j] + c.texts[j]])
      else s.(kids := s.kids[j := Kid(Exited, {})])
    case Written => s.(kids := s.kids[j := Kid(Closed, kid.ends - {j})])
    case Closed => s.(kids := s.kids[j := Kid(Exited, {})])
    case Exited | Reaped => s
  }

  function Next(c: Config, s: State, m: Move): State
  {
    match m
    case Parent => ParentStep(c, s)
    case Child(j) => if j < |s.kids| then ChildStep(c, s, j) else s
    case Reap(j) => if j < |s.kids| then s.(kids := s.kids[j := s.kids[j].(pc := Reaped)]) else s
  }

  function Processes(c: Config): System<State, Move>
  {
    System((s, m) => Enabled(c, s, m), (s, m) => Next(c, s, m))
  }

  // ----- the invariant

  ghost predicate ParentOk(c: Config, s: State)
  {
    && |s.kids| <= Children(c)
    && |s.pipes| == (if |s.kids| < Writers(c) then |s.kids| else Writers(c))
    && (s.phase.Fork? <==> |s.kids| < Children(c))
    && (forall i: nat :: i in s.parentEnds <==>
      match s.phase
      case Fork => i < |s.pipes|
      case CloseEnds(k) => k <= i < Writers(c)
      case _ => false)
    && (s.phase.CloseEnds? ==> s.phase.k <= Writers(c))
    && (s.phase.Read? ==> s.phase.k < Writers(c))
  }

  /** A working child holds the write ends of its own and of all earlier pipes. */
  ghost predicate KidOk(c: Config, s: State, j: nat)
    requires j < |s.kids|
  {
    var kid := s.kids[j];
    && (forall i: nat :: i in kid.ends <==>
      match kid.pc
      case Working | Written => i <= j && i < Writers(c)
      case Closed => i < j && i < Writers(c)
      case _ => false)
    && (kid.pc.Written? || kid.pc.Closed? ==> j < Writers(c))
    && (kid.pc.Reaped? ==> s.phase.Wait? || s.phase.Read? || s.phase.Done?)
    && (s.phase.Read? || s.phase.Done? ==> kid.pc.Reaped?)
  }

  function ReadSoFar(c: Config, s: State): nat
  {
    match s.phase case Read(k) => k case Done => Writers(c) case _ => 0
  }

  /** A pipe holds its writer's text from the write until the read, and then nothing. */
  ghost predicate PipesOk(c: Config, s: State)
    requires ParentOk(c, s)
  {
    && |s.results| == ReadSoFar(c, s)
    && (forall j :: 0 <= j < |s.results| ==> s.results[j] == c.texts[j] && j < |s.pipes| && s.pipes[j] == "")
    && (forall j :: |s.results| <= j < |s.pipes| ==>
      s.pipes[j] == if s.kids[j].pc.Working? then "" else c.texts[j])
  }

  ghost predicate Inv(c: Config, s: State)
  {
    && TextsFit(c)
    && ParentOk(c, s)
    && (forall j :: 0 <= j < |s.kids| ==> KidOk(c, s, j))
    && PipesOk(c, s)
  }

  lemma ReadPhase(c: Config, s: State)
    requires Inv(c, s) && (s.phase.Read? || s.phase.Done?)
    ensures AllReaped(s)
    ensures forall k: nat :: !WriteEndOpen(s, k)
    ensures forall k :: |s.results| <= k < Writers(c) ==> s.pipes[k] == c.texts[k]
  {
    forall j | 0 <= j < |s.kids|
      ensures s.kids[j].pc.Reaped? && s.kids[j].ends == {}
    {
      assert KidOk(c, s, j);
    }
  }

  lemma WorkingChildCanWrite(c: Config, s: State, j: nat)
    requires Inv(c, s) && j < |s.kids| && s.kids[j].pc.Working?
    ensures Enabled(c, s, Child(j))
  {
    assert KidOk(c, s, j);
  }

  lemma InvFork(c: Config, s: State)
    requires Inv(c, s) && s.phase.Fork?
    ensures Inv(c, ParentStep(c, s))
  {
    var s' := ParentStep(c, s);
    assert ParentOk(c, s');
    forall j | 0 <= j < |s'.kids|
      ensures KidOk(c, s', j)
    {
      if j < |s.kids| { assert KidOk(c, s, j); }
    }
  }

  lemma InvCloseWaitRead(c: Config, s: State)
    requires Inv(c, s) && Enabled(c, s, Parent) && !s.phase.Fork?
    ensures Inv(c, ParentStep(c, s))
  {
    var s' := ParentStep(c, s);
    if s.phase.Read? { ReadPhase(c, s); }
    assert ParentOk(c, s');
    forall j | 0 <= j < |s'.kids|
      ensures KidOk(c, s', j)
    {
      assert KidOk(c, s, j);
    }
  }

  lemma InvChild(c: Config, s: State, m: Move)
    requires Inv(c, s) && Enabled(c, s, m) && !m.Parent?
    ensures Inv(c, Next(c, s, m))
  {
    var s' := Next(c, s, m);
    assert KidOk(c, s, m.j);
    forall j | 0 <= j < |s'.kids|
      ensures KidOk(c, s', j)
    {
      assert KidOk(c, s, j);
    }
  }

  lemma InvMove(c: Config, s: State, m: Move)
    requires Inv(c, s) && Enabled(c, s, m)
    ensures Inv(c, Next(c, s, m))
  {
    if !m.Parent? { InvChild(c, s, m); } else if s.phase.Fork? { InvFork(c, s); } else { InvCloseWaitRead(c, s); }
  }

  lemma InvStep(c: Config)
    ensures Inductive(Processes(c), s => Inv(c, s))
  {
    forall s, m | Inv(c, s) && Enabled(c, s, m)
      ensures Inv(c, Next(c, s, m))
    {
      InvMove(c, s, m);
    }
  }

  ghost predicate Reachable(c: Config, s: State)
  {
    Reaches(Processes(c), Init(c), s)
  }

  lemma ReachableInv(c: Config, s: State)
    requires TextsFit(c) && Reachable(c, s)
    ensures Inv(c, s)
  {
    var moves :| IsRun(Processes(c), Init(c), moves) && Exec(Processes(c), Init(c), moves) == s;
    InvStep(c);
    InvariantOnRuns(Processes(c), s => Inv(c, s), Init(c), moves);
  }

  /**
   While a child works, the write ends of its own and every earlier pipe are open in
   it: no such pipe can reach its end of file yet.
   */
  lemma EarlierPipesStayOpen(c: Config, s: State, i: nat, j: nat)
    requires TextsFit(c) && Reachable(c, s)
    requires i <= j < |s.kids| && i < Writers(c) && (s.kids[j].pc.Working? || s.kids[j].pc.Written?)
    ensures WriteEndOpen(s, i)
  {
    ReachableInv(c, s);
    assert KidOk(c, s, j);
  }

  /**
   When the parent reads, every child has been waited for and no write end is open
   anywhere, so no read blocks; and every pipe not read yet holds exactly its
   writer's text. No child is ever blocked in its write.
   */
  lemma ReadsFindTheirText(c: Config, s: State)
    requires TextsFit(c) && Reachable(c, s)
    ensures s.phase.Read? ==>
      && Enabled(c, s, Parent) && AllReaped(s)
      && (forall k: nat :: !WriteEndOpen(s, k))
      && (forall k :: s.phase.k <= k < Writers(c) ==> k < |s.pipes| && s.pipes[k] == c.texts[k])
    ensures forall j :: 0 <= j < |s.kids| && s.kids[j].pc.Working? ==> Enabled(c, s, Child(j))
  {
    ReachableInv(c, s);
    if s.phase.Read? { ReadPhase(c, s); }
    forall j | 0 <= j < |s.kids| && s.kids[j].pc.Working?
      ensures Enabled(c, s, Child(j))
    {
      WorkingChildCanWrite(c, s, j);
    }
  }

  lemma SomethingMoves(c: Config, s: State) returns (m: Move)
    requires Inv(c, s) && !s.phase.Done?
    ensures Enabled(c, s, m)
  {
    m := Parent;
    if s.phase.Wait? && !AllReaped(s) {
      var j :| 0 <= j < |s.kids| && !s.kids[j].pc.Reaped?;
      m := if s.kids[j].pc.Exited? then Reap(j) else Child(j);
      if s.kids[j].pc.Working? { WorkingChildCanWrite(c, s, j); }
    } else if s.phase.Read? {
      ReadPhase(c, s);
    }
  }

  /**
   The write ends in every process. A child starts with its own and those of all
   earlier pipes, gives up its own when it has written, and the others when it exits.
   */
  lemma EndsHeld(c: Config, s: State, j: nat, k: nat)
    requires TextsFit(c) && Reachable(c, s) && j < |s.kids|
    ensures k in s.kids[j].ends <==>
      match s.kids[j].pc
      case Working | Written => k <= j && k < |c.texts|
      case Closed => k < j && k < |c.texts|
      case Exited | Reaped => false
    ensures k in s.parentEnds <==>
      match s.phase
      case Fork => k < |s.pipes|
      case CloseEnds(next) => next <= k < |c.texts|
      case _ => false
  {
    ReachableInv(c, s);
    assert KidOk(c, s, j);
  }

  /**
   The collected texts are the children's, in order, and the processes come to rest
   exactly when they are collected; by then every child, writing or silent, has been
   forked and waited for.
   */
  lemma EverythingCollected(c: Config, s: State)
    requires TextsFit(c) && Reachable(c, s)
    ensures s.phase.Done? ==> s.results == c.texts && forall k :: 0 <= k < |s.pipes| ==> s.pipes[k] == ""
    ensures s.phase.Done? ==> |s.kids| == |c.texts| + c.silent && forall j :: 0 <= j < |s.kids| ==> s.kids[j].pc.Reaped?
    ensures Stuck(Processes(c), s) <==> s.phase.Done?
  {
    ReachableInv(c, s);
    if s.phase.Done? {
      ReadPhase(c, s);
    } else {
      var m := SomethingMoves(c, s);
      assert Processes(c).enabled(s, m);
    }
  }

  // ----- termination

  function KidRank(kid: Kid): nat
  {
    match kid.pc case Working => 4 case Written => 3 case Closed => 2 case Exited => 1 case Reaped => 0
  }

  function KidsRank(kids: seq<Kid>): nat
  {
    if kids == [] then 0 else KidsRank(kids[..|kids| - 1]) + KidRank(kids[|kids| - 1])
  }

  lemma {:induction false} KidsRankUpdate(kids: seq<Kid>, j: nat, kid: Kid)
    requires j < |kids|
    ensures KidsRank(kids[j := kid]) == KidsRank(kids) - KidRank(kids[j]) + KidRank(kid)
    decreases |kids|
  {
    var n := |kids| - 1;
    if j < n {
      KidsRankUpdate(kids[..n], j, kid);
      assert kids[j := kid][..n] == kids[..n][j := kid];
    } else {
      assert kids[j := kid][..n] == kids[..n];
    }
  }

  function ParentRank(c: Config, s: State): int
  {
    var n := Writers(c);
    match s.phase
    case Fork => 2 * n + 3
    case CloseEnds(k) => (n - k) + n + 2
    case Wait => n + 1
    case Read(k) => n - k
    case Done => 0
  }

  ghost function Rank(c: Config, s: State): nat
  {
    if Inv(c, s) then ParentRank(c, s) + 5 * (Children(c) - |s.kids|) + KidsRank(s.kids) else 0
  }

  lemma ParentProgress(c: Config, s: State)
    requires ParentOk(c, s) && Enabled(c, s, Parent)
    ensures var s' := Next(c, s, Parent);
      if s.phase.Fork? then |s'.kids| == |s.kids| + 1 && KidsRank(s'.kids) == KidsRank(s.kids) + 4 && ParentRank(c, s') <= ParentRank(c, s)
      else s'.kids == s.kids && ParentRank(c, s') < ParentRank(c, s)
  {
  }

  lemma ChildProgress(c: Config, s: State, m: Move)
    requires Enabled(c, s, m) && !m.Parent?
    ensures var s' := Next(c, s, m);
      s'.phase == s.phase && |s'.kids| == |s.kids| && KidsRank(s'.kids) < KidsRank(s.kids)
  {
    KidsRankUpdate(s.kids, m.j, Next(c, s, m).kids[m.j]);
  }

  lemma RankMove(c: Config, s: State, m: Move)
    requires Inv(c, s) && Enabled(c, s, m)
    ensures Rank(c, Next(c, s, m)) < Rank(c, s)
  {
    InvMove(c, s, m);
    if m.Parent? { ParentProgress(c, s); } else { ChildProgress(c, s, m); }
  }

  /** Whatever the interleaving, a run has at most 2W + 3 + 5C moves for W writers among C children. */
  lemma RunsAreShort(c: Config, moves: seq<Move>)
    requires TextsFit(c) && IsRun(Processes(c), Init(c), moves)
    ensures |moves| <= 2 * Writers(c) + 3 + 5 * Children(c)
  {
    InvStep(c);
    forall s, m | Inv(c, s) && Enabled(c, s, m)
      ensures Rank(c, Next(c, s, m)) < Rank(c, s)
    {
      RankMove(c, s, m);
    }
    StrictRunLength(Processes(c), s => Inv(c, s), s => Rank(c, s), Init(c), moves);
  }

  // ----- the numbers that travel through the pipes

  /** The counters of process_fairness.c: 64-byte buffers, of which 63 bytes are read. */
  ghost predicate PrintsCounters(c: Config, counters: seq<nat>)
  {
    && |c.texts| == |counters| && c.capacity >= 63 && c.readMax == 63
    && forall i :: 0 <= i < |counters| ==> counters[i] <= ULLONG_MAX && c.texts[i] == Digits(counters[i])
  }

  lemma CountersFit(c: Config, counters: seq<nat>)
    requires PrintsCounters(c, counters)
    ensures TextsFit(c) && forall i :: 0 <= i < |counters| ==> StrToULL(c.texts[i]) == counters[i]
  {
    forall i | 0 <= i < |counters|
      ensures 0 < |c.texts[i]| <= 20 && StrToULL(c.texts[i]) == counters[i]
    {
      CounterLength(counters[i]);
      CounterRoundTrip(counters[i]);
    }
  }

  /** The parent's counts are exactly the children's final counters, whatever the interleaving. */
  lemma CountersCollected(c: Config, counters: seq<nat>, s: State)
    requires PrintsCounters(c, counters) && Reachable(c, s) && s.phase.Done?
    ensures |s.results| == |counters|
    ensures forall i :: 0 <= i < |counters| ==> s.results[i] != "" && StrToULL(s.results[i]) == counters[i]
  {
    CountersFit(c, counters);
    EverythingCollected(c, s);
  }

  /** The records of sleep_wake_process.c: 128-byte buffers, of which 127 bytes are read. */
  ghost predicate PrintsRecords(c: Config, records: seq<Record>)
  {
    && |c.texts| == |records| && c.capacity >= 127 && c.readMax == 127
    && forall i :: 0 <= i < |records| ==> InRange(records[i]) && c.texts[i] == PrintRecord(records[i])
  }

  lemma RecordsCollected(c: Config, records: seq<Record>, s: State)
    requires PrintsRecords(c, records) && Reachable(c, s) && s.phase.Done?
    ensures |s.results| == |records|
    ensures forall i :: 0 <= i < |records| ==> ScanRecord(s.results[i]) == Some(records[i])
  {
    forall i | 0 <= i < |records|
      ensures 0 < |c.texts[i]| <= 53 && ScanRecord(c.texts[i]) == Some(records[i])
    {
      RecordLength(records[i]);
      RecordRoundTrip(records[i]);
    }
    EverythingCollected(c, s);
  }

  const CHECK_EVERY := 1_000_000

  /** What a child can print: a positive multiple of CHECK_EVERY that fits the counter. */
  predicate FinalCounter(counter: nat)
  {
    0 < counter <= ULLONG_MAX && counter % CHECK_EVERY == 0
  }

  /** The first check that finds the time over is the one at `counter`; `elapsed[i]` is the reading of check i + 1. */
  predicate StopsAt(counter: nat, elapsed: seq<real>, runTime: real)
  {
    var checks := counter / CHECK_EVERY;
    && FinalCounter(counter)
    && 0 < checks <= |elapsed| && elapsed[checks - 1] >= runTime
    && forall i :: 0 <= i < checks - 1 ==> elapsed[i] < runTime
  }

  /** Every final counter is printed on some clock. */
  lemma EveryFinalCounter(counter: nat, runTime: real)
    ensures FinalCounter(counter) <==> exists elapsed :: StopsAt(counter, elapsed, runTime)
  {
    if FinalCounter(counter) {
      var checks := counter / CHECK_EVERY;
      var elapsed := seq(checks, i => if i < checks - 1 then runTime - 1.0 else runTime);
      assert StopsAt(counter, elapsed, runTime);
    }
  }

  /**
   A child's counting loop: it reads the clock at every multiple of CHECK_EVERY and
   stops at the first reading that is not before `runTime`.
   */
  method CountUntil(elapsed: seq<real>, runTime: real) returns (counter: nat)
    requires exists i :: 0 <= i < |elapsed| && elapsed[i] >= runTime
    requires CHECK_EVERY * |elapsed| <= ULLONG_MAX
    ensures StopsAt(counter, elapsed, runTime)
  {
    ghost var last :| 0 <= last < |elapsed| && elapsed[last] >= runTime;
    counter := 0;
    while true
      invariant counter < CHECK_EVERY * (last + 1)
      invariant forall i :: 0 <= i < counter / CHECK_EVERY ==> elapsed[i] < runTime
      decreases CHECK_EVERY * (last + 1) - counter
    {
      counter := counter + 1;
      if counter % CHECK_EVERY == 0 {
        var checks := counter / CHECK_EVERY;
        assert checks - 1 == (counter - 1) / CHECK_EVERY;
        if elapsed[checks - 1] >= runTime {
          return;
        }
      }
    }
  }

  const WRAP: nat := ULLONG_MAX + 1

  lemma AddWrapped(a: int, b: int)
    ensures (a % WRAP + b) % WRAP == (a + b) % WRAP
  {
  }

  /** The statistics loop of process_fairness.c; `sum` is an unsigned long long and wraps. */
  method CounterStatistics(counts: array<nat>) returns (min: nat, max: nat, sum: nat)
    requires counts.Length > 0
    ensures min in counts[..] && max in counts[..]
    ensures forall k :: 0 <= k < counts.Length ==> min <= counts[k] <= max
    ensures sum == Sum(counts[..]) % WRAP
  {
    min, max, sum := counts[0], counts[0], 0;
    for i := 0 to counts.Length
      invariant min in counts[..] && max in counts[..]
      invariant forall k :: 0 <= k < i ==> min <= counts[k] <= max
      invariant sum == Sum(counts[..i]) % WRAP
    {
      if counts[i] < min { min := counts[i]; }
      if counts[i] > max { max := counts[i]; }
      assert counts[..i + 1][..i] == counts[..i];
      AddWrapped(Sum(counts[..i]), counts[i]);
      sum := (sum + counts[i]) % WRAP;
    }
    assert counts[..counts.Length] == counts[..];
  }

  /**
   The printed average lies between the extremes as long as the true sum fits 64 bits;
   the sum is the true one exactly then.
   */
  lemma AverageBetweenExtremes(counts: seq<nat>, min: nat, max: nat)
    requires forall k :: 0 <= k < |counts| ==> min <= counts[k] <= max
    ensures Sum(counts) % WRAP == Sum(counts) <==> Sum(counts) <= ULLONG_MAX
    ensures Sum(counts) <= ULLONG_MAX ==> |counts| * min <= Sum(counts) % WRAP <= |counts| * max
  {
    SumBounds(counts, min, max);
    SumBounds(counts, 0, max);
  }

  lemma WrappedBelow(sum: nat, least: nat)
    requires least <= sum < least + WRAP
    ensures sum % WRAP < least <==> sum >= WRAP
  {
  }

  /**
   As long as the counters exceed their minimum by less than 2^64 in all, the average
   falls below that minimum exactly when the sum wraps.
   */
  lemma AverageFallsIffWraps(counts: seq<nat>, min: nat, max: nat)
    requires forall k :: 0 <= k < |counts| ==> min <= counts[k] <= max
    requires Sum(counts) - |counts| * min < WRAP
    ensures Sum(counts) % WRAP < |counts| * min <==> Sum(counts) > ULLONG_MAX
  {
    SumBounds(counts, min, max);
    SumBounds(counts, 0, max);
    WrappedBelow(Sum(counts), |counts| * min);
  }

  /** A sum that wraps can put the average of two final counters below the smaller one. */
  lemma WrappedAverage()
    ensures var counts: seq<int> := [18_446_744_073_709_000_000, 1_000_000];
      && FinalCounter(counts[0]) && FinalCounter(counts[1]) && counts[1] < counts[0]
      && Sum(counts) % WRAP < |counts| * counts[1]
  {
    var one: seq<int> := [18_446_744_073_709_000_000];
    var counts: seq<int> := [18_446_744_073_709_000_000, 1_000_000];
    assert one[..0] == [] && Sum(one) == one[0];
    assert counts[..1] == one && Sum(counts) == WRAP + 448_384;
  }

  // ----- from the children's clocks to the printed figures

  /** Child i stops at `counters[i]` and prints it. */
  ghost predicate ChildrenCount(c: Config, counters: seq<nat>, elapsed: seq<seq<real>>, runTime: real)
  {
    && PrintsCounters(c, counters) && |counters| == |elapsed|
    && forall i :: 0 <= i < |counters| ==> StopsAt(counters[i], elapsed[i], runTime)
  }

  function Parsed(results: seq<string>): seq<nat>
  {
    seq(|results|, i requires 0 <= i < |results| => StrToULL(results[i]))
  }

  lemma ParsedCounters(c: Config, counters: seq<nat>, elapsed: seq<seq<real>>, runTime: real, s: State)
    requires ChildrenCount(c, counters, elapsed, runTime) && Reachable(c, s) && s.phase.Done?
    ensures Parsed(s.results) == counters
  {
    hide PrintsCounters, Reachable, StrToULL, StopsAt;
    CountersCollected(c, counters, s);
  }

  lemma CountedToTheEnd(c: Config, counters: seq<nat>, elapsed: seq<seq<real>>, runTime: real, n: nat)
    requires ChildrenCount(c, counters, elapsed, runTime) && n in counters
    ensures FinalCounter(n) && n >= CHECK_EVERY
  {
    hide PrintsCounters;
    var i :| 0 <= i < |counters| && counters[i] == n;
    assert StopsAt(counters[i], elapsed[i], runTime);
  }

  /**
   Whatever the interleaving, the parent's figures are the extremes and the sum of the
   final counters, which are multiples of CHECK_EVERY; the average lies between the
   extremes while the sum fits.
   */
  lemma FairnessReport(
    c: Config, counters: seq<nat>, elapsed: seq<seq<real>>, runTime: real, s: State, min: nat, max: nat)
    requires ChildrenCount(c, counters, elapsed, runTime) && Reachable(c, s) && s.phase.Done?
    requires min in Parsed(s.results) && max in Parsed(s.results)
    requires forall n :: n in Parsed(s.results) ==> min <= n <= max
    ensures Parsed(s.results) == counters && FinalCounter(min) && FinalCounter(max)
    ensures Sum(counters) <= ULLONG_MAX ==>
      && Sum(Parsed(s.results)) % WRAP == Sum(counters)
      && CHECK_EVERY <= min && |counters| * min <= Sum(counters) <= |counters| * max
  {
    hide *;
    ParsedCounters(c, counters, elapsed, runTime, s);
    CountedToTheEnd(c, counters, elapsed, runTime, min);
    CountedToTheEnd(c, counters, elapsed, runTime, max);
    assert forall k :: 0 <= k < |counters| ==> counters[k] in Parsed(s.results);
    AverageBetweenExtremes(counters, min, max);
  }

  /** The parent, the children and the pipes, updated in place. */
  class Program {
    const c: Config
    var phase: Phase
    var parentEnds: set<nat>
    var kids: seq<Kid>
    var pipes: seq<string>
    var results: seq<string>

    function View(): State
      reads this
    {
      State(phase, parentEnds, kids, pipes, results)
    }

    constructor (c: Config)
      ensures this.c == c && View() == Init(c)
    {
      this.c := c;
      phase, parentEnds, kids, pipes, results := AfterFork(c, 0), {}, [], [], [];
    }

    method RunParent()
      requires Enabled(c, View(), Parent)
      modifies this
      ensures View() == Next(c, old(View()), Parent)
    {
      match phase {
        case Fork =>
          var j := |kids|;
          if j < Writers(c) {
            pipes, parentEnds := pipes + [""], parentEnds + {j};
          }
          kids := kids + [Kid(Working, parentEnds)];
          phase := AfterFork(c, j + 1);
        case CloseEnds(k) =>
          if k < Writers(c) {
            parentEnds, phase := parentEnds - {k}, CloseEnds(k + 1);
          } else {
            phase := Wait;
          }
        case Wait => phase := if Writers(c) > 0 then Read(0) else Done;
        case Read(k) =>
          var n := if |pipes[k]| <= c.readMax then |pipes[k]| else c.readMax;
          results := results + [pipes[k][..n]];
          pipes := pipes[k := pipes[k][n..]];
          phase := if k + 1 < Writers(c) then Read(k + 1) else Done;
      }
    }

    method RunChild(j: nat)
      requires Enabled(c, View(), Child(j))
      modifies this
      ensures View() == Next(c, old(View()), Child(j))
    {
      match kids[j].pc {
        case Working =>
          if j < Writers(c) {
            pipes := pipes[j := pipes[j] + c.texts[j]];
            kids := kids[j := kids[j].(pc := Written)];
          } else {
            kids := kids[j := Kid(Exited, {})];
          }
        case Written => kids := kids[j := Kid(Closed, kids[j].ends - {j})];
        case Closed => kids := kids[j := Kid(Exited, {})];
      }
    }

    method Run(m: Move)
      requires Enabled(c, View(), m)
      modifies this
      ensures View() == Next(c, old(View()), m)
    {
      match m {
        case Parent => RunParent();
        case Child(j) => RunChild(j);
        case Reap(j) => kids := kids[j := kids[j].(pc := Reaped)];
      }
    }

    /** Under any scheduler the collection ends with the children's texts. */
    method Collect()
      requires TextsFit(c) && View() == Init(c)
      modifies this
      ensures phase == Done && results == c.texts
    {
      assert Inv(c, View());
      while phase != Done
        invariant Inv(c, View())
        decreases Rank(c, View())
      {
        ghost var possible := SomethingMoves(c, View());
        var m;
        if {
          case Enabled(c, View(), Parent) => m := Parent;
          case exists j: nat | j < |kids| :: Enabled(c, View(), Child(j)) =>
            var j: nat :| j < |kids| && Enabled(c, View(), Child(j));
            m := Child(j);
          case exists j: nat | j < |kids| :: Enabled(c, View(), Reap(j)) =>
            var j: nat :| j < |kids| && Enabled(c, View(), Reap(j));
            m := Reap(j);
        }
        RankMove(c, View(), m);
        InvMove(c, View(), m);
        Run(m);
      }
    }

    /** A whole run of process_fairness.c, given what the children count. */
    method Fairness(ghost counters: seq<nat>, ghost elapsed: seq<seq<real>>, ghost runTime: real)
      returns (min: nat, max: nat, sum: nat)
      requires ChildrenCount(c, counters, elapsed, runTime) && counters != [] && View() == Init(c)
      modifies this
      ensures min in counters && max in counters && forall n :: n in counters ==> min <= n <= max
      ensures FinalCounter(min) && FinalCounter(max) && sum == Sum(counters) % WRAP
      ensures Sum(counters) <= ULLONG_MAX ==> |counters| * min <= sum <= |counters| * max
    {
      hide Inv, Enabled, Next;
      CountersFit(c, counters);
      Collect();
      var counts := new nat[|results|];
      for i := 0 to counts.Length
        invariant forall k :: 0 <= k < i ==> counts[k] == counters[k]
        modifies counts
      {
        counts[i] := StrToULL(results[i]);
      }
      assert counts[..] == counters;
      assert forall n :: n in counters ==> FinalCounter(n) by {
        forall n | n in counters
          ensures FinalCounter(n)
        {
          CountedToTheEnd(c, counters, elapsed, runTime, n);
        }
      }
      min, max, sum := CounterStatistics(counts);
      AverageBetweenExtremes(counters, min, max);
    }
  }
}
