/**
 The latency recorder of burst_pubsub_test.c, qos_sweep_test.c and
 cpu_load_pubsub_test.c: `on_message`, on the library's one callback thread, logs
 arrival times without a lock and signals when the last one is in; the test's main
 thread stamps and publishes the messages, waits for the signal, stops the callback
 thread and computes the statistics. Memory is sequentially consistent.

 The broker is an environment that may deliver any published message in any order.
 With `once` set it delivers each message once; with `restarts` set the test is run
 again on the same globals.
 */
module Recorder {
  import opened LatencyStatistics
  import opened Sums
  import opened Transitions

  datatype Config = Config(messages: nat, once: bool, restarts: bool)

  datatype MainPc = Stamp | Publish | Lock | Test | EnterWait | Parked | Reacquire | Unlock | StopLoop | Finished

  /**
   The callback thread. `ReadClock` and `Record` are the one statement that reads the
   clock, stores the arrival time in `slot` and increments the counter. C fixes no order
   between the increment and the other two.
   */
  datatype CallbackPc =
    | Idle
    | ReadClock(m: nat, slot: nat, counted: bool)
    | Record(m: nat, time: int, slot: nat, stored: bool, counted: bool)
    | Compare
    | LockMutex
    | Signal
    | UnlockMutex

  datatype Owner = Free | ByMain | ByCallback

  datatype State = State(
    clock: int,
    main: MainPc, published: nat, sendTimes: seq<int>,
    callback: CallbackPc, recvCount: nat, recvTimes: seq<int>,
    owner: Owner,
    order: seq<nat>,  // history: the message recorded in each slot
    writes: seq<nat>) // history: how often each slot was written in this run

  datatype Move =
    | Tick(elapsed: nat) | Main | Deliver(m: nat) | Callback | StoreTime | BumpCount | Spurious | NextRun {
    predicate Idles() { Tick? || Spurious? }
  }

  function Start(c: Config): MainPc { if c.messages > 0 then Stamp else Lock }

  function Zeros(n: nat): seq<nat> { seq(n, _ => 0) }

  ghost predicate Initial(c: Config, s: State)
  {
    && s.main == Start(c) && s.published == 0 && |s.sendTimes| == c.messages
    && s.callback == Idle && s.recvCount == 0 && |s.recvTimes| == c.messages
    && s.owner == Free && s.order == [] && s.writes == Zeros(c.messages)
  }

  /** An array store; the invariant shows that its index is always in range. */
  function Put<T>(xs: seq<T>, i: nat, x: T): seq<T>
  {
    if i < |xs| then xs[i := x] else xs
  }

  predicate Enabled(c: Config, s: State, m: Move)
  {
    match m
    case Tick(_) => true
    case Main =>
      (match s.main
       case Lock | Reacquire => s.owner == Free
       case Parked | Finished => false
       case StopLoop => s.callback == Idle // joins the callback thread
       case _ => true)
    case Deliver(m) => s.callback == Idle && s.main != Finished && m < s.published && (c.once ==> m !in s.order)
    case Callback => !s.callback.Idle? && !s.callback.Record? && (s.callback.LockMutex? ==> s.owner == Free)
    case StoreTime => s.callback.Record? && !s.callback.stored
    case BumpCount => (s.callback.ReadClock? || s.callback.Record?) && !s.callback.counted
    case Spurious => s.main == Parked
    case NextRun => c.restarts && s.main == Finished
  }

  /** burst_pubsub_test.c:123-134. */
  function MainStep(c: Config, s: State): State
  {
    match s.main
    case Stamp => s.(main := Publish, sendTimes := Put(s.sendTimes, s.published, s.clock))
    case Publish => s.(main := if s.published + 1 < c.messages then Stamp else Lock, published := s.published + 1)
    case Lock | Reacquire => s.(main := Test, owner := ByMain)
    case Test => s.(main := if s.recvCount < c.messages then EnterWait else Unlock)
    case EnterWait => s.(main := Parked, owner := Free)
    case Unlock => s.(main := StopLoop, owner := Free)
    case StopLoop => s.(main := Finished)
    case Parked | Finished => s
  }

  /** burst_pubsub_test.c:39-46, but for the recording statement. */
  function CallbackStep(c: Config, s: State): State
  {
    match s.callback
    case ReadClock(m, slot, counted) => s.(callback := Record(m, s.clock, slot, false, counted))
    case Compare => s.(callback := if s.recvCount == c.messages then LockMutex else Idle)
    case LockMutex => s.(callback := Signal, owner := ByCallback)
    case Signal => s.(callback := UnlockMutex, main := if s.main == Parked then Reacquire else s.main)
    case UnlockMutex => s.(callback := Idle, owner := Free)
    case Idle | Record(_, _, _, _, _) => s
  }

  function Next(c: Config, s: State, m: Move): State
  {
    match m
    case Tick(elapsed) => s.(clock := s.clock + elapsed)
    case Main => MainStep(c, s)
    case Deliver(m) => if s.recvCount < c.messages then s.(callback := ReadClock(m, s.recvCount, false)) else s
    case Callback => CallbackStep(c, s)
    case StoreTime =>
      if !s.callback.Record? then s else
      s.(callback := if s.callback.counted then Compare else s.callback.(stored := true),
         recvTimes := Put(s.recvTimes, s.callback.slot, s.callback.time),
         order := s.order + [s.callback.m],
         writes := if s.callback.slot < |s.writes| then Put(s.writes, s.callback.slot, s.writes[s.callback.slot] + 1) else s.writes)
    case BumpCount =>
      if !s.callback.ReadClock? && !s.callback.Record? then s else
      s.(callback := if s.callback.Record? && s.callback.stored then Compare else s.callback.(counted := true),
         recvCount := s.recvCount + 1)
    case Spurious => s.(main := Reacquire)
    case NextRun => s.(main := Start(c), published := 0, recvCount := 0, order := [], writes := Zeros(c.messages))
  }

  function Threads(c: Config): System<State, Move>
  {
    System((s, m) => Enabled(c, s, m), (s, m) => Next(c, s, m))
  }

  // ----- the invariant

  predicate Publishing(s: State) { s.main == Stamp || s.main == Publish }

  function Stamped(s: State): nat { s.published + if s.main == Publish then 1 else 0 }

  /** Sends are stamped in clock order. */
  ghost predicate SendsOk(c: Config, s: State)
  {
    && |s.sendTimes| == c.messages
    && (if Publishing(s) then s.published < c.messages else s.published == c.messages)
    && (forall i, j :: 0 <= i <= j < Stamped(s) ==> s.sendTimes[i] <= s.sendTimes[j])
    && (forall i :: 0 <= i < Stamped(s) ==> s.sendTimes[i] <= s.clock)
  }

  /** The slots written so far hold the arrivals in clock order, each written once and none before its send. */
  ghost predicate LogOk(c: Config, s: State)
    requires SendsOk(c, s)
  {
    && |s.recvTimes| == |s.writes| == c.messages
    && |s.order| <= c.messages
    && (forall k :: 0 <= k < c.messages ==> s.writes[k] == if k < |s.order| then 1 else 0)
    && (forall k :: 0 <= k < |s.order| ==>
      s.order[k] < s.published && s.sendTimes[s.order[k]] <= s.recvTimes[k] <= s.clock)
    && (forall i, j :: 0 <= i <= j < |s.order| ==> s.recvTimes[i] <= s.recvTimes[j])
    && (c.once ==> Distinct(s.order))
  }

  /** The callback in progress. */
  ghost predicate CallbackOk(c: Config, s: State)
    requires SendsOk(c, s) && LogOk(c, s)
  {
    match s.callback
    case ReadClock(m, slot, counted) =>
      && |s.order| == slot < c.messages && m < s.published
      && s.recvCount == slot + (if counted then 1 else 0)
      && (c.once ==> m !in s.order)
    case Record(m, time, slot, stored, counted) =>
      && !(stored && counted)
      && slot < c.messages && m < s.published
      && |s.order| == slot + (if stored then 1 else 0)
      && s.recvCount == slot + (if counted then 1 else 0)
      && s.sendTimes[m] <= time <= s.clock
      && (forall k :: 0 <= k < slot ==> s.recvTimes[k] <= time)
      && (c.once && !stored ==> m !in s.order)
    case LockMutex | Signal | UnlockMutex => s.recvCount == |s.order| == c.messages
    case _ => s.recvCount == |s.order|
  }

  /** The last arrival has been counted but its signal is still to come. */
  predicate SignalPending(s: State)
  {
    || s.callback.ReadClock? || s.callback.Record?
    || s.callback == Compare || s.callback == LockMutex || s.callback == Signal
  }

  /** The waiter sleeps, all messages have been counted, and the one signal has been spent. */
  predicate SignalLost(c: Config, s: State)
  {
    s.main == Parked && s.recvCount == c.messages && !SignalPending(s)
  }

  ghost predicate WaitOk(c: Config, s: State)
  {
    && (s.owner == ByMain <==> s.main == Test || s.main == EnterWait || s.main == Unlock)
    && (s.owner == ByCallback <==> s.callback == Signal || s.callback == UnlockMutex)
    && (s.main == Unlock || s.main == StopLoop || s.main == Finished ==> s.recvCount == c.messages)
    && (s.main == EnterWait && s.recvCount == c.messages ==> SignalPending(s) && s.callback != Signal)
    && !SignalLost(c, s)
    && (s.main == Finished ==> s.callback == Idle)
  }

  ghost predicate Inv(c: Config, s: State)
  {
    SendsOk(c, s) && LogOk(c, s) && CallbackOk(c, s) && WaitOk(c, s)
  }

  /** The logs stay in order while a thread only changes its position, the mutex or the counter. */
  lemma SameLogs(c: Config, s: State, s': State)
    requires SendsOk(c, s) && LogOk(c, s)
    requires s' == s.(main := s'.main, callback := s'.callback, recvCount := s'.recvCount, owner := s'.owner)
    requires if Publishing(s) then s'.main == s.main else !Publishing(s')
    ensures SendsOk(c, s') && LogOk(c, s')
  {
  }

  lemma InvStamp(c: Config, s: State)
    requires Inv(c, s) && s.main == Stamp
    ensures Inv(c, MainStep(c, s))
  {
    var s' := MainStep(c, s);
    assert SendsOk(c, s');
    assert LogOk(c, s');
  }

  lemma InvPublish(c: Config, s: State)
    requires Inv(c, s) && s.main == Publish
    ensures Inv(c, MainStep(c, s))
  {
    var s' := MainStep(c, s);
    assert SendsOk(c, s');
    assert LogOk(c, s');
  }

  lemma InvWaiting(c: Config, s: State)
    requires Inv(c, s) && Enabled(c, s, Main) && !Publishing(s)
    ensures Inv(c, MainStep(c, s))
  {
    SameLogs(c, s, MainStep(c, s));
    hide SendsOk, LogOk;
  }

  lemma InvReadClock(c: Config, s: State)
    requires Inv(c, s) && s.callback.ReadClock?
    ensures Inv(c, CallbackStep(c, s))
  {
    SameLogs(c, s, CallbackStep(c, s));
  }

  lemma InvCallback(c: Config, s: State)
    requires Inv(c, s) && Enabled(c, s, Callback) && !s.callback.ReadClock?
    ensures Inv(c, CallbackStep(c, s))
  {
    SameLogs(c, s, CallbackStep(c, s));
    hide SendsOk, LogOk;
  }

  /** The stored arrival extends the log in order. */
  lemma StoreExtendsLog(c: Config, s: State)
    requires Inv(c, s) && Enabled(c, s, StoreTime)
    ensures SendsOk(c, Next(c, s, StoreTime)) && LogOk(c, Next(c, s, StoreTime))
  {
    hide WaitOk;
  }

  lemma InvStore(c: Config, s: State)
    requires Inv(c, s) && Enabled(c, s, StoreTime)
    ensures Inv(c, Next(c, s, StoreTime))
  {
    StoreExtendsLog(c, s);
    assert |s.recvTimes| == c.messages;
    hide SendsOk, LogOk;
  }

  lemma InvCountAndDeliver(c: Config, s: State, m: Move)
    requires Inv(c, s) && Enabled(c, s, m) && (m.BumpCount? || m.Deliver?)
    ensures Inv(c, Next(c, s, m))
  {
    SameLogs(c, s, Next(c, s, m));
  }

  lemma InvTick(c: Config, s: State, elapsed: nat)
    requires Inv(c, s)
    ensures Inv(c, Next(c, s, Tick(elapsed)))
  {
    var s' := Next(c, s, Tick(elapsed));
    assert SendsOk(c, s') && LogOk(c, s');
  }

  lemma InvSpurious(c: Config, s: State)
    requires Inv(c, s) && s.main == Parked
    ensures Inv(c, Next(c, s, Spurious))
  {
    SameLogs(c, s, Next(c, s, Spurious));
  }

  lemma InitialInv(c: Config, s: State)
    requires Initial(c, s)
    ensures Inv(c, s)
  {
  }

  /** Resetting the counter is all the next run needs: the stale array contents do not matter. */
  lemma RestartIsInitial(c: Config, s: State)
    requires Inv(c, s) && Enabled(c, s, NextRun)
    ensures Initial(c, Next(c, s, NextRun))
  {
  }

  lemma InvMove(c: Config, s: State, m: Move)
    requires Inv(c, s) && Enabled(c, s, m)
    ensures Inv(c, Next(c, s, m))
  {
    hide Inv;
    match m
    case Main =>
      if s.main == Stamp { InvStamp(c, s); } else if s.main == Publish { InvPublish(c, s); } else { InvWaiting(c, s); }
    case Callback => if s.callback.ReadClock? { InvReadClock(c, s); } else { InvCallback(c, s); }
    case StoreTime => InvStore(c, s);
    case BumpCount | Deliver(_) => InvCountAndDeliver(c, s, m);
    case Tick(elapsed) => InvTick(c, s, elapsed);
    case NextRun => RestartIsInitial(c, s); InitialInv(c, Next(c, s, NextRun));
    case Spurious => InvSpurious(c, s);
  }

  lemma InvStep(c: Config)
    ensures Inductive(Threads(c), s => Inv(c, s))
  {
    forall s, m | Inv(c, s) && Enabled(c, s, m)
      ensures Inv(c, Next(c, s, m))
    {
      InvMove(c, s, m);
    }
  }

  ghost predicate Reachable(c: Config, s: State)
  {
    exists s0 :: Initial(c, s0) && Reaches(Threads(c), s0, s)
  }

  lemma {:induction false} RunInv(c: Config, s: State, moves: seq<Move>)
    requires Inv(c, s) && IsRun(Threads(c), s, moves)
    ensures Inv(c, Exec(Threads(c), s, moves))
    decreases |moves|
  {
    if moves != [] {
      InvMove(c, s, moves[0]);
      RunInv(c, Next(c, s, moves[0]), moves[1..]);
    }
  }

  lemma ReachableInv(c: Config, s: State)
    requires Reachable(c, s)
    ensures Inv(c, s)
  {
    var s0 :| Initial(c, s0) && Reaches(Threads(c), s0, s);
    var moves :| IsRun(Threads(c), s0, moves) && Exec(Threads(c), s0, moves) == s;
    InitialInv(c, s0);
    RunInv(c, s0, moves);
  }

  // ----- the completion signal

  /** Moves the test's own threads and a broker that still owes a message can make. */
  ghost predicate CanMoveOn(c: Config, s: State)
  {
    || Enabled(c, s, Main) || Enabled(c, s, Callback) || Enabled(c, s, StoreTime) || Enabled(c, s, BumpCount)
    || exists m :: s.recvCount < c.messages && Enabled(c, s, Deliver(m))
  }

  lemma {:induction false} MissingMessage(order: seq<nat>, n: nat) returns (m: nat)
    requires |order| < n
    ensures m < n && m !in order
    decreases n
  {
    m := n - 1;
    if m in order {
      var j :| 0 <= j < |order| && order[j] == n - 1;
      m := MissingMessage(order[..j] + order[j + 1..], n - 1);
      assert forall k :: 0 <= k < |order| && k != j ==> order[k] in order[..j] + order[j + 1..] by {
        forall k | 0 <= k < |order| && k != j
          ensures order[k] in order[..j] + order[j + 1..]
        {
          assert order[k] == (order[..j] + order[j + 1..])[if k < j then k else k - 1];
        }
      }
    }
  }

  lemma SomethingMoves(c: Config, s: State)
    requires Inv(c, s)
    ensures s.main == Finished || CanMoveOn(c, s)
    ensures s.main != Finished && s.recvCount == c.messages ==>
      Enabled(c, s, Main) || Enabled(c, s, Callback) || Enabled(c, s, StoreTime) || Enabled(c, s, BumpCount)
  {
    if s.main == Parked && s.callback == Idle {
      var m := MissingMessage(s.order, c.messages);
      assert Enabled(c, s, Deliver(m));
    }
  }

  /**
   Although the counter is incremented outside the mutex, the one completion signal
   is never lost. Once all messages are counted the waiter cannot be stuck, and
   before that only a delivery can be missing.
   */
  lemma SignalNeverLost(c: Config, s: State)
    requires Reachable(c, s)
    ensures !SignalLost(c, s)
    ensures s.main == Finished || CanMoveOn(c, s)
    ensures s.main != Finished && s.recvCount == c.messages ==>
      Enabled(c, s, Main) || Enabled(c, s, Callback) || Enabled(c, s, StoreTime) || Enabled(c, s, BumpCount)
  {
    ReachableInv(c, s);
    SomethingMoves(c, s);
  }

  /** No index reaches the end of the arrays, and no slot is written twice in a run. */
  lemma SlotsWrittenOnce(c: Config, s: State)
    requires Reachable(c, s)
    ensures s.recvCount <= c.messages && |s.writes| == c.messages
    ensures s.callback.Record? ==> s.callback.slot < c.messages && (!s.callback.stored ==> s.writes[s.callback.slot] == 0)
    ensures forall k :: 0 <= k < c.messages ==> s.writes[k] <= 1
    ensures s.main == Finished ==> forall k :: 0 <= k < c.messages ==> s.writes[k] == 1
  {
    ReachableInv(c, s);
  }

  lemma CountedFirst(c: Config, s: State)
    requires c == Config(1, true, false)
    requires s == State(0, Stamp, 0, [0], Idle, 0, [0], Free, [], Zeros(1))
    ensures Reaches(Threads(c), s, s.(main := Lock, published := 1, callback := ReadClock(0, 0, true), recvCount := 1))
  {
    var t := s.(main := Lock, published := 1);
    var end := t.(callback := ReadClock(0, 0, true), recvCount := 1);
    ReachesSelf(Threads(c), end);
    ReachesAfter(Threads(c), t.(callback := ReadClock(0, 0, false)), BumpCount, end);
    ReachesAfter(Threads(c), t, Deliver(0), end);
    ReachesAfter(Threads(c), s.(main := Publish), Main, end);
    assert Put([0], 0, 0) == [0];
    ReachesAfter(Threads(c), s, Main, end);
  }

  lemma WaiterLeaves(c: Config, s: State)
    requires s.main == Lock && s.owner == Free && s.recvCount == c.messages
    ensures Reaches(Threads(c), s, s.(main := StopLoop))
  {
    var end := s.(main := StopLoop);
    ReachesSelf(Threads(c), end);
    ReachesAfter(Threads(c), s.(main := Unlock, owner := ByMain), Main, end);
    ReachesAfter(Threads(c), s.(main := Test, owner := ByMain), Main, end);
    ReachesAfter(Threads(c), s, Main, end);
  }

  /**
   The waiter may see the full count before the last arrival time is in its slot, and
   even before the clock was read for it; only joining the callback thread makes the
   arrays safe to read.
   */
  lemma CountCanRunAheadOfTheLog()
    ensures exists s ::
      (Reachable(Config(1, true, false), s) &&
      s.main == StopLoop && s.recvCount == 1 && s.writes == [0] && s.callback.ReadClock?)
  {
    var c := Config(1, true, false);
    var s0 := State(0, Stamp, 0, [0], Idle, 0, [0], Free, [], Zeros(1));
    var s := State(0, StopLoop, 1, [0], ReadClock(0, 0, true), 1, [0], Free, [], Zeros(1));
    CountedFirst(c, s0);
    WaiterLeaves(c, s.(main := Lock));
    ReachesTransitive(Threads(c), s0, s.(main := Lock), s);
    assert Initial(c, s0) && Reachable(c, s);
    assert Zeros(1) == [0];
  }

  /** With the full count, the log is complete exactly unless the recording statement still has to store. */
  lemma LogCompleteIff(c: Config, s: State)
    requires Reachable(c, s) && s.recvCount == c.messages
    ensures |s.writes| == c.messages
    ensures (forall k :: 0 <= k < c.messages ==> s.writes[k] == 1) <==>
      !s.callback.ReadClock? && (s.callback.Record? ==> s.callback.stored)
  {
    ReachableInv(c, s);
    if s.callback.ReadClock? || (s.callback.Record? && !s.callback.stored) {
      assert s.writes[s.callback.slot] == 0;
    }
  }

  /**
   What the environment may do in any state: let any time pass, wake the waiter
   spuriously, and deliver any published message, but not the same one twice with `once`.
   */
  lemma EnvironmentIsFree(c: Config, s: State, elapsed: nat, m: nat)
    ensures Enabled(c, s, Tick(elapsed)) && Next(c, s, Tick(elapsed)) == s.(clock := s.clock + elapsed)
    ensures s.main == Parked ==> Enabled(c, s, Spurious)
    ensures s.callback == Idle && s.main != Finished && m < s.published && !(c.once && m in s.order) ==>
      Enabled(c, s, Deliver(m)) && (s.recvCount < c.messages ==> Next(c, s, Deliver(m)).callback.ReadClock?)
  {
  }

  /** A spuriously woken waiter takes the mutex and tests the counter again; before the last arrival it waits on. */
  lemma SpuriousWakeup(c: Config, s: State)
    requires s.main == Parked && s.owner == Free && s.recvCount < c.messages
    ensures IsRun(Threads(c), s, [Spurious, Main, Main, Main])
    ensures Exec(Threads(c), s, [Spurious, Main, Main, Main]) == s
  {
    var t := s.(main := Reacquire);
    var u, v := t.(main := Test, owner := ByMain), t.(main := EnterWait, owner := ByMain);
    assert Enabled(c, s, Spurious) && Enabled(c, t, Main) && Enabled(c, u, Main) && Enabled(c, v, Main);
    assert Next(c, s, Spurious) == t && Next(c, t, Main) == u && Next(c, u, Main) == v && Next(c, v, Main) == s;
    hide Enabled, Next;
    RunFrom(Threads(c), s, Spurious, [Main] + ([Main] + ([Main] + [])));
    RunFrom(Threads(c), t, Main, [Main] + ([Main] + []));
    RunFrom(Threads(c), u, Main, [Main] + []);
    RunFrom(Threads(c), v, Main, []);
    assert [Spurious, Main, Main, Main] == [Spurious] + ([Main] + ([Main] + ([Main] + [])));
  }

  // ----- the logs are the clock readings of the run

  /** The clock reading of a move that stamps a message. */
  function SendReading(s: State, m: Move): seq<int>
  {
    if m == Main && s.main == Stamp then [s.clock] else []
  }

  /** The clock reading of a move in which the callback asks for the time. */
  function ArrivalReading(s: State, m: Move): seq<int>
  {
    if m == Callback && s.callback.ReadClock? then [s.clock] else []
  }

  /** The message handed to the callback, unless the log is full. */
  function Delivery(c: Config, s: State, m: Move): seq<nat>
  {
    if m.Deliver? && s.recvCount < c.messages then [m.m] else []
  }

  ghost function SendReadings(c: Config, s: State, moves: seq<Move>): seq<int>
  {
    Trace(Threads(c), SendReading, s, moves)
  }

  ghost function ArrivalReadings(c: Config, s: State, moves: seq<Move>): seq<int>
  {
    Trace(Threads(c), ArrivalReading, s, moves)
  }

  ghost function Deliveries(c: Config, s: State, moves: seq<Move>): seq<nat>
  {
    Trace(Threads(c), (s, m) => Delivery(c, s, m), s, moves)
  }

  /** The time that passes in a run. */
  function Elapsed(moves: seq<Move>): nat
  {
    if moves == [] then 0 else (if moves[0].Tick? then moves[0].elapsed else 0) + Elapsed(moves[1..])
  }

  /** What has been stamped, read and delivered so far, stored or about to be stored. */
  ghost function Stamps(c: Config, s: State): seq<int>
  {
    if Inv(c, s) then s.sendTimes[..Stamped(s)] else []
  }

  ghost function Arrivals(c: Config, s: State): seq<int>
  {
    if !Inv(c, s) then []
    else s.recvTimes[..|s.order|] + if s.callback.Record? && !s.callback.stored then [s.callback.time] else []
  }

  ghost function Delivered(s: State): seq<nat>
  {
    s.order + if s.callback.ReadClock? || (s.callback.Record? && !s.callback.stored) then [s.callback.m] else []
  }

  lemma StampsMove(c: Config, s: State, m: Move)
    requires Inv(c, s) && Enabled(c, s, m) && !m.NextRun? && Inv(c, Next(c, s, m))
    ensures Stamps(c, Next(c, s, m)) == Stamps(c, s) + SendReading(s, m)
  {
    hide LogOk, CallbackOk, WaitOk;
  }

  /** Storing moves the arrival time that was read from the callback to its slot. */
  lemma ArrivalStored(c: Config, s: State)
    requires Inv(c, s) && Enabled(c, s, StoreTime) && Inv(c, Next(c, s, StoreTime))
    ensures Arrivals(c, Next(c, s, StoreTime)) == Arrivals(c, s)
  {
    assert |s.recvTimes| == c.messages && |s.order| == s.callback.slot < c.messages;
    hide SendsOk, LogOk, CallbackOk, WaitOk;
  }

  /** Nothing but the store touches the arrivals stored so far. */
  predicate SameArrivals(s: State, s': State)
  {
    s'.recvTimes == s.recvTimes && s'.order == s.order
  }

  lemma ArrivalRead(c: Config, s: State)
    requires Inv(c, s) && Enabled(c, s, Callback) && Inv(c, CallbackStep(c, s))
    ensures Arrivals(c, CallbackStep(c, s)) == Arrivals(c, s) + ArrivalReading(s, Callback)
  {
    assert |s.order| <= |s.recvTimes|;
    hide Inv;
  }

  lemma ArrivalsMove(c: Config, s: State, m: Move)
    requires Inv(c, s) && Enabled(c, s, m) && !m.NextRun? && Inv(c, Next(c, s, m))
    ensures Arrivals(c, Next(c, s, m)) == Arrivals(c, s) + ArrivalReading(s, m)
  {
    if m.StoreTime? {
      ArrivalStored(c, s);
    } else {
      assert SameArrivals(s, Next(c, s, m));
      if m.Callback? { ArrivalRead(c, s); }
      hide SendsOk, LogOk, WaitOk;
    }
  }

  lemma DeliveredMove(c: Config, s: State, m: Move)
    requires Inv(c, s) && Enabled(c, s, m) && !m.NextRun?
    ensures Delivered(Next(c, s, m)) == Delivered(s) + Delivery(c, s, m)
  {
    hide SendsOk, LogOk, WaitOk;
  }

  /** Without a restart, a run appends exactly its clock readings and its deliveries to the logs. */
  lemma LogsGrow(c: Config, s: State, moves: seq<Move>)
    requires Inv(c, s) && IsRun(Threads(c), s, moves) && NextRun !in moves
    ensures var end := Exec(Threads(c), s, moves);
      && Stamps(c, end) == Stamps(c, s) + SendReadings(c, s, moves)
      && Arrivals(c, end) == Arrivals(c, s) + ArrivalReadings(c, s, moves)
      && Delivered(end) == Delivered(s) + Deliveries(c, s, moves)
  {
    var inv, permitted := (s: State) => Inv(c, s), (m: Move) => !m.NextRun?;
    var delivery := (s: State, m: Move) => Delivery(c, s, m);
    var stamps, arrivals := (s: State) => Stamps(c, s), (s: State) => Arrivals(c, s);
    var delivered := (s: State) => Delivered(s);
    forall s, m | Inv(c, s) && Enabled(c, s, m) && !m.NextRun?
      ensures Inv(c, Next(c, s, m))
      ensures Stamps(c, Next(c, s, m)) == Stamps(c, s) + SendReading(s, m)
      ensures Arrivals(c, Next(c, s, m)) == Arrivals(c, s) + ArrivalReading(s, m)
      ensures Delivered(Next(c, s, m)) == Delivered(s) + Delivery(c, s, m)
    {
      InvMove(c, s, m);
      StampsMove(c, s, m);
      ArrivalsMove(c, s, m);
      DeliveredMove(c, s, m);
    }
    hide Inv, Enabled, Next, Stamps, Arrivals, Delivered, SendReading, ArrivalReading, Delivery;
    LogIsTrace(Threads(c), inv, permitted, SendReading, stamps, s, moves);
    LogIsTrace(Threads(c), inv, permitted, ArrivalReading, arrivals, s, moves);
    LogIsTrace(Threads(c), inv, permitted, delivery, delivered, s, moves);
  }

  /** The clock shows the time that has passed. */
  lemma {:induction false} ClockAdvances(c: Config, s: State, moves: seq<Move>)
    ensures Exec(Threads(c), s, moves).clock == s.clock + Elapsed(moves)
    decreases |moves|
  {
    if moves != [] {
      var s' := Next(c, s, moves[0]);
      assert s'.clock == s.clock + if moves[0].Tick? then moves[0].elapsed else 0;
      hide Next;
      ClockAdvances(c, s', moves[1..]);
    }
  }

  // ----- the end of a run

  lemma FinishedLogIsExact(c: Config, s: State)
    requires Inv(c, s) && c.once && s.main == Finished
    ensures ExactlyOnce(s.recvTimes, s.sendTimes, s.order) && |s.recvTimes| == c.messages
  {
  }

  /** One run of the test, from the start to its end. */
  ghost predicate WholeRun(c: Config, s0: State, moves: seq<Move>)
  {
    && Initial(c, s0) && IsRun(Threads(c), s0, moves) && NextRun !in moves
    && Exec(Threads(c), s0, moves).main == Finished
  }

  lemma LogsAtStart(c: Config, s: State)
    requires Initial(c, s)
    ensures Inv(c, s) && Stamps(c, s) == [] && Arrivals(c, s) == [] && Delivered(s) == []
  {
    InitialInv(c, s);
    hide Inv;
  }

  lemma LogsAtEnd(c: Config, s: State)
    requires Inv(c, s) && s.main == Finished
    ensures Stamps(c, s) == s.sendTimes && Arrivals(c, s) == s.recvTimes && Delivered(s) == s.order
  {
  }

  /** At the end of a run the arrays hold its clock readings, and the history its deliveries. */
  lemma ArraysAreReadings(c: Config, s0: State, moves: seq<Move>)
    requires WholeRun(c, s0, moves)
    ensures var s := Exec(Threads(c), s0, moves);
      && Inv(c, s) && s.sendTimes == SendReadings(c, s0, moves)
      && s.recvTimes == ArrivalReadings(c, s0, moves) && s.order == Deliveries(c, s0, moves)
  {
    hide Initial, Inv, Stamps, Arrivals, Delivered, Next, Enabled, SendReadings, ArrivalReadings, Deliveries, Exec;
    LogsAtStart(c, s0);
    RunInv(c, s0, moves);
    LogsGrow(c, s0, moves);
    LogsAtEnd(c, Exec(Threads(c), s0, moves));
  }

  /** The figures of a report against the clock readings and deliveries of the run. */
  ghost predicate Truthful(c: Config, r: Report, sends: seq<int>, arrivals: seq<int>, deliveries: seq<nat>)
  {
    && ExactlyOnce(arrivals, sends, deliveries) && |arrivals| == c.messages > 0
    && r.total == Sum(arrivals) - Sum(sends)
    && (forall k :: 0 <= k < |arrivals| ==>
      TrueLatencies(arrivals, sends, deliveries)[k] == arrivals[k] - sends[deliveries[k]])
    && (arrivals[0] - sends[0] <= LLONG_MAX ==> Describes(r, TrueLatencies(arrivals, sends, deliveries)))
  }

  lemma ReportTotal(recv: seq<int>, send: seq<int>, r: Report)
    requires |recv| == |send| && Reports(r, IndexMatched(recv, send))
    ensures r.total == Sum(recv) - Sum(send)
  {
    SumOfDifferences(recv, send);
    hide Sum, IndexMatched;
  }

  lemma TrueLatency(recv: seq<int>, send: seq<int>, order: seq<nat>, k: nat)
    requires ExactlyOnce(recv, send, order) && k < |recv|
    ensures TrueLatencies(recv, send, order)[k] == recv[k] - send[order[k]]
  {
  }

  lemma TruthfulFigures(c: Config, r: Report, sends: seq<int>, arrivals: seq<int>, deliveries: seq<nat>)
    requires ExactlyOnce(arrivals, sends, deliveries) && |arrivals| == c.messages > 0
    requires Reports(r, IndexMatched(arrivals, sends))
    ensures Truthful(c, r, sends, arrivals, deliveries)
  {
    ReportTotal(arrivals, sends, r);
    forall k | 0 <= k < |arrivals|
      ensures TrueLatencies(arrivals, sends, deliveries)[k] == arrivals[k] - sends[deliveries[k]]
    {
      TrueLatency(arrivals, sends, deliveries, k);
    }
    hide Reports, Describes, Sum, IndexMatched, TrueLatencies;
    if arrivals[0] - sends[0] <= LLONG_MAX {
      ReportIsTruthful(arrivals, sends, deliveries, r);
    }
  }

  lemma TruthfulReport(c: Config, s: State, r: Report)
    requires Inv(c, s) && c.once && c.messages > 0 && s.main == Finished
    requires |s.recvTimes| == |s.sendTimes| && Reports(r, IndexMatched(s.recvTimes, s.sendTimes))
    ensures Truthful(c, r, s.sendTimes, s.recvTimes, s.order)
  {
    hide Inv, Reports, Truthful, ExactlyOnce;
    FinishedLogIsExact(c, s);
    TruthfulFigures(c, r, s.sendTimes, s.recvTimes, s.order);
  }

  /**
   In every run, whatever the delivery order and the interleaving, a report computed
   from the arrays describes the true latencies: for every message, the clock when the
   callback asked for the time less the clock when the message was stamped.
   */
  lemma EveryReportIsTruthful(c: Config, s0: State, moves: seq<Move>, r: Report)
    requires WholeRun(c, s0, moves) && c.once && c.messages > 0
    requires var s := Exec(Threads(c), s0, moves);
      |s.recvTimes| == |s.sendTimes| && Reports(r, IndexMatched(s.recvTimes, s.sendTimes))
    ensures Truthful(c, r, SendReadings(c, s0, moves), ArrivalReadings(c, s0, moves), Deliveries(c, s0, moves))
  {
    ArraysAreReadings(c, s0, moves);
    hide Inv, Reports;
    TruthfulReport(c, Exec(Threads(c), s0, moves), r);
  }

  /** A restart is a fresh start of the moves after it. */
  lemma AfterRestart(c: Config, s0: State, before: seq<Move>, after: seq<Move>) returns (start: State)
    requires Initial(c, s0) && IsRun(Threads(c), s0, before + ([NextRun] + after))
    ensures Initial(c, start) && IsRun(Threads(c), start, after)
    ensures Exec(Threads(c), start, after) == Exec(Threads(c), s0, before + ([NextRun] + after))
  {
    RunSplit(Threads(c), s0, before, [NextRun] + after);
    var s := Exec(Threads(c), s0, before);
    assert ([NextRun] + after)[1..] == after;
    assert Enabled(c, s, NextRun) && IsRun(Threads(c), Next(c, s, NextRun), after);
    start := Next(c, s, NextRun);
    hide Inv, Initial, Next, Enabled;
    InitialInv(c, s0);
    RunInv(c, s0, before);
    RestartIsInitial(c, s);
  }

  /** A finished test that may have been restarted is at the end of a whole run. */
  lemma {:induction false} LastRunIsWhole(c: Config, s0: State, moves: seq<Move>) returns (start: State, run: seq<Move>)
    requires Initial(c, s0) && IsRun(Threads(c), s0, moves) && Exec(Threads(c), s0, moves).main == Finished
    ensures WholeRun(c, start, run) && Exec(Threads(c), start, run) == Exec(Threads(c), s0, moves)
    decreases |moves|
  {
    hide Initial, IsRun, Exec;
    if NextRun !in moves {
      start, run := s0, moves;
    } else {
      var j :| 0 <= j < |moves| && moves[j] == NextRun;
      assert moves == moves[..j] + ([NextRun] + moves[j + 1..]);
      var restarted := AfterRestart(c, s0, moves[..j], moves[j + 1..]);
      start, run := LastRunIsWhole(c, restarted, moves[j + 1..]);
    }
  }

  // ----- termination of a run

  function MainRank(c: Config, s: State): nat
    requires s.published <= c.messages && (s.main == Publish ==> s.published < c.messages)
  {
    match s.main
    case Stamp => 2 * (c.messages - s.published) + 9
    case Publish => 2 * (c.messages - s.published - 1) + 10
    case Lock => 8
    case Test => if s.recvCount < c.messages then 6 else 3
    case EnterWait => 5
    case Parked => 4
    case Reacquire => if s.recvCount < c.messages then 7 else 4
    case Unlock => 2
    case StopLoop => 1
    case Finished => 0
  }

  function CallbackRank(c: Config, s: State): int
  {
    match s.callback
    case Idle => 8 * (c.messages - |s.order|)
    case ReadClock(_, slot, counted) => 8 * (c.messages - slot - 1) + (if counted then 6 else 7)
    case Record(_, _, slot, stored, counted) => 8 * (c.messages - slot - 1) + (if stored || counted then 5 else 6)
    case Compare => 8 * (c.messages - |s.order|) + 4
    case LockMutex => 8 * (c.messages - |s.order|) + 3
    case Signal => 8 * (c.messages - |s.order|) + 2
    case UnlockMutex => 8 * (c.messages - |s.order|) + 1
  }

  ghost function Rank(c: Config, s: State): nat
  {
    if Inv(c, s) then MainRank(c, s) + CallbackRank(c, s) else 0
  }

  lemma RankDefined(c: Config, s: State)
    requires Inv(c, s)
    ensures s.published <= c.messages && |s.order| <= c.messages && (s.main == Publish ==> s.published < c.messages)
  {
  }

  lemma FreshOnlyBeforeTheLast(c: Config, s: State, m: nat)
    requires Inv(c, s) && c.once && Enabled(c, s, Deliver(m))
    ensures s.recvCount < c.messages
  {
    if s.recvCount == c.messages {
      DistinctFit(s.order + [m], Below(c.messages));
    }
  }

  lemma RankMain(c: Config, s: State)
    requires Inv(c, s) && Enabled(c, s, Main) && Inv(c, MainStep(c, s))
    ensures Rank(c, MainStep(c, s)) < Rank(c, s)
  {
  }

  lemma RankDeliver(c: Config, s: State, m: Move)
    requires Inv(c, s) && c.once && m.Deliver? && Enabled(c, s, m) && Inv(c, Next(c, s, m))
    ensures Rank(c, Next(c, s, m)) < Rank(c, s)
  {
    FreshOnlyBeforeTheLast(c, s, m.m);
  }

  lemma RankIdle(c: Config, s: State, m: Move)
    requires Inv(c, s) && Enabled(c, s, m) && m.Idles() && Inv(c, Next(c, s, m))
    ensures Rank(c, Next(c, s, m)) <= Rank(c, s) + 3
  {
  }

  lemma MainRankKept(c: Config, s: State)
    requires s.published <= c.messages && (s.main == Publish ==> s.published < c.messages)
    requires s.callback.Signal? ==> s.recvCount == c.messages
    ensures MainRank(c, CallbackStep(c, s)) == MainRank(c, s)
  {
  }

  lemma CallbackRankFalls(c: Config, s: State)
    requires !s.callback.Idle? && !s.callback.Record?
    ensures CallbackRank(c, CallbackStep(c, s)) < CallbackRank(c, s)
  {
  }

  lemma RankCallback(c: Config, s: State)
    requires Inv(c, s) && Enabled(c, s, Callback) && Inv(c, Next(c, s, Callback))
    ensures Rank(c, Next(c, s, Callback)) < Rank(c, s)
  {
    RankDefined(c, s);
    MainRankKept(c, s);
    CallbackRankFalls(c, s);
    hide Inv, MainRank, CallbackRank;
  }

  /** Storing and counting lower the callback's rank; counting may let main see the full count. */
  lemma RankRecord(c: Config, s: State, m: Move)
    requires Inv(c, s) && Enabled(c, s, m) && (m.StoreTime? || m.BumpCount?) && Inv(c, Next(c, s, m))
    ensures Rank(c, Next(c, s, m)) < Rank(c, s)
  {
    var s' := Next(c, s, m);
    RankDefined(c, s);
    assert CallbackRank(c, s') < CallbackRank(c, s) by { hide MainRank; }
    hide Inv, CallbackRank;
    assert MainRank(c, s') <= MainRank(c, s);
  }

  /** Apart from clock ticks and spurious wakeups, every move of a single run brings its end closer. */
  lemma RankMove(c: Config, s: State, m: Move)
    requires Inv(c, s) && c.once && !c.restarts && Enabled(c, s, m)
    ensures Rank(c, Next(c, s, m)) <= if m.Idles() then Rank(c, s) + 3 else Rank(c, s) - 1
  {
    InvMove(c, s, m);
    match m
    case Main => RankMain(c, s);
    case Deliver(_) => RankDeliver(c, s, m);
    case Tick(_) | Spurious => RankIdle(c, s, m);
    case Callback => RankCallback(c, s);
    case StoreTime | BumpCount => RankRecord(c, s, m);
  }

  lemma RunsAreShort(c: Config, s0: State, moves: seq<Move>)
    requires c.once && !c.restarts && Initial(c, s0) && IsRun(Threads(c), s0, moves)
    ensures |moves| <= 10 * c.messages + 9 + 4 * Count((m: Move) => m.Idles(), moves)
  {
    InvStep(c);
    InitialInv(c, s0);
    assert Rank(c, s0) <= 10 * c.messages + 9;
    forall s, m | Inv(c, s) && Enabled(c, s, m)
      ensures Rank(c, Next(c, s, m)) <= if m.Idles() then Rank(c, s) + 3 else Rank(c, s) - 1
    {
      RankMove(c, s, m);
    }
    hide Inv, Next, Enabled, Rank, Initial;
    RunLength(Threads(c), s => Inv(c, s), s => Rank(c, s), (m: Move) => m.Idles(), 3, s0, moves);
  }

  /** The globals of a test and its two threads, updated in place. */
  class Program {
    const c: Config
    const sendTimes: array<int>
    const recvTimes: array<int>
    var clock: int
    var main: MainPc
    var published: nat
    var callback: CallbackPc
    var recvCount: nat
    var owner: Owner
    var order: seq<nat>
    var writes: seq<nat>

    function View(): State
      reads this, sendTimes, recvTimes
    {
      State(clock, main, published, sendTimes[..], callback, recvCount, recvTimes[..], owner, order, writes)
    }

    ghost predicate Valid()
      reads this, sendTimes, recvTimes
    {
      sendTimes != recvTimes && Inv(c, View())
    }

    constructor (c: Config, clock: int)
      ensures this.c == c && Valid() && Initial(c, View())
      ensures fresh(sendTimes) && fresh(recvTimes)
    {
      this.c, this.clock := c, clock;
      sendTimes, recvTimes := new int[c.messages], new int[c.messages];
      main, published, callback, recvCount, owner := Start(c), 0, Idle, 0, Free;
      order, writes := [], Zeros(c.messages);
      new;
      InitialInv(c, View());
    }

    method RunMain()
      requires Valid() && Enabled(c, View(), Main)
      modifies this, sendTimes
      ensures View() == Next(c, old(View()), Main)
    {
      match main {
        case Stamp =>
          sendTimes[published] := clock;
          main := Publish;
        case Publish =>
          published := published + 1;
          main := if published < c.messages then Stamp else Lock;
        case Lock | Reacquire => owner, main := ByMain, Test;
        case Test => main := if recvCount < c.messages then EnterWait else Unlock;
        case EnterWait => owner, main := Free, Parked;
        case Unlock => owner, main := Free, StopLoop;
        case StopLoop => main := Finished;
      }
    }

    method RunCallback()
      requires Enabled(c, View(), Callback)
      modifies this
      ensures View() == Next(c, old(View()), Callback)
    {
      match callback {
        case ReadClock(m, slot, counted) => callback := Record(m, clock, slot, false, counted);
        case Compare => callback := if recvCount == c.messages then LockMutex else Idle;
        case LockMutex => owner, callback := ByCallback, Signal;
        case Signal =>
          if main == Parked { main := Reacquire; }
          callback := UnlockMutex;
        case UnlockMutex => owner, callback := Free, Idle;
      }
    }

    method StoreArrivalTime()
      requires Valid() && Enabled(c, View(), StoreTime)
      modifies this, recvTimes
      ensures View() == Next(c, old(View()), StoreTime)
    {
      var slot := callback.slot;
      recvTimes[slot] := callback.time;
      order, writes := order + [callback.m], writes[slot := writes[slot] + 1];
      callback := if callback.counted then Compare else callback.(stored := true);
    }

    method Run(m: Move)
      requires Valid() && Enabled(c, View(), m)
      modifies this, sendTimes, recvTimes
      ensures View() == Next(c, old(View()), m)
    {
      hide Inv, Put, MainStep, CallbackStep;
      match m {
        case Tick(elapsed) => clock := clock + elapsed;
        case Main => RunMain();
        case Deliver(m) => if recvCount < c.messages { callback := ReadClock(m, recvCount, false); }
        case Callback => RunCallback();
        case StoreTime => StoreArrivalTime();
        case BumpCount =>
          recvCount := recvCount + 1;
          callback := if callback.Record? && callback.stored then Compare else callback.(counted := true);
        case Spurious => main := Reacquire;
        case NextRun =>
          recvCount, main, published, order, writes := 0, Start(c), 0, [], Zeros(c.messages);
      }
    }

    /** Some possible move; ticks and spurious wakeups only while any are left. */
    method Schedule(left: nat) returns (m: Move)
      requires Valid() && main != Finished
      ensures Enabled(c, View(), m) && (m.Idles() ==> left > 0)
    {
      SomethingMoves(c, View());
      hide Inv;
      if {
        case Enabled(c, View(), Main) => m := Main;
        case Enabled(c, View(), Callback) => m := Callback;
        case Enabled(c, View(), StoreTime) => m := StoreTime;
        case Enabled(c, View(), BumpCount) => m := BumpCount;
        case exists i: nat | i < published :: Enabled(c, View(), Deliver(i)) =>
          var i: nat :| i < published && Enabled(c, View(), Deliver(i));
          m := Deliver(i);
        case left > 0 =>
          var elapsed: nat :| true;
          m := Tick(elapsed);
        case left > 0 && Enabled(c, View(), Spurious) => m := Spurious;
      }
    }

    /** One move of any scheduler brings the end of a single run closer. */
    method OneMove(left: nat) returns (ghost m: Move, left': nat)
      requires Valid() && main != Finished && c.once && !c.restarts
      modifies this, sendTimes, recvTimes
      ensures Valid() && Rank(c, View()) + 4 * left' < old(Rank(c, View())) + 4 * left
      ensures Enabled(c, old(View()), m) && m != NextRun && View() == Next(c, old(View()), m)
    {
      var move := Schedule(left);
      assert move != NextRun;
      hide Inv, Next, Rank, Enabled;
      InvMove(c, View(), move);
      RankMove(c, View(), move);
      Run(move);
      m, left' := move, if move.Idles() then left - 1 else left;
    }

    /**
     One test run under any scheduler, any delivery order, and any `idles` clock ticks
     and spurious wakeups: it ends, and its report describes the true latencies.
     */
    method RunTest(idles: nat) returns (r: Report, ghost moves: seq<Move>)
      requires c.once && !c.restarts && c.messages > 0
      requires Valid() && Initial(c, View())
      modifies this, sendTimes, recvTimes
      ensures Valid() && WholeRun(c, old(View()), moves) && Exec(Threads(c), old(View()), moves) == View()
      ensures var s0 := old(View());
        Truthful(c, r, SendReadings(c, s0, moves), ArrivalReadings(c, s0, moves), Deliveries(c, s0, moves))
    {
      ghost var s0 := View();
      var left := idles;
      moves := [];
      while main != Finished
        invariant Valid()
        invariant IsRun(Threads(c), s0, moves) && NextRun !in moves && Exec(Threads(c), s0, moves) == View()
        decreases Rank(c, View()) + 4 * left
      {
        ghost var m;
        m, left := OneMove(left);
        OneMoreMove(Threads(c), s0, moves, m);
        moves := moves + [m];
      }
      r := Statistics(recvTimes, sendTimes);
      EveryReportIsTruthful(c, s0, moves, r);
    }
  }
}
