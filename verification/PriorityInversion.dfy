/**
 The priority-inversion scenario of linux_priority_inversion.c and
 qnx_priority_inversion.c on one processor under fixed-priority preemption,
 low < med < high, in discrete time: in every tick the highest ready task makes one
 step. With `inherit` set the mutex passes high's priority to its owner while high
 waits, as the QNX mutex does by default; the Linux program's mutex does not.

 The busy loops compare wall-clock times, so time spent preempted counts.

 The scheduler's run has a closed form, tick by tick, for all parameters: from it come
 the exact tick in which high gets the mutex and what that tick depends on.
 */
module PriorityInversion {

  /**
   Hold and busy durations, and the ticks from which the three tasks may run. On QNX
   low posts a semaphore between its lock and its first clock reading: `announce`.
   */
  datatype Params = Params(hold: nat, med: nat, lowAt: nat, medAt: nat, highAt: nat, announce: bool)

  datatype Low = LowLock | LowPost | LowStamp | LowHold(t0: nat) | LowUnlock | LowDone

  datatype Med = MedStamp | MedBusy(t0: nat) | MedDone

  datatype High =
    | HighStamp
    | HighLock(t0: nat)
    | HighBlocked(t0: nat)
    | HighLocked(t0: nat)
    | HighUnlock(t0: nat, t1: nat)
    | HighDone(t0: nat, t1: nat)

  datatype Owner = Free | ByLow | ByHigh

  datatype State = State(now: nat, low: Low, med: Med, high: High, owner: Owner)

  datatype Task = RunLow | RunMed | RunHigh | Idle

  function Init(): State { State(0, LowLock, MedStamp, HighStamp, Free) }

  predicate LowReady(p: Params, s: State)
  {
    s.now >= p.lowAt && !s.low.LowDone? && (s.low.LowLock? ==> s.owner.Free?)
  }

  predicate MedReady(p: Params, s: State)
  {
    s.now >= p.medAt && !s.med.MedDone?
  }

  predicate HighReady(p: Params, s: State)
  {
    s.now >= p.highAt && !s.high.HighDone? && (s.high.HighBlocked? ==> s.owner.Free?)
  }

  predicate Boosted(inherit: bool, s: State)
  {
    inherit && s.high.HighBlocked? && s.owner.ByLow?
  }

  /** The scheduler: the ready task of highest effective priority. */
  function Pick(p: Params, inherit: bool, s: State): Task
  {
    if HighReady(p, s) then RunHigh
    else if Boosted(inherit, s) && LowReady(p, s) then RunLow
    else if MedReady(p, s) then RunMed
    else if LowReady(p, s) then RunLow
    else Idle
  }

  /** Low is between its lock and its unlock. */
  predicate LowInside(s: State) { s.low.LowPost? || s.low.LowStamp? || s.low.LowHold? || s.low.LowUnlock? }

  /** linux_priority_inversion.c:41-46, qnx_priority_inversion.c:42-48. */
  function LowStep(p: Params, s: State): State
  {
    match s.low
    case LowLock => s.(low := if p.announce then LowPost else LowStamp, owner := ByLow)
    case LowPost => s.(low := LowStamp)
    case LowStamp => s.(low := LowHold(s.now))
    case LowHold(t0) => if s.now - t0 < p.hold then s else s.(low := LowUnlock)
    case LowUnlock => s.(low := LowDone, owner := Free)
    case LowDone => s
  }

  /** linux_priority_inversion.c:53-56. */
  function MedStep(p: Params, s: State): State
  {
    match s.med
    case MedStamp => s.(med := MedBusy(s.now))
    case MedBusy(t0) => if s.now - t0 < p.med then s else s.(med := MedDone)
    case MedDone => s
  }

  /** linux_priority_inversion.c:62-71. */
  function HighStep(s: State): State
  {
    match s.high
    case HighStamp => s.(high := HighLock(s.now))
    case HighLock(t0) => if s.owner.Free? then s.(high := HighLocked(t0), owner := ByHigh) else s.(high := HighBlocked(t0))
    case HighBlocked(t0) => s.(high := HighLocked(t0), owner := ByHigh)
    case HighLocked(t0) => s.(high := HighUnlock(t0, s.now))
    case HighUnlock(t0, t1) => s.(high := HighDone(t0, t1), owner := Free)
    case HighDone(_, _) => s
  }

  function Tick(p: Params, inherit: bool, s: State): State
  {
    var s' := match Pick(p, inherit, s)
      case RunHigh => HighStep(s)
      case RunMed => MedStep(p, s)
      case RunLow => LowStep(p, s)
      case Idle => s;
    s'.(now := s.now + 1)
  }

  /** The state after `n` ticks. */
  function After(p: Params, inherit: bool, n: nat): State
  {
    if n == 0 then Init() else Tick(p, inherit, After(p, inherit, n - 1))
  }

  predicate Acquired(s: State)
  {
    s.high.HighLocked? || s.high.HighUnlock? || s.high.HighDone?
  }

  /** High locks the mutex in tick `n`. */
  predicate AcquiresAt(p: Params, inherit: bool, n: nat)
  {
    !Acquired(After(p, inherit, n)) && Acquired(After(p, inherit, n + 1))
  }

  /** High asks in tick `c`, locks the mutex in tick `n`, and reads the clock before and after: it reports n + 1 - c. */
  predicate Measures(p: Params, inherit: bool, c: nat, n: nat)
  {
    AcquiresAt(p, inherit, n) && After(p, inherit, n + 2).high == HighUnlock(c, n + 1)
  }

  // ----- reachable states

  predicate Inv(p: Params, s: State)
  {
    && (s.owner.ByLow? <==> LowInside(s))
    && (s.owner.ByHigh? <==> s.high.HighLocked? || s.high.HighUnlock?)
    && (s.low.LowHold? ==> s.low.t0 < s.now)
    && (s.med.MedBusy? ==> s.med.t0 < s.now)
    && (!s.low.LowLock? ==> p.lowAt < s.now)
    && (!s.med.MedStamp? ==> p.medAt < s.now)
    && (!s.high.HighStamp? ==> p.highAt <= s.high.t0 < s.now)
  }

  lemma TickInv(p: Params, inherit: bool, s: State)
    requires Inv(p, s)
    ensures Inv(p, Tick(p, inherit, s))
  {
  }

  lemma {:induction false} AfterInv(p: Params, inherit: bool, n: nat)
    ensures Inv(p, After(p, inherit, n)) && After(p, inherit, n).now == n
  {
    if n > 0 {
      AfterInv(p, inherit, n - 1);
      TickInv(p, inherit, After(p, inherit, n - 1));
    }
  }

  /** High and low never hold the mutex together, under either protocol. */
  lemma MutualExclusion(p: Params, inherit: bool, n: nat)
    ensures var s := After(p, inherit, n);
      !(LowInside(s) && (s.high.HighLocked? || s.high.HighUnlock?))
  {
    AfterInv(p, inherit, n);
  }

  /** Once acquired, always acquired. */
  lemma {:induction false} AcquiredForever(p: Params, inherit: bool, n: nat, k: nat)
    requires n <= k && Acquired(After(p, inherit, n))
    ensures Acquired(After(p, inherit, k))
    decreases k
  {
    if n < k {
      AcquiredForever(p, inherit, n, k - 1);
    }
  }

  lemma AcquiresOnce(p: Params, inherit: bool, n: nat, k: nat)
    requires AcquiresAt(p, inherit, n) && AcquiresAt(p, inherit, k)
    ensures n == k
  {
    hide Acquired, After;
    if n < k { AcquiredForever(p, inherit, n + 1, k); }
    if k < n { AcquiredForever(p, inherit, k + 1, n); }
  }

  // ----- inheritance never makes high wait longer

  predicate LowAhead(a: Low, b: Low)
  {
    match a
    case LowLock => b == a
    case LowPost => b == a
    case LowStamp => b.LowPost? || b.LowStamp?
    case LowHold(t) => b.LowPost? || b.LowStamp? || (b.LowHold? && t <= b.t0)
    case LowUnlock => b.LowPost? || b.LowStamp? || b.LowHold? || b.LowUnlock?
    case LowDone => !b.LowLock?
  }

  /** `a` is the run with inheritance, `b` the run without: equal until high blocks, then `a` is never behind. */
  predicate NeverBehind(a: State, b: State)
  {
    a.now == b.now &&
    (a == b || Acquired(a) || (a.high.HighBlocked? && b.high == a.high && LowAhead(a.low, b.low)))
  }

  lemma NeverBehindTick(p: Params, a: State, b: State)
    requires Inv(p, a) && Inv(p, b) && NeverBehind(a, b)
    ensures NeverBehind(Tick(p, true, a), Tick(p, false, b))
  {
    if a == b {
    } else if Acquired(a) {
    } else if HighReady(p, a) {
      assert a.owner.Free?;
    } else {
      assert Pick(p, true, a) == RunLow;
    }
  }

  lemma StillNotBehind(p: Params, n: nat)
    requires NeverBehind(After(p, true, n), After(p, false, n))
    ensures NeverBehind(After(p, true, n + 1), After(p, false, n + 1))
  {
    hide NeverBehind, Tick, Inv;
    AfterInv(p, true, n);
    AfterInv(p, false, n);
    NeverBehindTick(p, After(p, true, n), After(p, false, n));
  }

  lemma {:induction false} InheritanceNeverBehind(p: Params, n: nat)
    ensures NeverBehind(After(p, true, n), After(p, false, n))
  {
    if n > 0 {
      InheritanceNeverBehind(p, n - 1);
      StillNotBehind(p, n - 1);
    }
  }

  /** For all durations and release times, high has the mutex no later with inheritance than without. */
  lemma InheritanceNeverHurts(p: Params, n: nat)
    requires Acquired(After(p, false, n))
    ensures Acquired(After(p, true, n))
  {
    InheritanceNeverBehind(p, n);
  }

  function Max(a: nat, b: nat): nat { if a >= b then a else b }

  // ----- the course of low and med while high does not run

  /** Unless low is boosted, med takes the ticks from MedFrom to MedTo. */
  function MedFrom(p: Params, s: State): nat
  {
    if s.med.MedStamp? then Max(s.now, p.medAt) else s.now
  }

  function MedTo(p: Params, s: State): int
  {
    match s.med
    case MedStamp => Max(MedFrom(p, s) + p.med, MedFrom(p, s) + 1)
    case MedBusy(t0) => Max(t0 + p.med, s.now)
    case MedDone => s.now - 1
  }

  /** Low's first turn in tick `t` or later. */
  function Turn(p: Params, boosted: bool, s: State, t: nat): (tick: nat)
    ensures tick >= t
  {
    if !boosted && MedFrom(p, s) <= t <= MedTo(p, s) then MedTo(p, s) + 1 else t
  }

  /** The ticks in which low locks, posts, reads the clock, sees its hold over, and unlocks. */
  datatype Course = Course(lock: nat, post: nat, read: nat, over: nat, unlock: nat)

  /** Low's course from one of its milestones on. */
  function FromOver(p: Params, boosted: bool, s: State, over: nat): Course
  {
    Course(0, 0, 0, over, Turn(p, boosted, s, over + 1))
  }

  function FromRead(p: Params, boosted: bool, s: State, read: nat): Course
  {
    FromOver(p, boosted, s, Turn(p, boosted, s, Max(read + p.hold, read + 1))).(read := read)
  }

  function FromPost(p: Params, boosted: bool, s: State, post: nat): Course
  {
    FromRead(p, boosted, s, Turn(p, boosted, s, post + 1)).(post := post)
  }

  function FromLock(p: Params, boosted: bool, s: State, lock: nat): Course
  {
    FromPost(p, boosted, s, if p.announce then Turn(p, boosted, s, lock + 1) else lock).(lock := lock)
  }

  /** Low's course from `s` on; a milestone that lies behind is put in tick 0. */
  function LowCourse(p: Params, boosted: bool, s: State): Course
  {
    match s.low
    case LowLock => FromLock(p, boosted, s, Turn(p, boosted, s, Max(s.now, p.lowAt)))
    case LowPost => FromPost(p, boosted, s, Turn(p, boosted, s, s.now))
    case LowStamp => FromRead(p, boosted, s, Turn(p, boosted, s, s.now))
    case LowHold(t0) => FromOver(p, boosted, s, Turn(p, boosted, s, Max(t0 + p.hold, s.now))).(read := t0)
    case LowUnlock => Course(0, 0, 0, 0, Turn(p, boosted, s, s.now))
    case LowDone => Course(0, 0, 0, 0, 0)
  }

  function LowAt(c: Course, n: nat): Low
  {
    if n <= c.lock then LowLock
    else if n <= c.post then LowPost
    else if n <= c.read then LowStamp
    else if n <= c.over then LowHold(c.read)
    else if n <= c.unlock then LowUnlock
    else LowDone
  }

  function MedAt(p: Params, s: State, n: nat): Med
  {
    match s.med
    case MedStamp =>
      if n <= MedFrom(p, s) then MedStamp else if n <= MedTo(p, s) then MedBusy(MedFrom(p, s)) else MedDone
    case MedBusy(_) => if n <= MedTo(p, s) then s.med else MedDone
    case MedDone => MedDone
  }

  /** The state in tick `n` if high does not run from `s` until then. */
  function Coasts(p: Params, boosted: bool, s: State, n: nat): State
  {
    var c := LowCourse(p, boosted, s);
    var med := if boosted then s.med else MedAt(p, s, n);
    State(n, LowAt(c, n), med, s.high, if c.lock < n <= c.unlock then ByLow else Free)
  }

  lemma CoastsFromHere(p: Params, boosted: bool, s: State)
    requires Inv(p, s) && s.owner != ByHigh
    ensures Coasts(p, boosted, s, s.now) == s
  {
  }

  /** High is not ready in `s`, and low is boosted or not as given. */
  predicate Coasting(p: Params, inherit: bool, boosted: bool, s: State)
  {
    && Inv(p, s) && s.owner != ByHigh && !HighReady(p, s)
    && Boosted(inherit, s) == boosted
  }

  lemma TurnAfterTick(p: Params, inherit: bool, boosted: bool, s: State, t: nat)
    requires Coasting(p, inherit, boosted, s) && t > s.now
    ensures Turn(p, boosted, Tick(p, inherit, s), t) == Turn(p, boosted, s, t)
  {
  }

  lemma TurnNow(p: Params, inherit: bool, boosted: bool, s: State)
    requires Coasting(p, inherit, boosted, s)
    ensures if Pick(p, inherit, s) == RunMed
      then Turn(p, boosted, s, s.now) == Turn(p, boosted, Tick(p, inherit, s), s.now + 1)
      else Turn(p, boosted, s, s.now) == s.now
  {
  }

  lemma MedAfterTick(p: Params, inherit: bool, boosted: bool, s: State, n: nat)
    requires Coasting(p, inherit, boosted, s) && n > s.now
    ensures var s' := Tick(p, inherit, s); if boosted then s'.med == s.med else MedAt(p, s', n) == MedAt(p, s, n)
  {
  }

  ghost predicate SameTurns(p: Params, boosted: bool, s: State, s': State)
  {
    forall t: nat :: t > s.now ==> Turn(p, boosted, s', t) == Turn(p, boosted, s, t)
  }

  /** From a milestone in tick `m` on, the rest of the course is the same. */
  lemma SameRest(p: Params, boosted: bool, s: State, s': State, m: nat)
    requires SameTurns(p, boosted, s, s') && m >= s.now
    ensures FromOver(p, boosted, s', m) == FromOver(p, boosted, s, m)
    ensures FromRead(p, boosted, s', m) == FromRead(p, boosted, s, m)
    ensures FromPost(p, boosted, s', m) == FromPost(p, boosted, s, m)
    ensures FromLock(p, boosted, s', m) == FromLock(p, boosted, s, m)
  {
    hide Turn;
  }

  /** `c` and `d` differ at most in what lies before tick `n`. */
  predicate SameFrom(c: Course, d: Course, n: nat)
  {
    && (c.lock == d.lock || (c.lock < n && d.lock < n))
    && (c.post == d.post || (c.post < n && d.post < n))
    && (c.over == d.over || (c.over < n && d.over < n))
    && (c.read == d.read || (c.read < n && d.read < n && c.over < n && d.over < n))
    && (c.unlock == d.unlock || (c.unlock < n && d.unlock < n))
  }

  lemma PostTick(p: Params, boosted: bool, s: State, s': State)
    requires s.low.LowPost? && s'.low.LowStamp? && s'.now == s.now + 1
    requires SameTurns(p, boosted, s, s') && Turn(p, boosted, s, s.now) == s.now
    ensures LowCourse(p, boosted, s) == LowCourse(p, boosted, s').(post := s.now) && LowCourse(p, boosted, s').post == 0
  {
    SameRest(p, boosted, s, s', Turn(p, boosted, s, s'.now));
    assert Turn(p, boosted, s', s'.now) == Turn(p, boosted, s, s'.now);
    hide Turn, FromRead, SameTurns;
  }

  lemma LockTick(p: Params, boosted: bool, s: State, s': State)
    requires s.low.LowLock? && s'.low == (if p.announce then LowPost else LowStamp)
    requires s.now >= p.lowAt && s'.now == s.now + 1
    requires SameTurns(p, boosted, s, s') && Turn(p, boosted, s, s.now) == s.now
    ensures var c := LowCourse(p, boosted, s');
      && LowCourse(p, boosted, s) == (if p.announce then c else c.(post := s.now)).(lock := s.now)
      && c.lock == 0 && (!p.announce ==> c.post == 0)
  {
    SameRest(p, boosted, s, s', Turn(p, boosted, s, s'.now));
    assert Turn(p, boosted, s', s'.now) == Turn(p, boosted, s, s'.now);
    hide Turn, FromRead, SameTurns;
  }

  lemma ReadTick(p: Params, boosted: bool, s: State, s': State)
    requires s.low.LowStamp? && s'.low == LowHold(s.now) && s'.now == s.now + 1
    requires SameTurns(p, boosted, s, s') && Turn(p, boosted, s, s.now) == s.now
    ensures LowCourse(p, boosted, s') == LowCourse(p, boosted, s)
  {
    var m := Max(s.now + p.hold, s'.now);
    assert Turn(p, boosted, s', m) == Turn(p, boosted, s, m);
    SameRest(p, boosted, s, s', Turn(p, boosted, s, m));
    hide Turn, FromOver, SameTurns;
    assert FromRead(p, boosted, s, s.now) == FromOver(p, boosted, s, Turn(p, boosted, s, m)).(read := s.now);
    hide FromRead;
  }

  lemma HoldTick(p: Params, boosted: bool, s: State, s': State)
    requires s.low.LowHold? && s.low.t0 < s.now < s.low.t0 + p.hold && s'.low == s.low && s'.now == s.now + 1
    requires SameTurns(p, boosted, s, s')
    ensures LowCourse(p, boosted, s') == LowCourse(p, boosted, s)
  {
    var m := s.low.t0 + p.hold;
    assert Turn(p, boosted, s', m) == Turn(p, boosted, s, m);
    SameRest(p, boosted, s, s', Turn(p, boosted, s, m));
    hide Turn, FromOver, SameTurns;
  }

  lemma LeaveTick(p: Params, boosted: bool, s: State, s': State)
    requires s.low.LowHold? && s.low.t0 + p.hold <= s.now && s'.low.LowUnlock? && s'.now == s.now + 1
    requires SameTurns(p, boosted, s, s') && Turn(p, boosted, s, s.now) == s.now
    ensures var c := LowCourse(p, boosted, s');
      LowCourse(p, boosted, s) == c.(read := s.low.t0, over := s.now) && c.read == c.over == 0
  {
    assert Turn(p, boosted, s', s'.now) == Turn(p, boosted, s, s'.now);
    hide Turn, SameTurns;
  }

  lemma UnlockTick(p: Params, boosted: bool, s: State, s': State)
    requires s.low.LowUnlock? && s'.low.LowDone? && Turn(p, boosted, s, s.now) == s.now
    ensures var c := LowCourse(p, boosted, s'); LowCourse(p, boosted, s) == c.(unlock := s.now) && c.unlock == 0
  {
    hide Turn;
  }

  lemma LowTick(p: Params, boosted: bool, s: State, s': State)
    requires LowReady(p, s) && (s.low.LowHold? ==> s.low.t0 < s.now)
    requires s'.now == s.now + 1 && s'.low == LowStep(p, s).low
    requires SameTurns(p, boosted, s, s') && Turn(p, boosted, s, s.now) == s.now
    ensures SameFrom(LowCourse(p, boosted, s), LowCourse(p, boosted, s'), s'.now)
  {
    hide LowCourse, Turn, SameTurns;
    match s.low
    case LowLock => LockTick(p, boosted, s, s');
    case LowPost => PostTick(p, boosted, s, s');
    case LowStamp => ReadTick(p, boosted, s, s');
    case LowHold(t0) => if s.now - t0 < p.hold { HoldTick(p, boosted, s, s'); } else { LeaveTick(p, boosted, s, s'); }
    case LowUnlock => UnlockTick(p, boosted, s, s');
  }

  lemma WaitingToRead(p: Params, boosted: bool, s: State, s': State)
    requires s'.now == s.now + 1 && s'.low == s.low && (s.low.LowLock? || s.low.LowPost? || s.low.LowStamp?)
    requires SameTurns(p, boosted, s, s')
    requires Turn(p, boosted, s, s.now) == Turn(p, boosted, s', s'.now) || (s.low.LowLock? && s.now < p.lowAt)
    ensures LowCourse(p, boosted, s') == LowCourse(p, boosted, s)
  {
    var m := Turn(p, boosted, s, if s.low.LowLock? then Max(s.now, p.lowAt) else s.now);
    SameRest(p, boosted, s, s', m);
    assert m == Turn(p, boosted, s', if s.low.LowLock? then Max(s'.now, p.lowAt) else s'.now);
    hide Turn, SameTurns, FromLock, FromPost, FromRead;
  }

  lemma WaitingTick(p: Params, boosted: bool, s: State, s': State)
    requires s'.now == s.now + 1 && s'.low == s.low
    requires SameTurns(p, boosted, s, s')
    requires
      || Turn(p, boosted, s, s.now) == Turn(p, boosted, s', s'.now)
      || s.low.LowDone?
      || (s.low.LowLock? && s.now < p.lowAt)
    ensures LowCourse(p, boosted, s') == LowCourse(p, boosted, s)
  {
    match s.low
    case LowDone | LowUnlock =>
    case LowHold(t0) =>
      var m := Turn(p, boosted, s, Max(t0 + p.hold, s.now));
      SameRest(p, boosted, s, s', m);
      assert m == Turn(p, boosted, s', Max(t0 + p.hold, s'.now));
    case _ => WaitingToRead(p, boosted, s, s');
    hide Turn, SameTurns, FromLock, FromPost, FromRead, FromOver;
  }

  lemma LowAfterTick(p: Params, inherit: bool, boosted: bool, s: State)
    requires Coasting(p, inherit, boosted, s)
    ensures SameFrom(LowCourse(p, boosted, s), LowCourse(p, boosted, Tick(p, inherit, s)), s.now + 1)
  {
    var s' := Tick(p, inherit, s);
    TurnNow(p, inherit, boosted, s);
    assert SameTurns(p, boosted, s, s') by {
      forall t: nat | t > s.now
        ensures Turn(p, boosted, s', t) == Turn(p, boosted, s, t)
      {
        TurnAfterTick(p, inherit, boosted, s, t);
      }
    }
    hide LowCourse, Turn, SameTurns;
    if Pick(p, inherit, s) != RunLow {
      WaitingTick(p, boosted, s, s');
    } else {
      LowTick(p, boosted, s, s');
    }
  }

  /** One tick does not change the course ahead. */
  lemma CoastsAfterTick(p: Params, inherit: bool, boosted: bool, s: State, n: nat)
    requires Coasting(p, inherit, boosted, s) && n > s.now
    ensures Coasts(p, boosted, Tick(p, inherit, s), n) == Coasts(p, boosted, s, n)
  {
    LowAfterTick(p, inherit, boosted, s);
    hide LowCourse;
    MedAfterTick(p, inherit, boosted, s, n);
  }

  // ----- the exact tick in which high gets the mutex

  /** The state in which high asks, reckoned without running the scheduler. */
  function AtRequest(p: Params): State
  {
    Coasts(p, false, Init(), p.highAt)
  }

  /** The state after high found the mutex taken. */
  function BlockedState(p: Params): State
  {
    AtRequest(p).(now := p.highAt + 2, high := HighBlocked(p.highAt))
  }

  /** The tick in which high locks the mutex, for all parameters and both protocols. */
  function LocksAt(p: Params, inherit: bool): nat
  {
    if LowInside(AtRequest(p)) then LowCourse(p, inherit, BlockedState(p)).unlock + 1 else p.highAt + 1
  }

  lemma HighKept(p: Params, inherit: bool, s: State)
    requires !HighReady(p, s)
    ensures Tick(p, inherit, s).high == s.high && (!s.owner.ByHigh? ==> !Tick(p, inherit, s).owner.ByHigh?)
  {
  }

  lemma {:induction false} BeforeRequest(p: Params, inherit: bool, n: nat, end: nat)
    requires n <= p.highAt && n <= end
    ensures Coasts(p, false, After(p, inherit, n), end) == Coasts(p, false, Init(), end)
    ensures After(p, inherit, n).high.HighStamp?
  {
    hide Coasts, Tick;
    if n > 0 {
      BeforeRequest(p, inherit, n - 1, end);
      AfterInv(p, inherit, n - 1);
      HighKept(p, inherit, After(p, inherit, n - 1));
      CoastsAfterTick(p, inherit, false, After(p, inherit, n - 1), end);
    }
  }

  /** Before high asks the protocols do not differ: the state in every tick, for all parameters. */
  lemma RunUp(p: Params, inherit: bool, n: nat)
    requires n <= p.highAt
    ensures After(p, inherit, n) == Coasts(p, false, Init(), n) && After(p, inherit, n).high.HighStamp?
  {
    BeforeRequest(p, inherit, n, n);
    AfterInv(p, inherit, n);
    CoastsFromHere(p, false, After(p, inherit, n));
    hide Coasts;
  }

  lemma RequestTicks(p: Params, inherit: bool, s: State)
    requires Inv(p, s) && s.now >= p.highAt && s.high.HighStamp?
    ensures var s1 := Tick(p, inherit, s); var s2 := Tick(p, inherit, s1);
      && s1 == s.(now := s.now + 1, high := HighLock(s.now))
      && if LowInside(s) then s2 == s.(now := s.now + 2, high := HighBlocked(s.now))
         else s2.high == HighLocked(s.now) && Tick(p, inherit, s2).high == HighUnlock(s.now, s.now + 2)
  {
    assert Tick(p, inherit, s) == s.(now := s.now + 1, high := HighLock(s.now));
  }

  lemma Request(p: Params, inherit: bool)
    ensures if LowInside(AtRequest(p)) then After(p, inherit, p.highAt + 2) == BlockedState(p)
      else Measures(p, inherit, p.highAt, p.highAt + 1)
    ensures After(p, inherit, p.highAt + 1) == AtRequest(p).(now := p.highAt + 1, high := HighLock(p.highAt))
  {
    RunUp(p, inherit, p.highAt);
    AfterInv(p, inherit, p.highAt);
    hide Coasts, Tick, Inv;
    RequestTicks(p, inherit, After(p, inherit, p.highAt));
    assert After(p, inherit, p.highAt + 2) == Tick(p, inherit, After(p, inherit, p.highAt + 1));
  }

  lemma LockBehind(p: Params, boosted: bool, s: State)
    requires LowInside(s)
    ensures LowCourse(p, boosted, s).lock == 0
  {
  }

  lemma UnlockAhead(p: Params, boosted: bool, s: State)
    requires LowInside(s)
    ensures LowCourse(p, boosted, s).unlock >= s.now
  {
    hide Turn;
  }

  /** High waits, and low owns the mutex until its unlock is over. */
  lemma StillBlocked(p: Params, inherit: bool, n: nat)
    requires LowInside(AtRequest(p)) && n > 0
    ensures var s := Coasts(p, inherit, BlockedState(p), n);
      s.now == n && s.high == HighBlocked(p.highAt) && s.owner == (if n < LocksAt(p, inherit) then ByLow else Free)
  {
    hide AtRequest, LowCourse;
    LockBehind(p, inherit, BlockedState(p));
  }

  lemma {:induction false} WhileBlocked(p: Params, inherit: bool, n: nat, end: nat)
    requires LowInside(AtRequest(p)) && p.highAt + 2 <= n <= end && n <= LocksAt(p, inherit)
    ensures Coasts(p, inherit, After(p, inherit, n), end) == Coasts(p, inherit, BlockedState(p), end)
    ensures After(p, inherit, n).owner != ByHigh
    decreases n, 0
  {
    hide AtRequest, Coasts, Tick, LocksAt;
    if n == p.highAt + 2 {
      Request(p, inherit);
      AfterInv(p, inherit, n);
    } else {
      BlockedRun(p, inherit, n - 1);
      StillBlocked(p, inherit, n - 1);
      AfterInv(p, inherit, n - 1);
      WhileBlocked(p, inherit, n - 1, end);
      HighKept(p, inherit, After(p, inherit, n - 1));
      CoastsAfterTick(p, inherit, inherit, After(p, inherit, n - 1), end);
    }
  }

  /** While high is blocked: the state in every tick until low has unlocked, for all parameters and both protocols. */
  lemma BlockedRun(p: Params, inherit: bool, n: nat)
    requires LowInside(AtRequest(p)) && p.highAt + 2 <= n <= LocksAt(p, inherit)
    ensures After(p, inherit, n) == Coasts(p, inherit, BlockedState(p), n)
    decreases n, 1
  {
    hide AtRequest;
    WhileBlocked(p, inherit, n, n);
    AfterInv(p, inherit, n);
    hide Coasts;
    CoastsFromHere(p, inherit, After(p, inherit, n));
  }

  lemma HighTakesOver(p: Params, inherit: bool, s: State, c: nat)
    requires s.now >= p.highAt && s.owner.Free? && s.high == HighBlocked(c)
    ensures var s1 := Tick(p, inherit, s);
      s1.high == HighLocked(c) && Tick(p, inherit, s1).high == HighUnlock(c, s.now + 1)
  {
  }

  /** For all parameters and both protocols: the tick in which high locks the mutex, and the wait it reports. */
  lemma WaitExact(p: Params, inherit: bool)
    ensures Measures(p, inherit, p.highAt, LocksAt(p, inherit))
  {
    hide AtRequest, Coasts, LowCourse, Tick;
    if LowInside(AtRequest(p)) {
      var n := LocksAt(p, inherit);
      UnlockAhead(p, inherit, BlockedState(p));
      BlockedRun(p, inherit, n);
      StillBlocked(p, inherit, n);
      HighTakesOver(p, inherit, After(p, inherit, n), p.highAt);
      assert After(p, inherit, n + 2) == Tick(p, inherit, After(p, inherit, n + 1));
    } else {
      Request(p, inherit);
    }
  }

  lemma HighGivesBack(p: Params, inherit: bool, s: State)
    requires Inv(p, s) && s.high.HighUnlock?
    ensures var s' := Tick(p, inherit, s); s'.high == HighDone(s.high.t0, s.high.t1) && s'.owner == Free
  {
  }

  /** Two ticks after it locked the mutex high gives it back, with the two clock readings that it reports. */
  lemma MutexGivenBack(p: Params, inherit: bool)
    ensures var s := After(p, inherit, LocksAt(p, inherit) + 3);
      s.high == HighDone(p.highAt, LocksAt(p, inherit) + 1) && s.owner == Free
  {
    var n := LocksAt(p, inherit);
    WaitExact(p, inherit);
    hide LocksAt, Tick, Inv, AcquiresAt;
    AfterInv(p, inherit, n + 2);
    HighGivesBack(p, inherit, After(p, inherit, n + 2));
    assert After(p, inherit, n + 3) == Tick(p, inherit, After(p, inherit, n + 2));
  }

  // ----- what the exact tick says

  /** Each task's loop takes at least one tick after the one that reads the clock. */
  function AtLeastOne(duration: nat): nat { Max(duration, 1) }

  /** A boosted low only goes through what is left of its own code. */
  lemma UnlockBoosted(p: Params, s: State)
    requires LowInside(s)
    ensures LowCourse(p, true, s).unlock == match s.low
      case LowPost => s.now + AtLeastOne(p.hold) + 2
      case LowStamp => s.now + AtLeastOne(p.hold) + 1
      case LowHold(t0) => Max(t0 + p.hold, s.now) + 1
      case _ => s.now
  {
  }

  lemma UnlockBoundedFromStart(p: Params, s: State)
    requires Inv(p, s) && (s.low.LowPost? || s.low.LowStamp?)
    ensures LowCourse(p, false, s).unlock <= s.now + AtLeastOne(p.hold) + AtLeastOne(p.med) + 3
  {
  }

  lemma UnlockBounded(p: Params, s: State)
    requires Inv(p, s) && LowInside(s)
    ensures LowCourse(p, false, s).unlock <= s.now + AtLeastOne(p.hold) + AtLeastOne(p.med) + 3
  {
    if s.low.LowPost? || s.low.LowStamp? { UnlockBoundedFromStart(p, s); } else { hide FromRead, FromPost; }
  }

  lemma LocksWithin(p: Params, inherit: bool)
    ensures LocksAt(p, inherit) <= p.highAt + AtLeastOne(p.hold) + if inherit then 5 else AtLeastOne(p.med) + 6
  {
    hide AtRequest, LowCourse;
    if LowInside(AtRequest(p)) {
      Request(p, inherit);
      AfterInv(p, inherit, p.highAt + 2);
      if inherit { UnlockBoosted(p, BlockedState(p)); } else { UnlockBounded(p, BlockedState(p)); }
    }
  }

  /**
   High always gets the mutex, for all durations and release times: with inheritance it
   waits for at most one hold, and without for at most one hold and one busy time of med.
   */
  lemma BoundedInversion(p: Params, inherit: bool)
    ensures Acquired(After(p, inherit, p.highAt + AtLeastOne(p.hold) + if inherit then 6 else AtLeastOne(p.med) + 7))
  {
    WaitExact(p, inherit);
    LocksWithin(p, inherit);
    hide LocksAt, Acquired;
    AcquiredForever(p, inherit, LocksAt(p, inherit) + 1,
                    p.highAt + AtLeastOne(p.hold) + if inherit then 6 else AtLeastOne(p.med) + 7);
  }

  /** With inheritance only low's position counts when high asks in state `s`. */
  function InheritedTick(p: Params, s: State): nat
  {
    match s.low
    case LowPost => s.now + AtLeastOne(p.hold) + 5
    case LowStamp => s.now + AtLeastOne(p.hold) + 4
    case LowHold(t0) => Max(t0 + p.hold, s.now + 2) + 2
    case LowUnlock => s.now + 3
    case LowLock | LowDone => s.now + 1
  }

  lemma InheritedLocksAt(p: Params)
    ensures LocksAt(p, true) == InheritedTick(p, AtRequest(p))
  {
    assert AtRequest(p).now == p.highAt;
    hide AtRequest, LowCourse;
    if LowInside(AtRequest(p)) { UnlockBoosted(p, BlockedState(p)); }
  }

  /** With inheritance, for all parameters: what med still has to do never counts. */
  lemma WaitWithInheritance(p: Params)
    ensures Measures(p, true, p.highAt, InheritedTick(p, After(p, true, p.highAt)))
  {
    WaitExact(p, true);
    RunUp(p, true, p.highAt);
    assert After(p, true, p.highAt) == AtRequest(p);
    hide *;
    InheritedLocksAt(p);
  }

  // ----- the start-up order of the Linux program

  /** Low is about to hold the mutex, or the hold is not over yet. */
  predicate AsksDuringHold(p: Params, s: State)
  {
    s.low.LowPost? || s.low.LowStamp? || (s.low.LowHold? && s.now < s.low.t0 + p.hold)
  }

  /** Low locks first, med starts next, and high asks while low holds. */
  predicate LinuxScenario(p: Params)
  {
    !p.announce && p.lowAt < p.medAt < p.highAt && AsksDuringHold(p, After(p, false, p.highAt))
  }

  /** The tick in which med sees that its time is up; high runs in two ticks when it asks. */
  function MedEnds(p: Params): nat
  {
    var e := p.medAt + AtLeastOne(p.med);
    if e < p.highAt then e else Max(e, p.highAt + 2)
  }

  /** Low's first clock reading: before med starts, or else after med is done. */
  function LowReads(p: Params): nat
  {
    if p.medAt >= p.lowAt + 2 then p.lowAt + 1
    else if MedEnds(p) + 1 == p.highAt then p.highAt + 2
    else MedEnds(p) + 1
  }

  /** The tick in which low sees that its time is up. */
  function LowEnds(p: Params): nat
  {
    Max(LowReads(p) + AtLeastOne(p.hold), Max(p.highAt + 2, MedEnds(p) + 1))
  }

  lemma LinuxRequest(p: Params)
    requires LinuxScenario(p)
    ensures AtRequest(p).low == (if LowReads(p) < p.highAt then LowHold(LowReads(p)) else LowStamp)
    ensures LowReads(p) < p.highAt ==> p.highAt < LowReads(p) + p.hold
    ensures AtRequest(p).med == if MedEnds(p) < p.highAt then MedDone else MedBusy(p.medAt)
  {
    RunUp(p, false, p.highAt);
    hide After;
  }

  /** Low still has to read the clock, and med is done or has started. */
  lemma UnlockFromStamp(p: Params, s: State)
    requires s.low.LowStamp? && !s.med.MedStamp?
    ensures LowCourse(p, false, s).unlock ==
      (if s.med.MedDone? then s.now else MedTo(p, s) + 1) + AtLeastOne(p.hold) + 1
  {
  }

  lemma UnlockFromHold(p: Params, s: State)
    requires s.low.LowHold? && !s.med.MedStamp?
    ensures LowCourse(p, false, s).unlock ==
      Max(Max(s.low.t0 + p.hold, s.now), if s.med.MedDone? then 0 else MedTo(p, s) + 1) + 1
  {
  }

  lemma LinuxLocksAt(p: Params)
    requires LinuxScenario(p)
    ensures LocksAt(p, false) == LowEnds(p) + 2
  {
    LinuxRequest(p);
    assert p.lowAt < p.medAt < p.highAt && AtRequest(p).now == p.highAt;
    hide AtRequest, LinuxScenario, LowCourse;
    if LowReads(p) < p.highAt { UnlockFromHold(p, BlockedState(p)); } else { UnlockFromStamp(p, BlockedState(p)); }
  }

  /** When both the hold and med's busy time are over, had nothing delayed low's first clock reading. */
  function Overlapped(p: Params): nat
  {
    Max(p.lowAt + 1 + p.hold, p.medAt + p.med)
  }

  lemma LowEndsBounds(p: Params)
    requires p.lowAt < p.medAt < p.highAt && (LowReads(p) < p.highAt ==> p.highAt < LowReads(p) + p.hold)
    ensures p.medAt >= p.lowAt + 2 ==> Overlapped(p) <= LowEnds(p) <= Overlapped(p) + 2
    ensures p.medAt == p.lowAt + 1 ==> LowEnds(p) >= p.medAt + p.med + p.hold + 1
  {
  }

  /**
   Without inheritance: the exact tick. Where med started after low's first clock
   reading, the hold and med's busy time overlap, up to four ticks.
   */
  lemma WaitWithoutInheritance(p: Params)
    requires LinuxScenario(p)
    ensures Measures(p, false, p.highAt, LowEnds(p) + 2)
    ensures p.medAt >= p.lowAt + 2 ==> Overlapped(p) + 2 <= LowEnds(p) + 2 <= Overlapped(p) + 4
    ensures p.medAt == p.lowAt + 1 ==> LowEnds(p) >= p.medAt + p.med + p.hold + 1
  {
    WaitExact(p, false);
    LinuxRequest(p);
    assert p.lowAt < p.medAt < p.highAt;
    hide *;
    LinuxLocksAt(p);
    LowEndsBounds(p);
  }

  /** The lock comes two to four ticks after the later of the two ends. */
  ghost predicate LocksWhenBothEnd(p: Params)
  {
    forall n: nat :: AcquiresAt(p, false, n) ==> Overlapped(p) + 2 <= n <= Overlapped(p) + 4
  }

  /** Med starts between low's lock and its first clock reading, and is still busy when high asks. */
  lemma PreemptedBeforeReading(p: Params)
    requires !p.announce && p.medAt == p.lowAt + 1 < p.highAt < p.medAt + p.med
    ensures LinuxScenario(p)
  {
    RunUp(p, false, p.highAt);
    hide After;
  }

  /**
   That bound holds for all durations exactly when med starts after low's first clock
   reading. If med starts between the lock and the reading, the two times add up.
   */
  lemma OverlapIffReadBeforeMed(lowAt: nat, medAt: nat, highAt: nat)
    requires lowAt < medAt < highAt
    ensures medAt >= lowAt + 2 <==>
      forall hold, med ::
        var p := Params(hold, med, lowAt, medAt, highAt, false);
        LinuxScenario(p) ==> LocksWhenBothEnd(p)
  {
    if medAt >= lowAt + 2 {
      forall hold, med | LinuxScenario(Params(hold, med, lowAt, medAt, highAt, false))
        ensures LocksWhenBothEnd(Params(hold, med, lowAt, medAt, highAt, false))
      {
        var p := Params(hold, med, lowAt, medAt, highAt, false);
        WaitWithoutInheritance(p);
        forall n: nat | AcquiresAt(p, false, n)
          ensures n == LowEnds(p) + 2
        {
          AcquiresOnce(p, false, n, LowEnds(p) + 2);
        }
      }
    } else {
      var long := highAt - lowAt + 10;
      var p := Params(long, long, lowAt, medAt, highAt, false);
      PreemptedBeforeReading(p);
      WaitWithoutInheritance(p);
      assert !LocksWhenBothEnd(p);
    }
  }

  /** The tick in which a boosted low sees that its time is up. */
  function BoostedEnds(p: Params): nat
  {
    if LowReads(p) < p.highAt then Max(LowReads(p) + p.hold, p.highAt + 2) else p.highAt + 2 + AtLeastOne(p.hold)
  }

  lemma LinuxInheritedLocksAt(p: Params)
    requires LinuxScenario(p)
    ensures LocksAt(p, true) == BoostedEnds(p) + 2
  {
    LinuxRequest(p);
    assert AtRequest(p).now == p.highAt;
    hide AtRequest, LinuxScenario, LocksAt, LowReads;
    InheritedLocksAt(p);
  }

  /** High gains whenever med's time outlasts the hold. */
  lemma BoostedEndsEarlier(p: Params)
    requires p.lowAt < p.medAt < p.highAt && (LowReads(p) < p.highAt ==> p.highAt < LowReads(p) + p.hold)
    ensures BoostedEnds(p) < LowEnds(p) <==>
      MedEnds(p) >= p.highAt + 2 && (LowReads(p) < p.highAt ==> MedEnds(p) >= LowReads(p) + p.hold)
  {
  }

  /**
   The same scenario with inheritance: what med still has to do no longer counts, and
   high gains exactly when that would have outlasted the hold.
   */
  lemma InheritanceRemovesMed(p: Params)
    requires LinuxScenario(p)
    ensures Measures(p, true, p.highAt, BoostedEnds(p) + 2)
    ensures LocksAt(p, true) < LocksAt(p, false) <==>
      MedEnds(p) >= p.highAt + 2 && (LowReads(p) < p.highAt ==> MedEnds(p) >= LowReads(p) + p.hold)
  {
    WaitExact(p, true);
    LinuxRequest(p);
    assert p.lowAt < p.medAt < p.highAt;
    hide *;
    LinuxLocksAt(p);
    LinuxInheritedLocksAt(p);
    BoostedEndsEarlier(p);
  }

  // ----- the start-up order of the QNX program

  /** Low locks and announces it, high asks from the next tick on while low holds, and med starts later still. */
  predicate QnxScenario(p: Params)
  {
    p.announce && p.lowAt + 2 <= p.highAt <= p.medAt && AsksDuringHold(p, After(p, true, p.highAt))
  }

  lemma QnxRequest(p: Params)
    requires QnxScenario(p)
    ensures After(p, true, p.highAt).now == p.highAt
    ensures After(p, true, p.highAt).low == if p.highAt == p.lowAt + 2 then LowStamp else LowHold(p.lowAt + 2)
  {
    RunUp(p, true, p.highAt);
    hide After;
  }

  /** The exact wait: med's time never counts, and the hold counts from low's clock reading, which high may precede. */
  lemma QnxWait(p: Params)
    requires QnxScenario(p)
    ensures Measures(p, true, p.highAt,
      if p.highAt == p.lowAt + 2 then p.highAt + AtLeastOne(p.hold) + 4
      else Max(p.lowAt + 2 + p.hold, p.highAt + 2) + 2)
  {
    QnxRequest(p);
    hide After, Measures;
    WaitWithInheritance(p);
  }

  // ----- when inversion is unbounded

  /** When med starts, low is inside its critical section and high has not had the mutex. */
  predicate Inverted(s: State)
  {
    LowInside(s) && !Acquired(s)
  }

  lemma MedNotReady(p: Params, med: nat, inherit: bool, s: State)
    requires s.now < p.medAt && s.med.MedStamp?
    ensures Tick(p.(med := med), inherit, s) == Tick(p, inherit, s) && Tick(p, inherit, s).med.MedStamp?
  {
  }

  /** Before med starts, its duration does not matter. */
  lemma {:induction false} MedNotStarted(p: Params, med: nat, inherit: bool, n: nat)
    requires n <= p.medAt
    ensures After(p.(med := med), inherit, n) == After(p, inherit, n) && After(p, inherit, n).med.MedStamp?
  {
    hide Tick, Inv;
    if n > 0 {
      MedNotStarted(p, med, inherit, n - 1);
      AfterInv(p, inherit, n - 1);
      MedNotReady(p, med, inherit, After(p, inherit, n - 1));
    }
  }

  /** Med has not seen its time pass. */
  predicate MedBusyYet(p: Params, s: State)
  {
    !s.med.MedDone? && (s.med.MedBusy? ==> s.med.t0 >= p.medAt)
  }

  lemma InvertedTick(p: Params, s: State)
    requires Inv(p, s) && Inverted(s) && MedBusyYet(p, s) && p.medAt <= s.now < p.medAt + p.med
    ensures Inverted(Tick(p, false, s)) && MedBusyYet(p, Tick(p, false, s))
  {
  }

  /** Low was inside when med started: it stays inside, and high outside, for as long as med is busy. */
  lemma {:induction false} StaysInverted(p: Params, n: nat)
    requires Inverted(After(p, false, p.medAt)) && p.medAt <= n <= p.medAt + p.med
    ensures Inverted(After(p, false, n)) && MedBusyYet(p, After(p, false, n))
  {
    hide Tick, Inv;
    if n == p.medAt {
      MedNotStarted(p, p.med, false, n);
    } else {
      StaysInverted(p, n - 1);
      AfterInv(p, false, n - 1);
      hide MedBusyYet, Inverted;
      InvertedTick(p, After(p, false, n - 1));
    }
  }

  /** A med that has nothing to do in low's course changes nothing. */
  lemma MedOutOfTheWay(p: Params, s: State)
    requires LowInside(s)
    requires s.med.MedDone? || (s.med.MedStamp? && LowCourse(p, false, s).unlock < MedFrom(p, s))
    ensures LowCourse(p, true, s) == LowCourse(p, false, s)
  {
  }

  /** Med started before low had locked, so low locked only after med was done. */
  lemma MedFirst(p: Params)
    requires p.medAt < p.highAt && !LowInside(Coasts(p, false, Init(), p.medAt)) && LowInside(AtRequest(p))
    ensures AtRequest(p).med.MedDone?
  {
  }

  lemma MedStillToStart(p: Params)
    requires p.highAt < p.medAt
    ensures AtRequest(p).med.MedStamp?
  {
    RunUp(p, false, p.highAt);
    hide Coasts;
    MedNotStarted(p, p.med, false, p.highAt);
  }

  lemma InvertedByRequest(p: Params)
    requires LowInside(AtRequest(p))
    ensures Inverted(After(p, false, p.highAt + 1)) && Inverted(After(p, false, p.highAt + 2))
  {
    Request(p, false);
    hide AtRequest, After, Measures;
  }

  lemma BlockedIsInverted(p: Params, inherit: bool, n: nat)
    requires var s := After(p, inherit, n); s.owner.ByLow? && s.high.HighBlocked?
    ensures Inverted(After(p, inherit, n))
  {
    AfterInv(p, inherit, n);
    hide After;
  }

  /** Med started after high had asked, and then only after low had unlocked. */
  lemma MedLate(p: Params)
    requires p.medAt > p.highAt && LowInside(AtRequest(p)) && !Inverted(After(p, false, p.medAt))
    ensures AtRequest(p).med.MedStamp? && LowCourse(p, false, BlockedState(p)).unlock < p.medAt
  {
    MedStillToStart(p);
    InvertedByRequest(p);
    hide AtRequest, LowCourse, After, Inverted;
    assert p.medAt > p.highAt + 2;
    if p.medAt < LocksAt(p, false) {
      BlockedRun(p, false, p.medAt);
      StillBlocked(p, false, p.medAt);
      BlockedIsInverted(p, false, p.medAt);
    }
  }

  /** Unless low is inside when med starts, the protocols do not differ. */
  lemma SameUnlessInverted(p: Params)
    requires !Inverted(After(p, false, p.medAt))
    ensures LocksAt(p, false) == LocksAt(p, true)
  {
    if LowInside(AtRequest(p)) {
      if p.medAt <= p.highAt {
        RunUp(p, false, p.medAt);
        MedFirst(p);
      } else {
        MedLate(p);
      }
      MedOutOfTheWay(p, BlockedState(p));
    }
    hide AtRequest, LowCourse;
  }

  /** For med's every duration high has had the mutex by tick `n`. */
  ghost predicate AcquiredBy(p: Params, n: nat)
  {
    forall med: nat :: Acquired(After(p.(med := med), false, n))
  }

  lemma NoBoundWhenInverted(p: Params, n: nat)
    requires Inverted(After(p, false, p.medAt))
    ensures !AcquiredBy(p, n)
  {
    var q := p.(med := n);
    MedNotStarted(p, n, false, p.medAt);
    hide After;
    StaysInverted(q, p.medAt + n);
    if Acquired(After(q, false, n)) { AcquiredForever(q, false, n, p.medAt + n); }
  }

  lemma BoundUnlessInverted(p: Params, med: nat)
    requires !Inverted(After(p, false, p.medAt))
    ensures Acquired(After(p.(med := med), false, p.highAt + AtLeastOne(p.hold) + 6))
  {
    hide After, Inverted, LocksAt, Acquired;
    var q := p.(med := med);
    MedNotStarted(p, med, false, p.medAt);
    SameUnlessInverted(q);
    WaitExact(q, false);
    LocksWithin(q, true);
    AcquiredForever(q, false, LocksAt(q, false) + 1, p.highAt + AtLeastOne(p.hold) + 6);
  }

  /**
   Without inheritance no wait bounds the inversion for all busy times of med exactly
   when low is inside its critical section, and high still waits or is yet to ask, when
   med starts.
   */
  lemma UnboundedInversion(p: Params)
    ensures Inverted(After(p, false, p.medAt)) <==> forall n: nat :: !AcquiredBy(p, n)
  {
    hide Inverted, After;
    if Inverted(After(p, false, p.medAt)) {
      forall n: nat
        ensures !AcquiredBy(p, n)
      {
        NoBoundWhenInverted(p, n);
      }
    } else {
      forall med: nat
        ensures Acquired(After(p.(med := med), false, p.highAt + AtLeastOne(p.hold) + 6))
      {
        BoundUnlessInverted(p, med);
      }
      assert AcquiredBy(p, p.highAt + AtLeastOne(p.hold) + 6);
    }
  }

  lemma AfterNext(p: Params, inherit: bool, n: nat)
    ensures After(p, inherit, 0) == Init()
    ensures After(p, inherit, n + 1) == Tick(p, inherit, After(p, inherit, n)) && After(p, inherit, n + 1).now == n + 1
  {
    AfterInv(p, inherit, n + 1);
  }

  lemma AcquiresThen(p: Params, inherit: bool, n: nat)
    requires n == LocksAt(p, inherit)
    ensures AcquiresAt(p, inherit, n) && !Acquired(After(p, inherit, n)) && Acquired(After(p, inherit, n + 1))
  {
    WaitExact(p, inherit);
  }

  /** The processor and the three tasks, updated in place. */
  class Processor {
    const p: Params
    const inherit: bool
    var now: nat
    var low: Low
    var med: Med
    var high: High
    var owner: Owner

    function View(): State
      reads this
    {
      State(now, low, med, high, owner)
    }

    constructor (p: Params, inherit: bool)
      ensures this.p == p && this.inherit == inherit && View() == Init()
    {
      this.p, this.inherit := p, inherit;
      now, low, med, high, owner := 0, LowLock, MedStamp, HighStamp, Free;
    }

    method LowTask()
      modifies this`low, this`owner
      ensures View() == LowStep(p, old(View()))
    {
      match low {
        case LowLock => owner, low := ByLow, if p.announce then LowPost else LowStamp;
        case LowPost => low := LowStamp;
        case LowStamp => low := LowHold(now);
        case LowHold(t0) => if now - t0 >= p.hold { low := LowUnlock; }
        case LowUnlock => owner, low := Free, LowDone;
        case LowDone =>
      }
    }

    method MedTask()
      modifies this`med
      ensures View() == MedStep(p, old(View()))
    {
      match med {
        case MedStamp => med := MedBusy(now);
        case MedBusy(t0) => if now - t0 >= p.med { med := MedDone; }
        case MedDone =>
      }
    }

    method HighTask()
      modifies this`high, this`owner
      ensures View() == HighStep(old(View()))
    {
      match high {
        case HighStamp => high := HighLock(now);
        case HighLock(t0) => if owner == Free { owner, high := ByHigh, HighLocked(t0); } else { high := HighBlocked(t0); }
        case HighBlocked(t0) => owner, high := ByHigh, HighLocked(t0);
        case HighLocked(t0) => high := HighUnlock(t0, now);
        case HighUnlock(t0, t1) => owner, high := Free, HighDone(t0, t1);
        case HighDone(_, _) =>
      }
    }

    /** One tick: the scheduler runs the ready task of highest effective priority. */
    method Dispatch()
      modifies this
      ensures View() == Tick(p, inherit, old(View()))
    {
      match Pick(p, inherit, View()) {
        case RunHigh => HighTask();
        case RunMed => MedTask();
        case RunLow => LowTask();
        case Idle =>
      }
      now := now + 1;
    }

    /** One run of the benchmark: dispatches tasks until high has the mutex, and reports the tick. */
    method WaitForHigh() returns (locked: nat)
      requires View() == Init()
      modifies this
      ensures locked == LocksAt(p, inherit) && AcquiresAt(p, inherit, locked)
      ensures View() == After(p, inherit, locked + 1)
    {
      ghost var bound := LocksAt(p, inherit);
      hide After, Acquired, AcquiresAt, LocksAt, Tick;
      AcquiresThen(p, inherit, bound);
      AfterNext(p, inherit, 0);
      while !Acquired(View())
        invariant View() == After(p, inherit, now) && now <= bound + 1
        decreases bound + 1 - now
      {
        AfterNext(p, inherit, now);
        Dispatch();
      }
      if now <= bound {
        AcquiredForever(p, inherit, now, bound);
      }
      locked := now - 1;
    }
  }
}
