/**
 Periodic deadlines on struct timespec: max_latency_scheduling.c, measure_jitter.c and
 deterministic_latency.c advance the same schedule with different normalisation code
 and measure the wake-up deviation with different absolute-difference code; the sleep
 process of sleep_wake_process.c adds up how much its sleeps overrun.

 Sleeps and timers succeed. `readings[i]` is what the clock shows after the i-th sleep.
 */
module Deadlines {
  import opened Sums

  const NSEC_PER_SEC: int := 1_000_000_000
  const PERIOD_NS: int := 1_000_000

  datatype Timespec = Timespec(sec: int, nsec: int)

  predicate Normal(t: Timespec) { 0 <= t.nsec < NSEC_PER_SEC }

  /** The C type: whatever is assigned to a variable of this type is shown to fit 64 bits. */
  type Long = x: int | -LLONG_MAX - 1 <= x <= LLONG_MAX

  /** The instant a timespec denotes. */
  function Ns(t: Timespec): int { t.sec * NSEC_PER_SEC + t.nsec }

  function FromNs(n: int): Timespec { Timespec(n / NSEC_PER_SEC, n % NSEC_PER_SEC) }

  lemma NormalIsUnique(t: Timespec)
    requires Normal(t)
    ensures FromNs(Ns(t)) == t
  {
  }

  /** timespec_add, and the inline code of rt_thread: carry by division. */
  function AddDivMod(t: Timespec, ns: int): Timespec
  {
    var n := t.nsec + ns;
    if n >= NSEC_PER_SEC then Timespec(t.sec + n / NSEC_PER_SEC, n % NSEC_PER_SEC) else Timespec(t.sec, n)
  }

  /** The inline code of measure_once: carry by one subtraction. */
  function AddCarry(t: Timespec, ns: int): Timespec
  {
    var n := t.nsec + ns;
    if n >= NSEC_PER_SEC then Timespec(t.sec + 1, n - NSEC_PER_SEC) else Timespec(t.sec, n)
  }

  /** Both additions are exact; each normalises exactly the sums it was written for, and they agree below two seconds. */
  lemma AdditionsExact(t: Timespec, ns: int)
    requires Normal(t)
    ensures Ns(AddDivMod(t, ns)) == Ns(AddCarry(t, ns)) == Ns(t) + ns
    ensures Normal(AddDivMod(t, ns)) <==> t.nsec + ns >= 0
    ensures Normal(AddCarry(t, ns)) <==> 0 <= t.nsec + ns < 2 * NSEC_PER_SEC
    ensures AddDivMod(t, ns) == AddCarry(t, ns) <==> t.nsec + ns < 2 * NSEC_PER_SEC
  {
  }

  /** The k-th deadline, by either normaliser. */
  function Deadline(carry: bool, start: Timespec, period: int, k: nat): Timespec
  {
    if k == 0 then start
    else
      var t := Deadline(carry, start, period, k - 1);
      if carry then AddCarry(t, period) else AddDivMod(t, period)
  }

  /** No drift: after k advances the deadline is the one timespec that denotes start + k periods. */
  lemma {:induction false} DriftFree(carry: bool, start: Timespec, period: int, k: nat)
    requires Normal(start) && 0 <= period
    requires carry ==> period <= NSEC_PER_SEC
    ensures Deadline(carry, start, period, k) == FromNs(Ns(start) + k * period)
    decreases k
  {
    if k == 0 {
      NormalIsUnique(start);
    } else {
      DriftFree(carry, start, period, k - 1);
      var t := Deadline(carry, start, period, k - 1);
      AdditionsExact(t, period);
      NormalIsUnique(Deadline(carry, start, period, k));
      assert k * period == (k - 1) * period + period;
    }
  }

  /**
   All deadlines of all starts are normal: with the carry by one subtraction exactly for
   periods up to one second, with the division always.
   */
  lemma CarryNeedsShortPeriods(period: nat)
    ensures period <= NSEC_PER_SEC <==>
      forall start, k: nat :: Normal(start) ==> Normal(Deadline(true, start, period, k))
    ensures forall start, k: nat :: Normal(start) ==> Normal(Deadline(false, start, period, k))
  {
    forall start, k: nat, carry | Normal(start) && (carry ==> period <= NSEC_PER_SEC)
      ensures Normal(Deadline(carry, start, period, k))
    {
      DriftFree(carry, start, period, k);
    }
    if period > NSEC_PER_SEC {
      var last := Timespec(0, NSEC_PER_SEC - 1);
      assert Deadline(true, last, period, 0) == last;
      assert Normal(last) && !Normal(Deadline(true, last, period, 1));
    }
  }

  // ----- the latency loops

  /**
   `m` is the largest distance of the first `n` wake-ups from their deadlines, early or
   late, or 0. The k-th deadline is k + 1 periods after the start.
   */
  ghost predicate Largest(m: int, start: Timespec, period: int, readings: seq<Timespec>, n: nat)
    requires n <= |readings|
  {
    && m >= 0
    && (forall k :: 0 <= k < n ==> -m <= Ns(readings[k]) - (Ns(start) + (k + 1) * period) <= m)
    && (m > 0 ==> exists k :: 0 <= k < n && Ns(readings[k]) - (Ns(start) + (k + 1) * period) in {m, -m})
  }

  /** One trace has one largest deviation, so the three loops agree on every trace. */
  lemma LargestUnique(m: int, m': int, start: Timespec, period: int, readings: seq<Timespec>, n: nat)
    requires n <= |readings|
    requires Largest(m, start, period, readings, n) && Largest(m', start, period, readings, n)
    ensures m == m'
  {
  }

  /** `d` is the distance of the k-th wake-up from its deadline. */
  predicate Distance(d: int, start: Timespec, period: int, readings: seq<Timespec>, k: nat)
    requires k < |readings|
  {
    var late := Ns(readings[k]) - (Ns(start) + (k + 1) * period);
    d >= 0 && (d == late || d == -late)
  }

  lemma LargestExtends(m: int, d: int, start: Timespec, period: int, readings: seq<Timespec>, n: nat)
    requires n < |readings| && Largest(m, start, period, readings, n) && Distance(d, start, period, readings, n)
    ensures Largest(if d > m then d else m, start, period, readings, n + 1)
  {
  }

  /** timespec_diff_ns. */
  function DiffNs(end: Timespec, start: Timespec): int
  {
    (end.sec - start.sec) * NSEC_PER_SEC + (end.nsec - start.nsec)
  }

  /** A clock value whose nanoseconds fit a long, as the programs assume of all of them. */
  predicate Fits(t: Timespec) { Normal(t) && 0 <= Ns(t) <= LLONG_MAX }

  /** All clock values of a loop, up to its last deadline, fit a long. */
  ghost predicate FitsLong(start: Timespec, period: int, readings: seq<Timespec>, advances: nat)
  {
    && Fits(start) && 0 <= period && Ns(start) + advances * period <= LLONG_MAX
    && forall k :: 0 <= k < |readings| ==> Fits(readings[k])
  }

  /** The k-th deadline fits, and so does one period more while there are advances left. */
  lemma DeadlineFitsLong(start: Timespec, period: int, readings: seq<Timespec>, advances: nat, k: nat)
    requires FitsLong(start, period, readings, advances) && k <= advances
    ensures var t := Deadline(false, start, period, k);
      && Fits(t) && Ns(t) == Ns(start) + k * period
      && (k < advances ==> Ns(t) + period <= LLONG_MAX)
  {
    var t := Deadline(false, start, period, k);
    assert Ns(t) == Ns(start) + k * period && Normal(t) by { DriftFree(false, start, period, k); }
    hide Deadline, Ns, Normal;
    Scale(period, 0, k);
    Scale(period, k, advances);
    if k < advances {
      Scale(period, k + 1, advances);
      assert (k + 1) * period == k * period + period;
    }
  }

  /** What one round of rt_thread needs to know. */
  lemma RoundFits(start: Timespec, period: int, readings: seq<Timespec>, i: nat)
    requires FitsLong(start, period, readings, |readings|) && i < |readings|
    ensures var t := Deadline(false, start, period, i); Fits(t) && Ns(t) + period <= LLONG_MAX && period >= 0
    ensures Deadline(false, start, period, i + 1) == AddDivMod(Deadline(false, start, period, i), period)
    ensures var t := Deadline(false, start, period, i + 1);
      Fits(t) && Fits(readings[i]) && Ns(t) == Ns(start) + (i + 1) * period
  {
    DeadlineFitsLong(start, period, readings, |readings|, i);
    DeadlineFitsLong(start, period, readings, |readings|, i + 1);
  }

  /** On times below 2^63 ns every intermediate value of the signed differences fits a long. */
  lemma SignedDifferencesFit(a: Timespec, b: Timespec)
    requires Fits(a) && Fits(b)
    ensures -LLONG_MAX <= (a.sec - b.sec) * NSEC_PER_SEC <= LLONG_MAX
    ensures -LLONG_MAX <= DiffNs(a, b) <= LLONG_MAX && DiffNs(a, b) == Ns(a) - Ns(b)
  {
    assert 0 <= a.sec && 0 <= b.sec;
  }

  /** timespec_add, in signed 64-bit arithmetic. */
  method TimespecAdd(t: Timespec, ns: int) returns (sum: Timespec)
    requires Fits(t) && 0 <= ns && Ns(t) + ns <= LLONG_MAX
    ensures sum == AddDivMod(t, ns)
  {
    var sec: Long := t.sec;
    var nsec: Long := t.nsec + ns;
    if nsec >= NSEC_PER_SEC {
      sec, nsec := sec + nsec / NSEC_PER_SEC, nsec % NSEC_PER_SEC;
    }
    sum := Timespec(sec, nsec);
  }

  /** timespec_diff_ns and the inline code of rt_thread, in signed 64-bit arithmetic. */
  method TimespecDiff(end: Timespec, start: Timespec) returns (diff: Long)
    requires Fits(end) && Fits(start)
    ensures diff == Ns(end) - Ns(start) > -LLONG_MAX - 1
  {
    SignedDifferencesFit(end, start);
    var dsec: Long := end.sec - start.sec;
    var scaled: Long := dsec * NSEC_PER_SEC;
    var dnsec: Long := end.nsec - start.nsec;
    diff := scaled + dnsec;
  }

  /** The loop of max_latency_scheduling.c: the first deadline is set before it, the next one at its end. */
  method MaxLatency(start: Timespec, period: int, readings: seq<Timespec>) returns (max: Long)
    requires FitsLong(start, period, readings, |readings| + 1)
    ensures Largest(max, start, period, readings, |readings|)
  {
    DeadlineFitsLong(start, period, readings, |readings| + 1, 0);
    var next := TimespecAdd(start, period);
    max := 0;
    for i := 0 to |readings|
      invariant next == Deadline(false, start, period, i + 1)
      invariant Largest(max, start, period, readings, i)
    {
      DeadlineFitsLong(start, period, readings, |readings| + 1, i + 1);
      var latency := TimespecDiff(readings[i], next);
      if latency < 0 { latency := -latency; }
      LargestExtends(max, latency, start, period, readings, i);
      if latency > max { max := latency; }
      next := TimespecAdd(next, period);
    }
  }

  /** rt_thread: the deadline is advanced at the start of each round. */
  method RtThread(start: Timespec, period: int, readings: seq<Timespec>) returns (max: Long)
    requires FitsLong(start, period, readings, |readings|)
    ensures Largest(max, start, period, readings, |readings|)
  {
    var next := start;
    max := 0;
    for i := 0 to |readings|
      invariant next == Deadline(false, start, period, i)
      invariant Largest(max, start, period, readings, i)
    {
      hide Deadline, FitsLong;
      RoundFits(start, period, readings, i);
      next := TimespecAdd(next, period);
      var diff := TimespecDiff(readings[i], next);
      var latency: Long := if diff < 0 then -diff else diff;
      LargestExtends(max, latency, start, period, readings, i);
      if latency > max { max := latency; }
    }
  }

  const WORD: int := 0x1_0000_0000_0000_0000

  /** ts_ns, in unsigned 64-bit arithmetic. */
  function TsNs(t: Timespec): int { ((t.sec % WORD) * NSEC_PER_SEC + t.nsec) % WORD }

  lemma TsNsExact(t: Timespec)
    requires Normal(t) && 0 <= Ns(t) < WORD
    ensures TsNs(t) == Ns(t)
  {
    assert 0 <= t.sec < WORD;
  }

  /** All instants of a trace fit unsigned 64-bit nanoseconds. */
  ghost predicate FitsWord(start: Timespec, period: int, readings: seq<Timespec>)
  {
    && 0 <= Ns(start) && Ns(start) + |readings| * period < WORD
    && forall k :: 0 <= k < |readings| ==> Normal(readings[k]) && 0 <= Ns(readings[k]) < WORD
  }

  /** The larger minus the smaller, in unsigned 64-bit arithmetic. */
  function UnsignedDiff(a: int, b: int): int { if a > b then (a - b) % WORD else (b - a) % WORD }

  lemma UnsignedDiffExact(a: int, b: int)
    requires 0 <= a < WORD && 0 <= b < WORD
    ensures UnsignedDiff(a, b) >= 0 && (UnsignedDiff(a, b) == a - b || UnsignedDiff(a, b) == b - a)
  {
  }

  lemma DeadlineFits(start: Timespec, period: int, readings: seq<Timespec>, i: nat)
    requires Normal(start) && 0 <= period <= NSEC_PER_SEC && FitsWord(start, period, readings) && i < |readings|
    ensures TsNs(Deadline(true, start, period, i + 1)) == Ns(start) + (i + 1) * period
    ensures 0 <= Ns(start) + (i + 1) * period < WORD
  {
    DriftFree(true, start, period, i + 1);
    var d := Deadline(true, start, period, i + 1);
    Scale(period, i + 1, |readings|);
    Scale(period, 0, i + 1);
    assert Ns(d) == Ns(start) + (i + 1) * period;
    TsNsExact(d);
  }

  lemma UnsignedDeviation(start: Timespec, period: int, readings: seq<Timespec>, i: nat)
    requires Normal(start) && 0 <= period <= NSEC_PER_SEC && FitsWord(start, period, readings) && i < |readings|
    ensures Distance(
      UnsignedDiff(TsNs(readings[i]), TsNs(Deadline(true, start, period, i + 1))), start, period, readings, i)
  {
    DeadlineFits(start, period, readings, i);
    TsNsExact(readings[i]);
    UnsignedDiffExact(Ns(readings[i]), Ns(start) + (i + 1) * period);
  }

  /** measure_once: carry by subtraction, and an unsigned difference taken the right way round. */
  method MeasureOnce(start: Timespec, period: int, readings: seq<Timespec>) returns (max: int)
    requires Normal(start) && 0 <= period <= NSEC_PER_SEC && FitsWord(start, period, readings)
    ensures Largest(max, start, period, readings, |readings|)
  {
    var expected := start;
    max := 0;
    for i := 0 to |readings|
      invariant expected == Deadline(true, start, period, i)
      invariant Largest(max, start, period, readings, i)
    {
      expected := Timespec(expected.sec, expected.nsec + period);
      if expected.nsec >= NSEC_PER_SEC {
        expected := Timespec(expected.sec + 1, expected.nsec - NSEC_PER_SEC);
      }
      var diff := UnsignedDiff(TsNs(readings[i]), TsNs(expected));
      UnsignedDeviation(start, period, readings, i);
      LargestExtends(max, diff, start, period, readings, i);
      if diff > max { max := diff; }
    }
  }

  /** The three programs report the same figure for the same clock trace. */
  method SameReport(start: Timespec, readings: seq<Timespec>) returns (a: Long, b: Long, c: int)
    requires FitsLong(start, PERIOD_NS, readings, |readings| + 1)
    ensures a == b == c && Largest(a, start, PERIOD_NS, readings, |readings|)
  {
    a := MaxLatency(start, PERIOD_NS, readings);
    b := RtThread(start, PERIOD_NS, readings);
    c := MeasureOnce(start, PERIOD_NS, readings);
    LargestUnique(a, b, start, PERIOD_NS, readings, |readings|);
    LargestUnique(a, c, start, PERIOD_NS, readings, |readings|);
  }

  lemma QuotientBetween(sum: int, n: int, lo: int, hi: int)
    requires n > 0 && n * lo <= sum <= n * hi
    ensures lo <= sum / n <= hi
  {
    var q := sum / n;
    assert sum == n * q + sum % n && 0 <= sum % n < n;
    if q < lo {
      Scale(n, q + 1, lo);
    }
    if q > hi {
      Scale(n, hi + 1, q);
    }
  }

  /** The averaging loop of measure_jitter.c, whose sum stays in 64 bits: the average lies between the runs' extremes. */
  method AverageOfRuns(maxima: seq<int>, ghost lo: nat, ghost hi: nat) returns (average: int)
    requires maxima != [] && |maxima| * hi < WORD
    requires forall k :: 0 <= k < |maxima| ==> lo <= maxima[k] <= hi
    ensures average == Sum(maxima) / |maxima| && lo <= average <= hi
  {
    var sum := 0;
    for r := 0 to |maxima|
      invariant sum == Sum(maxima[..r])
    {
      assert maxima[..r + 1][..r] == maxima[..r];
      SumBounds(maxima[..r + 1], lo, hi);
      Scale(hi, r + 1, |maxima|);
      assert r * lo >= 0 && (r + 1) * lo >= 0;
      sum := (sum + maxima[r]) % WORD;
    }
    assert maxima[..|maxima|] == maxima;
    SumBounds(maxima, lo, hi);
    average := sum / |maxima|;
    QuotientBetween(sum, |maxima|, lo, hi);
  }

  // ----- the sleep process

  datatype Sample = Sample(before: Timespec, after: Timespec, now: Timespec)

  /** How much longer than asked the sleep took; an early wake-up counts as exact. */
  function Overrun(s: Sample, interval: int): nat
  {
    var jitter := Ns(s.after) - Ns(s.before) - interval;
    if jitter < 0 then 0 else jitter
  }

  function Overruns(samples: seq<Sample>, interval: int): seq<int>
  {
    seq(|samples|, k requires 0 <= k < |samples| => Overrun(samples[k], interval))
  }

  /** How long each sleep took. */
  ghost function Slept(samples: seq<Sample>): seq<int>
  {
    seq(|samples|, k requires 0 <= k < |samples| => Ns(samples[k].after) - Ns(samples[k].before))
  }

  /** A sleep no longer than asked adds nothing, and any other adds exactly its excess. */
  lemma OverrunsMeaning(samples: seq<Sample>, interval: int, k: nat)
    requires k < |samples|
    ensures Slept(samples)[k] <= interval ==> Overruns(samples, interval)[k] == 0
    ensures Slept(samples)[k] >= interval ==> Overruns(samples, interval)[k] + interval == Slept(samples)[k]
  {
  }

  /** If no sleep was shorter than asked, the total is the time slept less the time asked for. */
  lemma {:induction false} TotalOfLateSleeps(samples: seq<Sample>, interval: int)
    requires forall k :: 0 <= k < |samples| ==> Slept(samples)[k] >= interval
    ensures Sum(Overruns(samples, interval)) == Sum(Slept(samples)) - |samples| * interval
    decreases |samples|
  {
    var n := |samples|;
    if n > 0 {
      var before := samples[..n - 1];
      assert Overruns(samples, interval)[..n - 1] == Overruns(before, interval);
      assert Slept(samples)[..n - 1] == Slept(before);
      assert forall k :: 0 <= k < n - 1 ==> Slept(before)[k] == Slept(samples)[k];
      TotalOfLateSleeps(before, interval);
      assert n * interval == (n - 1) * interval + interval;
    }
  }

  /** The elapsed seconds, as the program computes them but without rounding. */
  function Elapsed(now: Timespec, start: Timespec): real
  {
    (now.sec - start.sec) as real + (now.nsec - start.nsec) as real / 1e9
  }

  lemma ElapsedIsDiff(now: Timespec, start: Timespec, seconds: int)
    ensures Elapsed(now, start) >= seconds as real <==> DiffNs(now, start) >= seconds * NSEC_PER_SEC
  {
    assert Elapsed(now, start) * 1e9 == DiffNs(now, start) as real;
  }

  /** The clock does not go back, and its values fit. */
  ghost predicate ClockOrdered(start: Timespec, samples: seq<Sample>)
  {
    && Fits(start)
    && (forall i :: 0 <= i < |samples| ==>
      && Fits(samples[i].before) && Fits(samples[i].after) && Fits(samples[i].now)
      && Ns(start) <= Ns(samples[i].before) <= Ns(samples[i].after) <= Ns(samples[i].now))
    && (forall i, j :: 0 <= i < j < |samples| ==> Ns(samples[i].now) <= Ns(samples[j].before))
  }

  /** The total of the overruns is at most the time that has passed, so it never leaves 64 bits. */
  lemma {:induction false} OverrunsFit(start: Timespec, samples: seq<Sample>, interval: int)
    requires ClockOrdered(start, samples) && interval >= 0
    ensures 0 <= Sum(Overruns(samples, interval))
    ensures samples != [] ==> Sum(Overruns(samples, interval)) <= Ns(samples[|samples| - 1].now) - Ns(start)
    decreases |samples|
  {
    var n := |samples|;
    if n > 0 {
      var before := samples[..n - 1];
      assert Overruns(samples, interval)[..n - 1] == Overruns(before, interval);
      OverrunsFit(start, before, interval);
      assert n > 1 ==> before[n - 2] == samples[n - 2];
    }
  }

  lemma OneMoreOverrun(start: Timespec, samples: seq<Sample>, interval: int, n: nat)
    requires ClockOrdered(start, samples) && interval >= 0 && n < |samples|
    ensures Sum(Overruns(samples[..n + 1], interval)) ==
      Sum(Overruns(samples[..n], interval)) + Overrun(samples[n], interval)
    ensures 0 <= Sum(Overruns(samples[..n + 1], interval)) <= LLONG_MAX
    ensures var s := samples[n]; Fits(s.before) && Fits(s.after) && Ns(s.before) <= Ns(s.after)
  {
    var overruns := Overruns(samples[..n + 1], interval);
    assert overruns[..n] == Overruns(samples[..n], interval) && overruns[n] == Overrun(samples[n], interval);
    OverrunsFit(start, samples[..n + 1], interval);
  }

  lemma LateSleepsAddUp(samples: seq<Sample>, interval: int)
    ensures (forall k :: 0 <= k < |samples| ==> Ns(samples[k].after) - Ns(samples[k].before) >= interval) ==>
      Sum(Overruns(samples, interval)) == Sum(Slept(samples)) - |samples| * interval
  {
    if forall k :: 0 <= k < |samples| ==> Ns(samples[k].after) - Ns(samples[k].before) >= interval {
      TotalOfLateSleeps(samples, interval);
    }
  }

  /** The test duration is over at the end of the sample. */
  predicate TimeIsUp(s: Sample, start: Timespec, seconds: int)
  {
    Ns(s.now) >= Ns(start) + seconds * NSEC_PER_SEC
  }

  /** One round of sleep_proc_function: the overrun of its sleep, and whether the test goes on. */
  method SleepRound(s: Sample, start: Timespec, interval: Long, seconds: int) returns (jitter: Long, over: bool)
    requires Fits(s.before) && Fits(s.after) && Ns(s.before) <= Ns(s.after) && interval >= 0
    ensures jitter == Overrun(s, interval) && over == TimeIsUp(s, start, seconds)
  {
    var elapsed := TimespecDiff(s.after, s.before);
    jitter := elapsed - interval;
    if jitter < 0 { jitter := 0; }
    ElapsedIsDiff(s.now, start, seconds);
    over := Elapsed(s.now, start) >= seconds as real;
  }

  /** sleep_proc_function: adds up the overruns until `seconds` have passed since `start`. */
  method SleepProcess(start: Timespec, samples: seq<Sample>, interval: Long, seconds: int)
    returns (totalJitter: Long, iterations: nat)
    requires ClockOrdered(start, samples) && interval >= 0
    requires exists i :: 0 <= i < |samples| && TimeIsUp(samples[i], start, seconds)
    ensures 0 < iterations <= |samples| && TimeIsUp(samples[iterations - 1], start, seconds)
    ensures forall i :: 0 <= i < iterations - 1 ==> !TimeIsUp(samples[i], start, seconds)
    ensures totalJitter == Sum(Overruns(samples[..iterations], interval)) >= 0
    ensures (forall k :: 0 <= k < iterations ==> Ns(samples[k].after) - Ns(samples[k].before) >= interval) ==>
      totalJitter == Sum(Slept(samples[..iterations])) - iterations * interval
  {
    ghost var last :| 0 <= last < |samples| && TimeIsUp(samples[last], start, seconds);
    totalJitter, iterations := 0, 0;
    hide TimeIsUp, Overrun;
    while true
      invariant iterations <= last
      invariant forall i :: 0 <= i < iterations ==> !TimeIsUp(samples[i], start, seconds)
      invariant totalJitter == Sum(Overruns(samples[..iterations], interval)) >= 0
      decreases last - iterations
    {
      OneMoreOverrun(start, samples, interval, iterations);
      var jitter, over := SleepRound(samples[iterations], start, interval, seconds);
      totalJitter, iterations := totalJitter + jitter, iterations + 1;
      if over {
        LateSleepsAddUp(samples[..iterations], interval);
        return;
      }
    }
  }
}
