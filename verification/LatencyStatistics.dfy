/**
 The statistics of the three pub/sub tests: the i-th arrival is subtracted from the
 i-th send, although the broker may have delivered the messages in another order.

 `order[k]` is the message that arrived k-th. When every message arrives once, and
 not before it was sent, the reported average is still the true one and the reported
 extremes stay inside the true range. The last part gives, for arbitrary losses,
 duplicates and reorderings, the exact condition under which each figure is right.
 */
module LatencyStatistics {
  import opened Sums

  ghost predicate Sorted(xs: seq<int>)
  {
    forall i, j :: 0 <= i <= j < |xs| ==> xs[i] <= xs[j]
  }

  ghost predicate Distinct(order: seq<nat>)
  {
    forall i, j :: 0 <= i < j < |order| ==> order[i] != order[j]
  }

  /** Every arrival is one of the messages; some may be lost and others duplicated. */
  ghost predicate NamesMessages(order: seq<nat>)
  {
    forall k :: 0 <= k < |order| ==> order[k] < |order|
  }

  ghost predicate Permutation(order: seq<nat>)
  {
    Distinct(order) && NamesMessages(order)
  }

  /** The code's latencies: matched by position. */
  function IndexMatched(recv: seq<int>, send: seq<int>): seq<int>
    requires |recv| == |send|
  {
    seq(|recv|, k requires 0 <= k < |recv| => recv[k] - send[k])
  }

  /** The send time of each arrival's own message. */
  function SentBy(order: seq<nat>, send: seq<int>): seq<int>
    requires forall k :: 0 <= k < |order| ==> order[k] < |send|
  {
    seq(|order|, k requires 0 <= k < |order| => send[order[k]])
  }

  /** The true latencies: each arrival minus the send of its own message. */
  function TrueLatencies(recv: seq<int>, send: seq<int>, order: seq<nat>): seq<int>
    requires |recv| == |order|
    requires forall k :: 0 <= k < |order| ==> order[k] < |send|
  {
    IndexMatched(recv, SentBy(order, send))
  }

  // ----- pigeonhole

  ghost function Below(n: nat): (s: set<nat>)
    ensures |s| == n
    ensures forall x: nat :: x in s <==> x < n
  {
    if n == 0 then {} else Below(n - 1) + {n - 1}
  }

  lemma {:induction false} DistinctFit(order: seq<nat>, s: set<nat>)
    requires Distinct(order)
    requires forall k :: 0 <= k < |order| ==> order[k] in s
    ensures |order| <= |s|
    decreases |order|
  {
    if order != [] {
      DistinctFit(order[1..], s - {order[0]});
    }
  }

  /** Among the first k + 1 arrivals one is message k or later. */
  lemma LateMessageByThen(order: seq<nat>, k: nat) returns (j: nat)
    requires Permutation(order) && k < |order|
    ensures j <= k && order[j] >= k
  {
    if forall i :: 0 <= i <= k ==> order[i] < k {
      DistinctFit(order[..k + 1], Below(k));
    }
    j :| j <= k && order[j] >= k;
  }

  /** Among the arrivals from the k-th on one is message k or earlier. */
  lemma EarlyMessageFromThen(order: seq<nat>, k: nat) returns (j: nat)
    requires Permutation(order) && k < |order|
    ensures k <= j < |order| && order[j] <= k
  {
    if forall i :: k <= i < |order| ==> order[i] > k {
      var rest := Below(|order|) - Below(k + 1);
      assert Below(k + 1) <= Below(|order|);
      DistinctFit(order[k..], rest);
    }
    j :| k <= j < |order| && order[j] <= k;
  }

  // ----- sums over a permutation

  lemma {:induction false} SumRemove(xs: seq<int>, j: nat)
    requires j < |xs|
    ensures Sum(xs) == xs[j] + Sum(xs[..j] + xs[j + 1..])
    decreases |xs|
  {
    var n := |xs|;
    if j == n - 1 {
      assert xs[..j] + xs[j + 1..] == xs[..n - 1];
    } else {
      SumRemove(xs[..n - 1], j);
      var without := xs[..j] + xs[j + 1..];
      assert without[..n - 2] == xs[..n - 1][..j] + xs[..n - 1][j + 1..];
    }
  }

  lemma LastMessageRemoved(order: seq<nat>, j: nat)
    requires Permutation(order) && j < |order| && order[j] == |order| - 1
    ensures Permutation(order[..j] + order[j + 1..])
  {
    var rest := order[..j] + order[j + 1..];
    assert forall k :: 0 <= k < |rest| ==> rest[k] == order[if k < j then k else k + 1];
  }

  lemma {:induction false} SumOverPermutation(order: seq<nat>, send: seq<int>)
    requires Permutation(order) && |order| == |send|
    ensures Sum(SentBy(order, send)) == Sum(send)
    decreases |send|
  {
    var n := |send|;
    if n > 0 {
      var j := LateMessageByThen(order, n - 1);
      var order' := order[..j] + order[j + 1..];
      var send' := send[..n - 1];
      assert Permutation(order') by { LastMessageRemoved(order, j); }
      SumRemove(SentBy(order, send), j);
      assert SentBy(order, send)[..j] + SentBy(order, send)[j + 1..] == SentBy(order', send');
      SumOverPermutation(order', send');
    }
  }

  lemma {:induction false} SumOfDifferences(recv: seq<int>, send: seq<int>)
    requires |recv| == |send|
    ensures Sum(IndexMatched(recv, send)) == Sum(recv) - Sum(send)
    decreases |recv|
  {
    var n := |recv|;
    if n > 0 {
      SumOfDifferences(recv[..n - 1], send[..n - 1]);
      assert IndexMatched(recv, send)[..n - 1] == IndexMatched(recv[..n - 1], send[..n - 1]);
    }
  }

  // ----- the theorem

  /** What the clock guarantees: both logs in clock order, and no arrival before the send of its own message. */
  ghost predicate ClockTrace(recv: seq<int>, send: seq<int>, order: seq<nat>)
  {
    && |recv| == |send| == |order|
    && Sorted(recv) && Sorted(send)
    && NamesMessages(order)
    && forall k :: 0 <= k < |order| ==> send[order[k]] <= recv[k]
  }

  /** A clock trace with one arrival per message. */
  ghost predicate ExactlyOnce(recv: seq<int>, send: seq<int>, order: seq<nat>)
  {
    ClockTrace(recv, send, order) && Permutation(order)
  }

  /** Every entry of `xs` lies between two entries of `ys`. */
  ghost predicate InsideRange(xs: seq<int>, ys: seq<int>)
  {
    forall k :: 0 <= k < |xs| ==>
      (exists j :: 0 <= j < |ys| && ys[j] <= xs[k]) && (exists j :: 0 <= j < |ys| && xs[k] <= ys[j])
  }

  ghost predicate NonNegative(xs: seq<int>)
  {
    forall k :: 0 <= k < |xs| ==> xs[k] >= 0
  }

  lemma SameTotal(recv: seq<int>, send: seq<int>, order: seq<nat>)
    requires |recv| == |send| == |order| && Permutation(order)
    ensures Sum(IndexMatched(recv, send)) == Sum(TrueLatencies(recv, send, order))
  {
    SumOverPermutation(order, send);
    SumOfDifferences(recv, send);
    SumOfDifferences(recv, SentBy(order, send));
  }

  lemma ReorderingIsHarmless(recv: seq<int>, send: seq<int>, order: seq<nat>)
    requires ExactlyOnce(recv, send, order)
    ensures NonNegative(IndexMatched(recv, send))
    ensures Sum(IndexMatched(recv, send)) == Sum(TrueLatencies(recv, send, order))
    ensures InsideRange(IndexMatched(recv, send), TrueLatencies(recv, send, order))
  {
    SameTotal(recv, send, order);
    var latencies, truth := IndexMatched(recv, send), TrueLatencies(recv, send, order);
    forall k | 0 <= k < |recv|
      ensures latencies[k] >= 0
      ensures exists j :: 0 <= j < |truth| && truth[j] <= latencies[k]
      ensures exists j :: 0 <= j < |truth| && latencies[k] <= truth[j]
    {
      var i := LateMessageByThen(order, k);
      assert 0 <= truth[i] <= latencies[k];
      var j := EarlyMessageFromThen(order, k);
      assert latencies[k] <= truth[j];
    }
  }

  /** The report of one run. */
  datatype Report = Report(total: int, min: int, max: int)

  ghost predicate Reports(r: Report, latencies: seq<int>)
  {
    && r.total == Sum(latencies)
    && (forall k :: 0 <= k < |latencies| ==> r.min <= latencies[k] <= r.max)
    && r.min <= LLONG_MAX && (r.min == LLONG_MAX || r.min in latencies)
    && 0 <= r.max && (r.max == 0 || r.max in latencies)
  }

  /** The statistics loop shared by the three tests. */
  method Statistics(recv: array<int>, send: array<int>) returns (r: Report)
    requires recv.Length == send.Length
    ensures Reports(r, IndexMatched(recv[..], send[..]))
  {
    var total, min, max := 0, LLONG_MAX, 0;
    ghost var latencies := IndexMatched(recv[..], send[..]);
    for i := 0 to recv.Length
      invariant Reports(Report(total, min, max), latencies[..i])
    {
      var d := recv[i] - send[i];
      assert latencies[..i + 1][..i] == latencies[..i] && latencies[..i + 1][i] == d;
      total := total + d;
      if d < min { min := d; }
      if d > max { max := d; }
    }
    assert latencies[..recv.Length] == latencies;
    r := Report(total, min, max);
  }

  /** A report of latencies that are inside the range of `truth` and have its sum describes `truth`. */
  ghost predicate Describes(r: Report, truth: seq<int>)
  {
    && r.total == Sum(truth)
    && (exists j :: 0 <= j < |truth| && truth[j] <= r.min)
    && (exists j :: 0 <= j < |truth| && r.max <= truth[j])
    && 0 <= |truth| * r.min <= r.total <= |truth| * r.max
  }

  lemma ExtremesAttained(latencies: seq<int>, r: Report)
    requires Reports(r, latencies) && latencies != []
    requires NonNegative(latencies) && latencies[0] <= LLONG_MAX
    ensures r.min in latencies && r.max in latencies && 0 <= r.min
  {
    assert r.min <= latencies[0] <= r.max;
  }

  lemma AverageInside(latencies: seq<int>, r: Report)
    requires Reports(r, latencies) && 0 <= r.min
    ensures 0 <= |latencies| * r.min <= r.total <= |latencies| * r.max
  {
    SumBounds(latencies, r.min, r.max);
    Scale(|latencies|, 0, r.min);
  }

  lemma ReportDescribes(latencies: seq<int>, truth: seq<int>, r: Report)
    requires Reports(r, latencies) && |latencies| == |truth| > 0
    requires NonNegative(latencies) && InsideRange(latencies, truth) && Sum(latencies) == Sum(truth)
    requires latencies[0] <= LLONG_MAX
    ensures Describes(r, truth)
  {
    ExtremesAttained(latencies, r);
    var lo :| 0 <= lo < |latencies| && latencies[lo] == r.min;
    var hi :| 0 <= hi < |latencies| && latencies[hi] == r.max;
    assert exists j :: 0 <= j < |truth| && truth[j] <= latencies[lo];
    assert exists j :: 0 <= j < |truth| && latencies[hi] <= truth[j];
    AverageInside(latencies, r);
  }

  /** Whatever the delivery order, the printed figures describe the true latencies. */
  lemma ReportIsTruthful(recv: seq<int>, send: seq<int>, order: seq<nat>, r: Report)
    requires ExactlyOnce(recv, send, order) && recv != []
    requires recv[0] - send[0] <= LLONG_MAX
    requires Reports(r, IndexMatched(recv, send))
    ensures Describes(r, TrueLatencies(recv, send, order))
  {
    ReorderingIsHarmless(recv, send, order);
    ReportDescribes(IndexMatched(recv, send), TrueLatencies(recv, send, order), r);
  }

  lemma PrefixFits(latencies: seq<int>, now: nat, i: nat)
    requires i <= |latencies| && forall k :: 0 <= k < |latencies| ==> 0 <= latencies[k] <= now
    requires |latencies| * now <= LLONG_MAX
    ensures 0 <= Sum(latencies[..i]) <= LLONG_MAX
  {
    SumBounds(latencies[..i], 0, now);
    Scale(now, i, |latencies|);
  }

  /**
   The 64-bit accumulators: on a clock that stays in [0, now], every partial total
   fits a long long as soon as |recv| * now does.
   */
  lemma TotalFits(recv: seq<int>, send: seq<int>, order: seq<nat>, now: nat, i: nat)
    requires ExactlyOnce(recv, send, order) && i <= |recv|
    requires forall k :: 0 <= k < |recv| ==> 0 <= send[k] && recv[k] <= now
    requires |recv| * now <= LLONG_MAX
    ensures 0 <= Sum(IndexMatched(recv, send)[..i]) <= LLONG_MAX
  {
    assert |recv| == |send|;
    assert NonNegative(IndexMatched(recv, send)) by { ReorderingIsHarmless(recv, send, order); }
    hide ExactlyOnce, Sum;
    PrefixFits(IndexMatched(recv, send), now, i);
  }

  // ----- what each figure needs of the delivery

  /** Among the first k + 1 arrivals is message k or a later one. */
  ghost predicate LateMessage(order: seq<nat>, k: nat)
    requires k < |order|
  {
    exists j :: 0 <= j <= k && order[j] >= k
  }

  ghost predicate KeepsUp(order: seq<nat>)
  {
    forall k :: 0 <= k < |order| ==> LateMessage(order, k)
  }

  ghost predicate InOrder(order: seq<nat>)
  {
    forall k :: 0 <= k < |order| ==> order[k] == k
  }

  /** The same value before an index, and another from it on. */
  function Step(n: nat, from: nat, low: int, high: int): (xs: seq<int>)
    ensures |xs| == n && forall i :: 0 <= i < n ==> xs[i] == if i < from then low else high
  {
    seq(n, i => if i < from then low else high)
  }

  /**
   No latency is negative on any clock trace exactly when the deliveries keep up.
   Exactly-once delivery does, and so does losing messages to duplicates of later ones.
   */
  lemma NonNegativeIffKeepsUp(order: seq<nat>)
    requires NamesMessages(order)
    ensures KeepsUp(order) <==>
      forall recv, send :: ClockTrace(recv, send, order) ==> NonNegative(IndexMatched(recv, send))
    ensures Permutation(order) ==> KeepsUp(order)
  {
    if KeepsUp(order) {
      forall recv, send, k | ClockTrace(recv, send, order) && 0 <= k < |order|
        ensures IndexMatched(recv, send)[k] >= 0
      {
        assert LateMessage(order, k);
        var j :| 0 <= j <= k && order[j] >= k;
        assert send[k] <= send[order[j]] <= recv[j] <= recv[k];
      }
    } else {
      var k :| 0 <= k < |order| && !LateMessage(order, k);
      var recv, send := Step(|order|, k + 1, 5, 10), Step(|order|, k, 0, 10);
      assert ClockTrace(recv, send, order) && IndexMatched(recv, send)[k] == -5;
    }
    if Permutation(order) {
      forall k | 0 <= k < |order|
        ensures LateMessage(order, k)
      {
        var j := LateMessageByThen(order, k);
      }
    }
  }

  lemma {:induction false} ReportExists(latencies: seq<int>) returns (r: Report)
    ensures Reports(r, latencies)
    decreases |latencies|
  {
    r := Report(0, LLONG_MAX, 0);
    if latencies != [] {
      var last := latencies[|latencies| - 1];
      var before := ReportExists(latencies[..|latencies| - 1]);
      r := Report(before.total + last,
                  if last < before.min then last else before.min,
                  if last > before.max then last else before.max);
    }
  }

  /** On some clock trace the test reports `r`, and would report `t` for the true latencies. */
  ghost predicate Compared(order: seq<nat>, r: Report, t: Report)
  {
    exists recv, send :: ClockTrace(recv, send, order)
      && Reports(r, IndexMatched(recv, send)) && Reports(t, TrueLatencies(recv, send, order))
  }

  lemma Compare(recv: seq<int>, send: seq<int>, order: seq<nat>) returns (r: Report, t: Report)
    requires ClockTrace(recv, send, order)
    ensures Reports(r, IndexMatched(recv, send)) && Reports(t, TrueLatencies(recv, send, order))
    ensures Compared(order, r, t)
  {
    r := ReportExists(IndexMatched(recv, send));
    t := ReportExists(TrueLatencies(recv, send, order));
  }

  lemma ReportUnique(latencies: seq<int>, r: Report, t: Report)
    requires Reports(r, latencies) && Reports(t, latencies)
    ensures r == t
  {
  }

  lemma InOrderIsExact(order: seq<nat>)
    requires NamesMessages(order) && InOrder(order)
    ensures forall r, t :: Compared(order, r, t) ==> r == t
  {
    forall r, t | Compared(order, r, t)
      ensures r == t
    {
      var recv, send :| ClockTrace(recv, send, order)
        && Reports(r, IndexMatched(recv, send)) && Reports(t, TrueLatencies(recv, send, order));
      assert SentBy(order, send) == send;
      ReportUnique(IndexMatched(recv, send), r, t);
    }
  }

  lemma FirstMisplaced(order: seq<nat>) returns (k: nat)
    requires !InOrder(order)
    ensures k < |order| && order[k] != k && forall i :: 0 <= i < k ==> order[i] == i
  {
    k := 0;
    while order[k] == k
      invariant k < |order| && forall i :: 0 <= i < k ==> order[i] == i
      invariant exists i :: k <= i < |order| && order[i] != i
      decreases |order| - k
    {
      k := k + 1;
    }
  }

  ghost predicate AtMost(xs: seq<int>, bound: int) { forall k :: 0 <= k < |xs| ==> xs[k] <= bound }

  ghost predicate AtLeast(xs: seq<int>, bound: int) { forall k :: 0 <= k < |xs| ==> xs[k] >= bound }

  lemma MaxDiffers(recv: seq<int>, send: seq<int>, order: seq<nat>, bound: nat)
    requires ClockTrace(recv, send, order)
    requires AtMost(IndexMatched(recv, send), bound) != AtMost(TrueLatencies(recv, send, order), bound)
    ensures exists r, t :: Compared(order, r, t) && r.max != t.max
  {
    var r, t := Compare(recv, send, order);
    hide ClockTrace;
    assert r.max <= bound <==> AtMost(IndexMatched(recv, send), bound);
    assert t.max <= bound <==> AtMost(TrueLatencies(recv, send, order), bound);
  }

  lemma MinDiffers(recv: seq<int>, send: seq<int>, order: seq<nat>, bound: int)
    requires ClockTrace(recv, send, order) && bound <= LLONG_MAX
    requires AtLeast(IndexMatched(recv, send), bound) != AtLeast(TrueLatencies(recv, send, order), bound)
    ensures exists r, t :: Compared(order, r, t) && r.min != t.min
  {
    var r, t := Compare(recv, send, order);
    hide ClockTrace;
    assert r.min >= bound <==> AtLeast(IndexMatched(recv, send), bound);
    assert t.min >= bound <==> AtLeast(TrueLatencies(recv, send, order), bound);
  }

  /** Message `j`, which is due at `k` or before, arrives later: its latency is underestimated. */
  lemma ArrivesLate(order: seq<nat>, k: nat, j: nat)
    requires NamesMessages(order) && k < j < |order| && order[j] <= k < order[k]
    ensures exists r, t :: Compared(order, r, t) && r.max != t.max
  {
    var recv, send := Step(|order|, j, 10, 20), Step(|order|, k + 1, 0, 10);
    assert AtMost(IndexMatched(recv, send), 10) && TrueLatencies(recv, send, order)[j] == 20;
    MaxDiffers(recv, send, order, 10);
  }

  /** Neither message `k` nor an earlier one arrives from `k` on: a latency is overestimated. */
  lemma NeverArrives(order: seq<nat>, k: nat)
    requires NamesMessages(order) && k < |order| && k < order[k]
    requires forall i :: 0 <= i < k ==> order[i] == i
    requires forall i :: k <= i < |order| ==> order[i] > k
    ensures exists r, t :: Compared(order, r, t) && r.max != t.max
  {
    var recv, send := Step(|order|, k, 0, 10), Step(|order|, k + 1, 0, 10);
    assert IndexMatched(recv, send)[k] == 10 && AtMost(TrueLatencies(recv, send, order), 0);
    MaxDiffers(recv, send, order, 0);
  }

  /** An earlier message arrives again in place of message `k`. */
  lemma EarlierInPlace(order: seq<nat>, k: nat)
    requires NamesMessages(order) && k < |order| && order[k] < k
    ensures exists r, t :: Compared(order, r, t) && r.max != t.max
  {
    var recv, send := Step(|order|, k, 10, 20), Step(|order|, k, 0, 10);
    assert AtMost(IndexMatched(recv, send), 10) && TrueLatencies(recv, send, order)[k] == 20;
    MaxDiffers(recv, send, order, 10);
  }

  /** The reported maximum is the true one on every clock trace exactly when the messages arrive in order. */
  lemma MaxExactIffInOrder(order: seq<nat>)
    requires NamesMessages(order)
    ensures InOrder(order) <==> forall r, t :: Compared(order, r, t) ==> r.max == t.max
  {
    if InOrder(order) {
      InOrderIsExact(order);
    } else {
      var k := FirstMisplaced(order);
      if order[k] < k {
        EarlierInPlace(order, k);
      } else if j :| k < j < |order| && order[j] <= k {
        ArrivesLate(order, k, j);
      } else {
        NeverArrives(order, k);
      }
    }
  }

  lemma LaterInPlace(order: seq<nat>, k: nat)
    requires NamesMessages(order) && k < |order| && order[k] > k
    ensures exists r, t :: Compared(order, r, t) && r.min != t.min
  {
    var recv, send := Step(|order|, k + 1, 10, 20), Step(|order|, k + 1, 0, 10);
    assert AtLeast(IndexMatched(recv, send), 10) && TrueLatencies(recv, send, order)[k] == 0;
    MinDiffers(recv, send, order, 10);
  }

  lemma SentTooEarly(order: seq<nat>, k: nat)
    requires NamesMessages(order) && k < |order| && order[k] < k
    requires forall i :: 0 <= i < k ==> order[i] == i
    ensures exists r, t :: Compared(order, r, t) && r.min != t.min
  {
    var recv, send := Step(|order|, k + 1, 10, 20), Step(|order|, k, 0, 10);
    assert IndexMatched(recv, send)[k] == 0 && AtLeast(TrueLatencies(recv, send, order), 10);
    MinDiffers(recv, send, order, 10);
  }

  /** The same for the reported minimum. */
  lemma MinExactIffInOrder(order: seq<nat>)
    requires NamesMessages(order)
    ensures InOrder(order) <==> forall r, t :: Compared(order, r, t) ==> r.min == t.min
  {
    if InOrder(order) {
      InOrderIsExact(order);
    } else {
      var k := FirstMisplaced(order);
      if order[k] > k { LaterInPlace(order, k); } else { SentTooEarly(order, k); }
    }
  }

  /** On the trace whose send log steps up at `v`, equal totals mean equal sums of send times. */
  lemma SentByMatches(order: seq<nat>, v: nat)
    requires NamesMessages(order) && forall r, t :: Compared(order, r, t) ==> r.total == t.total
    ensures Sum(SentBy(order, Step(|order|, v, 0, 1))) == Sum(Step(|order|, v, 0, 1))
  {
    var recv, send := Step(|order|, 0, 1, 1), Step(|order|, v, 0, 1);
    var r, t := Compare(recv, send, order);
    SumOfDifferences(recv, send);
    SumOfDifferences(recv, SentBy(order, send));
  }

  lemma OncePerStep(n: nat, v: nat)
    requires v < n
    ensures Sum(Step(n, v, 0, 1)) == Sum(Step(n, v + 1, 0, 1)) + 1
  {
    var up, later := Step(n, v, 0, 1), Step(n, v + 1, 0, 1);
    SumOfDifferences(up, later);
    var only := IndexMatched(up, later);
    SumRemove(only, v);
    SumBounds(only[..v] + only[v + 1..], 0, 0);
  }

  lemma TwoOnes(xs: seq<int>, a: nat, b: nat)
    requires a < b < |xs| && xs[a] == xs[b] == 1
    requires forall k :: 0 <= k < |xs| ==> 0 <= xs[k] <= 1
    ensures Sum(xs) >= 2
  {
    SumRemove(xs, b);
    var one := xs[..b] + xs[b + 1..];
    assert one[a] == 1;
    SumRemove(one, a);
    SumBounds(one[..a] + one[a + 1..], 0, 1);
  }

  lemma TwiceInStep(order: seq<nat>, v: nat, a: nat, b: nat)
    requires NamesMessages(order) && a < b < |order| && order[a] == order[b] == v
    ensures Sum(SentBy(order, Step(|order|, v, 0, 1))) >= Sum(SentBy(order, Step(|order|, v + 1, 0, 1))) + 2
  {
    var up, later := SentBy(order, Step(|order|, v, 0, 1)), SentBy(order, Step(|order|, v + 1, 0, 1));
    SumOfDifferences(up, later);
    var both := IndexMatched(up, later);
    assert both[a] == both[b] == 1 && forall k :: 0 <= k < |both| ==> 0 <= both[k] <= 1;
    TwoOnes(both, a, b);
  }

  lemma DuplicateShows(order: seq<nat>, a: nat, b: nat)
    requires NamesMessages(order) && a < b < |order| && order[a] == order[b]
    ensures exists r, t :: Compared(order, r, t) && r.total != t.total
  {
    hide Compared, SentBy, Sum;
    if forall r, t :: Compared(order, r, t) ==> r.total == t.total {
      var v := order[a];
      SentByMatches(order, v);
      SentByMatches(order, v + 1);
      OncePerStep(|order|, v);
      TwiceInStep(order, v, a, b);
      assert false;
    }
  }

  /**
   The reported total, and with it the average, is the true one on every clock trace
   exactly when every message arrives once.
   */
  lemma TotalExactIffExactlyOnce(order: seq<nat>)
    requires NamesMessages(order)
    ensures Permutation(order) <==> forall r, t :: Compared(order, r, t) ==> r.total == t.total
  {
    if Permutation(order) {
      forall r, t | Compared(order, r, t)
        ensures r.total == t.total
      {
        var recv, send :| ClockTrace(recv, send, order)
          && Reports(r, IndexMatched(recv, send)) && Reports(t, TrueLatencies(recv, send, order));
        SameTotal(recv, send, order);
      }
    } else {
      var a, b :| 0 <= a < b < |order| && order[a] == order[b];
      DuplicateShows(order, a, b);
    }
  }
}
