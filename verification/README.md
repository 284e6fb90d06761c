# Verification of the benchmark programs

The repository measures operating systems with small C programs. The kernel, the
message broker and the clock are outside them, but the programs themselves are
concurrent protocols and exact time computations, and their figures mean something only
if those are right. This project models the programs in Dafny and proves what the
figures rest on. The constants of the programs (iterations, messages, processes,
periods, hold times) are parameters throughout.

| module | programs | subject |
|---|---|---|
| `PingPong` | thread_ctx_switch.c | two threads, one mutex, two condition variables, `turn` |
| `Recorder`, `LatencyStatistics` | burst_pubsub_test.c, qos_sweep_test.c, cpu_load_pubsub_test.c | the lock-free arrival log, its one completion signal, and statistics that match arrivals to sends by index |
| `PriorityInversion` | linux_priority_inversion.c, qnx_priority_inversion.c | three tasks on one processor in discrete time, with and without priority inheritance |
| `QnxHandshake` | qnx_priority_inversion.c | the semaphore-paced start-up, over all interleavings |
| `EchoChannels` | ipc_mq_latency.c, process_ctx_switch.c | echo over two queues, or two pipes |
| `SharedQueue` | ipc_latency.c | echo over one queue that both sides read |
| `PipeCollection`, `Decimal` | process_fairness.c, ipc_pipe_latency.c, sleep_wake_process.c | results printed into pipes by forked children |
| `Deadlines` | max_latency_scheduling.c, measure_jitter.c, deterministic_latency.c, sleep_wake_process.c | periodic deadlines in struct timespec |
| `PortReport` | network_and_security.c | the listening-port reports |
| `FileMeta` | file_meta.c | create, rename and delete loops |
| `Transitions`, `Alternation`, `Sums`, `Options` | | runs of labelled transition systems, the abstract request/response machine, and sums of sequences |

Each concurrent program is a state, a set of moves (one operation of one thread, or an
act of its environment) and a next-state function; its theorems quantify over all
schedules. Beside it a class keeps the program's variables and updates them in place:
each step method is proved to make the move the specification prescribes, and the run
method executes the program under an arbitrary scheduler and is proved to end in the
right state. Sequential loops are methods proved against specification functions.

Assumptions:

- Memory is sequentially consistent; `recv_count` is not atomic in the source.
- Waits release the mutex and sleep atomically and may wake spuriously, as in
  `pthread_cond_wait` of POSIX.1-2017.
- The client library runs `on_message` on one thread, and `mosquitto_loop_stop` waits
  until that thread is outside the callback. Where a theorem says so, the broker
  delivers every message once, in any order and at any time after it was published.
- The clocks do not go back.
- A sleep or timer succeeds, system calls do not fail, and file operations succeed when
  their preconditions hold.
- The intended priorities are in effect. qnx_priority_inversion.c sets them in its
  attributes but never asks for explicit scheduling.

What the proofs say about the programs themselves:

- ipc_latency.c does not enforce a round trip: parent and child read the same queue, so
  the parent may receive its own message, and then the printed figure is no round trip
  through the child. A completed run is one exactly for the lockstep schedule
  (`SharedQueue.AlternatesIffLockstep`).
- The three pub/sub tests match arrivals to sends by index. Under reordering their
  average is still exact and their extremes stay inside the true range. For arbitrary
  losses, duplicates and reorderings, each figure is right on every clock trace under an
  exact condition: the total if and only if every message arrives once, the minimum and
  the maximum each if and only if the messages arrive in order; and no latency is negative
  if and only if the deliveries keep up with the index (`TotalExactIffExactlyOnce`,
  `MinExactIffInOrder`, `MaxExactIffInOrder`, `NonNegativeIffKeepsUp`).
- The waiter of those tests may leave its loop before the last arrival time is stored, or
  even read; stopping the callback thread is what makes the arrays safe to read.
- The Linux inversion is unbounded in the medium task's time exactly when that task starts
  while low is inside its critical section and high has not had the mutex; in all other
  cases inheritance makes no difference (`UnboundedInversion`, `SameUnlessInverted`). If
  the medium task starts before low has read its clock, hold and busy time add up instead
  of overlapping.
- The fairness sum is right exactly while it fits 64 bits; beyond that the average of
  printable counters can fall below their minimum.
- The repository's README calls ipc_latency.c a pipe benchmark and ipc_pipe_latency.c a
  pipe round trip; the code is a message queue, and one-way result pipes. The model
  follows the code.

## Model

| member | source | states |
|---|---|---|
| PingPong.NoLostWakeup | src/scheduling/threads/thread_ctx_switch.c:16-28 | in every reachable state, spurious wakeups and either start order included, no thread sleeps on a condition that already favours it unless its signal is still to come; the program comes to rest exactly when both threads have finished |
| PingPong.StrictAlternation | src/scheduling/threads/thread_ctx_switch.c:17-61 | `turn` is 1 exactly while one ping is unanswered, pings and pongs never differ by more than one, no ping overwrites another, the mutex excludes, and a finished program has made exactly `iterations` of each |
| PingPong.SpuriousWakeup | src/scheduling/threads/thread_ctx_switch.c:16-28 | a parked thread may wake spuriously at any time; it then takes the mutex, tests `turn` again, and is parked as before if the condition does not favour it |
| PingPong.RunsAreShort | src/scheduling/threads/thread_ctx_switch.c:17-61 | every run with k spurious wakeups has at most 16 * iterations + 3 + 3k moves |
| PingPong.RefinesAlternation | src/scheduling/threads/thread_ctx_switch.c:51-61 | every run shows a trace of the alternation machine, and a completed one shows all 3 * iterations events |
| PingPong.RankStep | src/scheduling/threads/thread_ctx_switch.c:17-61 | every ordinary move lowers the termination measure, a spurious wakeup raises it by at most 2 |
| PingPong.Program.RunMain | src/scheduling/threads/thread_ctx_switch.c:51-65 | the ping side of `main`, one mutex, condition or `turn` operation at a time |
| PingPong.Program.RunPong | src/scheduling/threads/thread_ctx_switch.c:17-26 | the same for `pong_thread` |
| PingPong.Program.OneMove | src/scheduling/threads/thread_ctx_switch.c:17-61 | one move of any scheduler keeps the invariant and lowers the measure |
| PingPong.Program.RunToCompletion | src/scheduling/threads/thread_ctx_switch.c:49-65 | under any scheduler and any finite number of spurious wakeups the program reaches the join with both counts at `iterations`, `turn` 0 and the mutex free |
| Alternation.AcceptsIffAlternating | src/scheduling/threads/thread_ctx_switch.c:51-61 | a trace is accepted by the request/response machine if and only if it is Send, Echo, Accept in turn with an unchanged payload, at most `rounds` times |
| Alternation.RefinementOnRuns | src/ipc/ipc_mq_latency.c:95-150 | a step-wise refinement mapping carries over to the trace of every run, and the trace length is the abstract progress |
| Recorder.SignalNeverLost | src/mosquitto/burst_pubsub_test.c:38-47 | although the counter is incremented outside the mutex, the waiter never sleeps after the one completion signal is spent; with all messages counted a thread can move, and before that only a delivery can be missing |
| Recorder.SlotsWrittenOnce | src/mosquitto/qos_sweep_test.c:38-47 | in every run, repeated runs included, no index reaches COUNT, no slot is written twice, and at the end each slot was written once |
| Recorder.RestartIsInitial | src/mosquitto/qos_sweep_test.c:81-86 | resetting `recv_count` alone puts a finished recorder back into an initial state: the stale arrays do not matter |
| Recorder.CountCanRunAheadOfTheLog | src/mosquitto/burst_pubsub_test.c:39-40 | the waiter can see the full count and leave its loop before the last arrival time is stored, and even before its clock is read, because C does not order the increment: only the join in loop_stop makes the arrays safe to read |
| Recorder.LogCompleteIff | src/mosquitto/burst_pubsub_test.c:39-40 | in every reachable state with the full count, all slots are written if and only if the callback has no store left in the recording statement |
| Recorder.EnvironmentIsFree | src/mosquitto/burst_pubsub_test.c:38-47 | in any state any time may pass, the parked waiter may wake, and any published message may be delivered (not twice where delivery is once) |
| Recorder.SpuriousWakeup | src/mosquitto/burst_pubsub_test.c:128-134 | a spuriously woken waiter takes the mutex, tests the counter again, and waits on as before while a message is missing |
| Recorder.LogsGrow | src/mosquitto/burst_pubsub_test.c:40 | in every run without a restart the send log grows by exactly the clock readings of the stamps, the arrival log by those of the callback, and the history by the deliveries |
| Recorder.ClockAdvances | src/mosquitto/burst_pubsub_test.c:32-36 | the clock shows the time that has passed |
| Recorder.ArraysAreReadings | src/mosquitto/burst_pubsub_test.c:123-140 | at the end of a run both arrays are the clock readings of the run, in order, whatever the interleaving |
| Recorder.EveryReportIsTruthful | src/mosquitto/burst_pubsub_test.c:123-144 | in every run with each message delivered once, a report computed from the arrays describes the true latencies, for every message the clock when the callback asked for the time less the clock when the message was stamped, and its total is the sum of the former less the sum of the latter |
| Recorder.LastRunIsWhole | src/mosquitto/qos_sweep_test.c:81-120 | a finished test that has been restarted is at the end of a whole run, so the same holds of it |
| Recorder.RankMove | src/mosquitto/burst_pubsub_test.c:123-134 | with each message delivered once, every move of a run other than a tick or a spurious wakeup brings its end closer |
| Recorder.RunsAreShort | src/mosquitto/burst_pubsub_test.c:123-134 | a run has at most 10 * COUNT + 9 moves and four more for each tick or spurious wakeup |
| Recorder.Program.RunMain | src/mosquitto/burst_pubsub_test.c:123-134 | stamp, publish, wait and stop, on the shared arrays |
| Recorder.Program.RunCallback | src/mosquitto/burst_pubsub_test.c:38-47 | the callback, its clock reading included, apart from the store and the increment |
| Recorder.Program.StoreArrivalTime | src/mosquitto/burst_pubsub_test.c:40 | the array store of the recording statement, always in range |
| Recorder.Program.RunTest | src/mosquitto/cpu_load_pubsub_test.c:120-143 | a whole test under any scheduler and delivery order ends, with the moves it made, and its report describes the true latencies of that run |
| LatencyStatistics.ReorderingIsHarmless | src/mosquitto/burst_pubsub_test.c:138-144 | for every delivery order the latencies matched by index are non-negative, have the true sum, and lie inside the range of the true latencies |
| LatencyStatistics.LateMessageByThen | src/mosquitto/burst_pubsub_test.c:139-140 | pigeonhole: among the first k + 1 arrivals one is message k or later |
| LatencyStatistics.EarlyMessageFromThen | src/mosquitto/burst_pubsub_test.c:139-140 | pigeonhole: among the arrivals from the k-th on one is message k or earlier |
| LatencyStatistics.SumOverPermutation | src/mosquitto/burst_pubsub_test.c:141 | the send times add up to the same sum in the order of arrival |
| LatencyStatistics.Statistics | src/mosquitto/burst_pubsub_test.c:138-144 | the statistics loop computes the exact sum, a minimum and a maximum of the index-matched latencies |
| LatencyStatistics.ReportIsTruthful | src/mosquitto/burst_pubsub_test.c:146-149 | the reported total is the true one, the minimum is not below the true minimum, the maximum not above the true maximum, and the average lies between them |
| LatencyStatistics.TotalFits | src/mosquitto/burst_pubsub_test.c:138-141 | every partial total fits a long long when COUNT times the clock reading does |
| LatencyStatistics.NonNegativeIffKeepsUp | src/mosquitto/burst_pubsub_test.c:139-140 | for any order with lost and duplicate messages: no latency is negative on any clock trace if and only if, for every k, message k or a later one is among the first k + 1 arrivals; exactly-once delivery implies it |
| LatencyStatistics.TotalExactIffExactlyOnce | src/mosquitto/burst_pubsub_test.c:141 | the reported total is the true one on every clock trace if and only if every message arrives once |
| LatencyStatistics.MaxExactIffInOrder | src/mosquitto/burst_pubsub_test.c:143 | the reported maximum is the true one on every clock trace if and only if the messages arrive in order |
| LatencyStatistics.MinExactIffInOrder | src/mosquitto/burst_pubsub_test.c:142 | the reported minimum is the true one on every clock trace if and only if the messages arrive in order |
| PriorityInversion.WaitExact | src/scheduling/priority/linux_priority_inversion.c:39-73 | for all durations, all release times and both protocols, the tick in which high locks the mutex is LocksAt, computed without running the scheduler, and the wait high reports matches it |
| PriorityInversion.MutexGivenBack | src/scheduling/priority/linux_priority_inversion.c:63-71 | for all parameters and both protocols, high ends with the two clock readings it reports and gives the mutex back two ticks after it locked it |
| PriorityInversion.RunUp | src/scheduling/priority/linux_priority_inversion.c:39-58 | the complete state of the three tasks and the mutex in every tick until high asks, for all parameters |
| PriorityInversion.BlockedRun | src/scheduling/priority/linux_priority_inversion.c:62-68 | the complete state in every tick while high is blocked, for all parameters and both protocols |
| PriorityInversion.WaitWithoutInheritance | src/scheduling/priority/linux_priority_inversion.c:39-73 | in the Linux start-up order, the exact tick; it is two to four ticks after the later of the end of the hold and the end of the medium task if the latter starts after low reads the clock, and at least the sum of the two times if it starts before |
| PriorityInversion.OverlapIffReadBeforeMed | src/scheduling/priority/linux_priority_inversion.c:41-56 | that two-to-four-tick bound holds for all durations if and only if the medium task starts after low's first clock reading |
| PriorityInversion.WaitWithInheritance | src/scheduling/priority/qnx_priority_inversion.c:40-75 | with inheritance, for all parameters, the exact tick depends only on where low is when high asks and on the hold |
| PriorityInversion.InheritanceNeverHurts | src/scheduling/priority/qnx_priority_inversion.c:27-28 | for all durations and release times of all tasks, high has the mutex no later with inheritance than without |
| PriorityInversion.BoundedInversion | src/scheduling/priority/qnx_priority_inversion.c:27-28 | high always gets the mutex: for all parameters, within Max(hold, 1) + 6 ticks of its request with inheritance, and within Max(hold, 1) + Max(med, 1) + 7 without |
| PriorityInversion.UnboundedInversion | src/scheduling/priority/linux_priority_inversion.c:13-14 | without inheritance no wait bounds the inversion for all busy times of the medium task if and only if, when that task starts, low is inside its critical section and high has not had the mutex |
| PriorityInversion.SameUnlessInverted | src/scheduling/priority/qnx_priority_inversion.c:27-28 | in every other case the two protocols give high the mutex in the same tick |
| PriorityInversion.InheritanceRemovesMed | src/scheduling/priority/linux_priority_inversion.c:98-132 | the Linux start-up order with an inheriting mutex: the exact tick, in which the time the medium task still needs does not count, and that high gains if and only if that time outlasts the hold |
| PriorityInversion.QnxWait | src/scheduling/priority/qnx_priority_inversion.c:114-121 | in the QNX start-up order, also when high asks before low's clock reading, the exact tick; the medium task never counts, for any duration and any later start |
| PriorityInversion.MutualExclusion | src/scheduling/priority/linux_priority_inversion.c:41-46 | low and high never hold the mutex together, at any tick, under either protocol |
| PriorityInversion.Processor.LowTask | src/scheduling/priority/linux_priority_inversion.c:41-46 | one step of low: lock, stamp, hold while the wall clock has not advanced enough, unlock |
| PriorityInversion.Processor.MedTask | src/scheduling/priority/linux_priority_inversion.c:53-56 | one step of the medium task |
| PriorityInversion.Processor.HighTask | src/scheduling/priority/linux_priority_inversion.c:62-72 | one step of high: stamp, lock or block, stamp again, unlock |
| PriorityInversion.Processor.Dispatch | src/scheduling/priority/linux_priority_inversion.c:121-137 | one tick of the processor: the ready task of highest effective priority makes its step |
| PriorityInversion.Processor.WaitForHigh | src/scheduling/priority/linux_priority_inversion.c:121-137 | for all parameters and both protocols, dispatching ends, and it ends in the tick LocksAt, the one in which high locks the mutex |
| QnxHandshake.OrderKept | src/scheduling/priority/qnx_priority_inversion.c:114-123 | over all interleavings: mutual exclusion, low has locked before high exists, the medium task exists only after high announced itself, high locks only after low unlocked, main returns only after high unlocked and reported |
| QnxHandshake.ProgramOrder | src/scheduling/priority/qnx_priority_inversion.c:42-123 | in every run main, low and high go through their programs in order and skip nothing, and in a run that returns they have gone through all of them |
| QnxHandshake.NeverStuck | src/scheduling/priority/qnx_priority_inversion.c:114-123 | until main returns, main, low or high can move, and the process is at rest exactly when main has returned |
| QnxHandshake.RunsAreShort | src/scheduling/priority/qnx_priority_inversion.c:40-75 | every run has at most 19 moves |
| QnxHandshake.Program.Run | src/scheduling/priority/qnx_priority_inversion.c:40-121 | one operation of one thread on the mutex, the semaphores or the threads |
| QnxHandshake.Program.RunToReturn | src/scheduling/priority/qnx_priority_inversion.c:114-123 | under any scheduler main returns, with low and high finished and the mutex free |
| EchoChannels.Lockstep | src/scheduling/process/process_ctx_switch.c:31-71 | at most one message in flight, no full channel, no child that has left before the parent is done, no broken pipe or early end of file, no deadlock, and when the parent is done both channels are empty, everything is echoed and the child can exit |
| EchoChannels.RefinesAlternation | src/ipc/ipc_mq_latency.c:95-150 | for every channel kind, capacity and N: the k-th receive of the parent returns the k-th echo of its k-th send with the payload unchanged, and a completed run makes all the rounds |
| EchoChannels.RunsAreShort | src/ipc/ipc_mq_latency.c:95-150 | every run has at most 4N + 1 moves |
| EchoChannels.Program.RunParent | src/ipc/ipc_mq_latency.c:136-150 | the send or receive of the parent |
| EchoChannels.Program.RunChild | src/scheduling/process/process_ctx_switch.c:36-46 | the receive, send or exit of the child |
| EchoChannels.Program.RunToCompletion | src/scheduling/process/process_ctx_switch.c:62-71 | under any scheduler the parent completes its rounds with its message intact and both channels empty |
| SharedQueue.OneToken | src/ipc/ipc_latency.c:98-155 | whoever takes whose message, exactly one copy exists, so the ten-slot queue never blocks a sender, every message is the five bytes of "ping", and the program rests exactly when the parent has finished |
| SharedQueue.RunsAreShort | src/ipc/ipc_latency.c:98-155 | parent and child together make at most 4N queue operations |
| SharedQueue.ChildCanBeBypassed | src/ipc/ipc_latency.c:141-150 | from every round boundary the parent can finish alone, receiving what it sent |
| SharedQueue.AlternatesIffLockstep | src/ipc/ipc_latency.c:98-150 | a completed run alternates requests and answers if and only if its schedule is the lockstep one |
| SharedQueue.DoesNotRefineAlternation | src/ipc/ipc_latency.c:141-150 | for every positive N a run exists in which the parent finishes and no message passed through the child |
| SharedQueue.PingMessage | src/ipc/ipc_latency.c:139-143 | strlen + 1 of a buffer that starts with "ping" and its terminator is that five-byte message |
| SharedQueue.MessageMeaning | src/ipc/ipc_latency.c:103 | for every buffer, a send queues it up to and with its first zero byte |
| SharedQueue.ReceivedMeaning | src/ipc/ipc_latency.c:99 | a receive overwrites the front of the buffer and nothing else |
| SharedQueue.Program.SendMessage | src/ipc/ipc_latency.c:103 | the strlen loop and the append |
| SharedQueue.Program.Run | src/ipc/ipc_latency.c:98-150 | one send or receive of either process |
| SharedQueue.Program.RunToCompletion | src/ipc/ipc_latency.c:141-155 | under any scheduler the parent completes its rounds and still holds its message |
| PipeCollection.EarlierPipesStayOpen | src/scheduling/process/process_fairness.c:20-66 | a child that has not closed its end keeps the write ends of its own and all earlier pipes open |
| PipeCollection.EndsHeld | src/scheduling/process/process_fairness.c:20-66 | exactly which write ends every process holds, in every state |
| PipeCollection.ReadsFindTheirText | src/scheduling/process/process_fairness.c:70-91 | when the parent reads, every child has been waited for, no write end is open anywhere, every pipe holds exactly its child's text, so no read blocks; and no child is ever blocked in its write |
| PipeCollection.EverythingCollected | src/scheduling/process/sleep_wake_process.c:155-218 | for any number of writing and silent children the results are the texts in order, every pipe is read empty, every child was forked and waited for, and the program rests exactly when that is done |
| PipeCollection.RunsAreShort | src/scheduling/process/process_fairness.c:20-91 | a bound on the length of every run |
| PipeCollection.CountersCollected | src/scheduling/process/process_fairness.c:58-91 | each count is exactly its child's final counter, in every interleaving |
| PipeCollection.RecordsCollected | src/scheduling/process/sleep_wake_process.c:73-213 | each parsed record is exactly what its process printed, in every interleaving |
| PipeCollection.EveryFinalCounter | src/scheduling/process/process_fairness.c:41-54 | the positive multiples of 1000000 that fit the counter are exactly the values a child can print |
| PipeCollection.CountUntil | src/ipc/ipc_pipe_latency.c:80-91 | the final counter is the positive multiple of 1000000 at the first check that finds the time over |
| PipeCollection.CounterStatistics | src/scheduling/process/process_fairness.c:94-101 | minimum and maximum are exact, the sum is exact modulo 2^64 |
| PipeCollection.AverageBetweenExtremes | src/scheduling/process/process_fairness.c:94-102 | the sum is exact if and only if the true sum fits 64 bits, and then the average lies between minimum and maximum |
| PipeCollection.AverageFallsIffWraps | src/scheduling/process/process_fairness.c:94-102 | if the counters exceed their minimum by less than 2^64 in all, the average falls below the minimum if and only if the sum wraps |
| PipeCollection.WrappedAverage | src/scheduling/process/process_fairness.c:101-102 | two counters that children can print have a sum that wraps, and an average below the minimum |
| PipeCollection.FairnessReport | src/scheduling/process/process_fairness.c:40-102 | from the children's clocks to the figures, in every interleaving: the parsed counts are the final counters, minimum and maximum are multiples of 1000000 that children stopped at, and while the sum fits it is exact and the average lies between them |
| PipeCollection.Program.Fairness | src/scheduling/process/process_fairness.c:40-102 | the whole run in place, collection, parsing and statistics, ends with those figures |
| PipeCollection.Program.RunParent | src/scheduling/process/process_fairness.c:20-91 | pipe and fork, close, wait, read |
| PipeCollection.Program.RunChild | src/scheduling/process/sleep_wake_process.c:73-81 | write, close, exit |
| PipeCollection.Program.Collect | src/ipc/ipc_pipe_latency.c:40-119 | under any scheduler the collection ends with the texts of the children |
| Decimal.ScanMeaning | src/scheduling/process/sleep_wake_process.c:206 | scanning any text succeeds if and only if it starts with white space, an optional sign and digits, and yields their positional value and the rest |
| Decimal.AtoIMeaning | src/network_and_security/network_and_security.c:195 | atoi of any text: the number it starts with, or 0 |
| Decimal.StrToULLMeaning | src/scheduling/process/process_fairness.c:86 | strtoull of any text with a number: its value, saturated, and modulo 2^64 after a minus sign |
| Decimal.DigitsMeaning | src/scheduling/process/process_fairness.c:60 | the digits of a printed number have its positional value, without leading zeros |
| Decimal.PrintMeaning | src/scheduling/process/sleep_wake_process.c:75-76 | a printed number is a minus sign if negative, and digits with its absolute value |
| Decimal.ScanRecordMeaning | src/scheduling/process/sleep_wake_process.c:206 | a text yields a record if and only if its first three numbers are the process, the jitter and the iterations, in this order |
| Decimal.ScanPrint | src/scheduling/process/sleep_wake_process.c:75-76 | scanning a printed integer gives it back and leaves the text that followed |
| Decimal.RecordRoundTrip | src/scheduling/process/sleep_wake_process.c:75-206 | printing "%d %ld %ld" and scanning it are inverse, for all values |
| Decimal.RecordLength | src/scheduling/process/sleep_wake_process.c:74-76 | the text of a record has at most 53 characters, so it fits the 128-byte buffers |
| Decimal.CounterRoundTrip | src/scheduling/process/process_fairness.c:60-86 | "%llu" and strtoull are inverse on all of unsigned long long |
| Decimal.CounterLength | src/scheduling/process/process_fairness.c:59-60 | a counter has 1 to 20 digits, so it fits the 64-byte buffers |
| Decimal.PrintInjective | src/file_systems/file_meta.c:38 | different numbers have different decimal texts |
| Deadlines.AdditionsExact | src/scheduling/latency/max_latency_scheduling.c:18-25 | both normalisers add exactly; which sums each one normalises, and that they agree if and only if the nanoseconds stay below two seconds |
| Deadlines.DriftFree | src/scheduling/latency/measure_jitter.c:26-30 | after k advances, by either normaliser, the deadline is the normal timespec that denotes start + k periods |
| Deadlines.CarryNeedsShortPeriods | src/scheduling/latency/measure_jitter.c:27-30 | with the single subtraction every deadline of every start is normal if and only if the period is at most one second; with the division always |
| Deadlines.TimespecAdd | src/scheduling/latency/max_latency_scheduling.c:18-25 | the addition in signed 64-bit arithmetic is exact while the sum fits |
| Deadlines.TimespecDiff | src/scheduling/latency/max_latency_scheduling.c:28-30 | the difference in signed 64-bit arithmetic is exact |
| Deadlines.MaxLatency | src/scheduling/latency/max_latency_scheduling.c:96-111 | the loop, all of whose intermediate values fit a long, returns the largest distance from the drift-free schedule: no wake-up is earlier or later than that, and one is exactly that early or late |
| Deadlines.RtThread | src/scheduling/latency/deterministic_latency.c:37-71 | the loop of rt_thread, in a long as well, returns the same |
| Deadlines.MeasureOnce | src/scheduling/latency/measure_jitter.c:20-44 | so does the loop with one subtraction and unsigned 64-bit differences |
| Deadlines.SameReport | src/scheduling/latency/measure_jitter.c:20-44 | the three programs report the same figure for the same clock trace |
| Deadlines.LargestUnique | src/scheduling/latency/max_latency_scheduling.c:104-108 | a trace has only one largest deviation |
| Deadlines.SignedDifferencesFit | src/scheduling/latency/max_latency_scheduling.c:28-30 | below 2^63 ns the signed differences and their intermediate products fit 64 bits |
| Deadlines.AverageOfRuns | src/scheduling/latency/measure_jitter.c:95-101 | the printed average is the integer mean and lies between the smallest and the largest run |
| Deadlines.SleepProcess | src/scheduling/process/sleep_wake_process.c:39-71 | the loop stops at the first sample after the test duration, with the number of samples and the sum of their overruns, all in 64 bits; without early wake-ups that sum is the time slept less the time asked for |
| Deadlines.OverrunsMeaning | src/scheduling/process/sleep_wake_process.c:53-57 | a sleep no longer than asked adds nothing, any other exactly its excess |
| Deadlines.TotalOfLateSleeps | src/scheduling/process/sleep_wake_process.c:53-60 | if no sleep was shorter than asked, the total is the time slept less the time asked for |
| Deadlines.ElapsedIsDiff | src/scheduling/process/sleep_wake_process.c:66-68 | comparing the elapsed seconds as a fraction decides as comparing whole nanoseconds does |
| Deadlines.OverrunsFit | src/scheduling/process/sleep_wake_process.c:55-60 | the overruns of any run add up to at most the time that has passed |
| PortReport.ContainsMeaning | src/network_and_security/network_and_security.c:188 | the heading test finds the text if and only if it stands somewhere in the line |
| PortReport.TokenMeaning | src/network_and_security/network_and_security.c:190 | the t-th token of any line is the maximal run without spaces before which t runs start |
| PortReport.PortAfterMeaning | src/network_and_security/network_and_security.c:193-196 | any token yields a port if and only if a number from 1 to 65535 follows its last separator; so it yields none without a separator, without a number or out of range |
| PortReport.UbuntuPortMeaning | src/network_and_security/network_and_security.c:188-202 | in terms of its characters: a line selects a port if and only if it is no heading and its first run with a colon yields that port |
| PortReport.QnxPortMeaning | src/network_and_security/network_and_security.c:258-274 | in terms of its characters: a line selects a port if and only if its fourth run yields it |
| PortReport.ReportMeaning | src/network_and_security/network_and_security.c:184-205 | for all lines, a port is reported if and only if some line selects it |
| PortReport.UbuntuPorts | src/network_and_security/network_and_security.c:184-205 | the loop over lines and tokens reports the first occurrences of the selected ports, in order |
| PortReport.QnxPorts | src/network_and_security/network_and_security.c:254-277 | the same for the fourth token of each line |
| PortReport.Field | src/network_and_security/network_and_security.c:256-261 | the loop to the n-th token of a line finds it, or that there is none |
| PortReport.FirstSeenMeaning | src/network_and_security/network_and_security.c:196-198 | a report has no duplicates, holds exactly the selected ports, and lists them in the order in which lines first mention them |
| PortReport.PortsInRange | src/network_and_security/network_and_security.c:196 | every reported port is between 1 and 65535 |
| PortReport.UbuntuLine | src/network_and_security/network_and_security.c:188-202 | a line whose first token with a colon is host:port selects exactly that port, for every host, also one with colons, and every layout |
| PortReport.QnxLine | src/network_and_security/network_and_security.c:258-274 | a line whose fourth field is host.port selects exactly that port |
| PortReport.StrTok | src/network_and_security/network_and_security.c:190 | the next maximal run without spaces |
| PortReport.ReadPort | src/network_and_security/network_and_security.c:193-196 | the number after the last separator, if it is there and in range |
| FileMeta.NamesDistinct | src/file_systems/file_meta.c:38-55 | different indices give different names, before and after, and no old name is a new one |
| FileMeta.NamesNumbered | src/file_systems/file_meta.c:38-55 | after its literal prefix each name scans as its index, followed by the suffix |
| FileMeta.PathsFit | src/file_systems/file_meta.c:24-55 | no path is cut off by the 256-byte buffers |
| FileMeta.RenameStep | src/file_systems/file_meta.c:52-57 | every rename finds its source and a free target, keeps the number of files and the file behind every name |
| FileMeta.Directory.CreateAll | src/file_systems/file_meta.c:37-45 | the create loop makes exactly N files and opens no existing one |
| FileMeta.Directory.RenameAll | src/file_systems/file_meta.c:52-57 | through the whole rename loop exactly N files exist and none is overwritten |
| FileMeta.Directory.DeleteAll | src/file_systems/file_meta.c:64-67 | the delete loop misses none |
| FileMeta.Directory.Benchmark | src/file_systems/file_meta.c:37-71 | the directory ends empty, ready for rmdir, and no operation overwrote or missed a file |

## Left out

- Recorder.EveryReportIsTruthful: takes exactly-once delivery as given; the broker, libmosquitto and the MQTT quality-of-service levels are not part of this model.
- PriorityInversion.QnxWait: high's request is its first clock reading; the semaphore post before it is modelled in QnxHandshake only.
- PortReport.ReadPort: atoi outside the int range is undefined in C and unbounded here, and a chunk returned by fgets is one line.
- LatencyStatistics.ReportIsTruthful: averages are printed through a double, whose rounding is not modelled.
- Deadlines.MaxLatency: clock values and deadlines are taken to fit signed 64-bit nanoseconds, those of Deadlines.RtThread too.
- Deadlines.MeasureOnce: start, deadlines and readings are taken to fit unsigned 64-bit nanoseconds.
- Deadlines.SleepProcess: the elapsed seconds are exact fractions, without the rounding of a double; clock values fit a long and do not go back.
- PipeCollection.ReadsFindTheirText: the extra read ends that children inherit are not tracked, since the parent keeps every read end open until it has read.
- System call failures, error messages and usage texts, command-line parsing, processor affinity, resource limits and memory locking: plumbing.
- The kernel schedulers: round-robin slices and the sporadic server appear only as parameters. Only fixed-priority preemption is modelled.
- The clock readings inside the ping-pong and echo loops, whose differences become the printed times.
- The load threads and load processes; the final joins of the load threads of ipc_latency.c are not claimed to end.
- Filling the thread attributes of qnx_priority_inversion.c in loops: only easy facts.
- read.c, malloc.c, allocator_throughput.c, memleak.c, fragment.c, thread_fairness.c and sleep_wake_thread.c: straight loops over library calls.
- The download, upload, sudo, login and OpenSSL checks of network_and_security.c and the virtual-machine script: foreign commands.
