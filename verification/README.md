# SentinelStream: a verified model

SentinelStream takes telemetry from many sensors, puts it in one bounded queue,
and has a pool of workers apply each message to a shared store that tracks, per
sensor, which sequence numbers were dropped, repeated or late. This project
models that core and proves what its counters mean.

`dafny verify dfyconfig.toml` checks everything.

| file | what it holds |
|---|---|
| `protocol.dfy` | 64-bit sequence numbers, messages, verdicts of the payload parsers |
| `tracker.dfy` | the per-sensor sequence tracker as a function of its bookkeeping |
| `tracker_laws.dfy` | conservation, the window in closed form, memory |
| `full_history.dfy` | the tracker without a window, and how exactly the real one stands in for it |
| `store.dfy` | the store as a value; isolation of sensors; staleness over whole runs |
| `state_store.dfy` | the store as mutable objects, each method proved to be the store's operation |
| `pool.dfy` | queue, producers, workers and Stop as a transition system |
| `admission.dfy` | getting into the queue: room, refusal, waiting, giving up |
| `pool_invariants.dfy` | first-in first-out, every message in one place, the store sees the applied ones |
| `accounting.dfy` | no message lost, pipeline conservation |
| `agreement.dfy` | worker counters against sensor counters |
| `overtaking.dfy` | how far N workers can reorder |
| `lossless.dfy` | what that does to the accounting of a lossless stream |
| `shutdown.dfy` | Stop: the closed channel, termination, what may be left behind |
| `observation.dfy` | waiting for an empty queue, reading counters while workers run |
| `workers.dfy` | the worker's code run alone, and its place in the transition system |
| `direct.dfy` | the drained pool against direct handling of the same messages |
| `latency.dfy` | the latency ring buffer and its percentiles |
| `health.dfy` | the stale-sensor monitor |
| `replay.dfy` | recording and replaying JSON Lines files |
| `simulator.dfy` | generators, round robin, when the streams are lossless |
| `fleet.dfy` | the path from simulator to store |
| `rerun.dfy` | recording, then replaying through a pool |

## How the program is rendered

* Objects the program updates in place (`SensorEntry`, `StateStore`, `Worker`,
  `LatencyRecorder`, `EventRecorder`, `Generator`, `Simulator`, `Monitor`) are
  classes. Each method is proved against a function of the old state, and the
  laws are then proved of that function over every run. For the tracker and the
  store these functions are `Tracker.Step`, `Tracker.Prune` and `Store.Apply`.
* The worker pool is a transition system. One action is one atomic step of one
  goroutine: a channel send or receive, one atomic counter add, one critical
  section of the store, one step of `Stop`. A schedule is any sequence of actions
  that are enabled in turn, so a law of every reachable state holds for any number
  of workers and producers and any interleaving. History fields (`sent`, `takers`,
  `applied`, `finished`) are read by no step. `Workers.ScriptIsProcess` ties the
  steps of one worker to its sequential code.
* Sequence numbers, gaps and the per-sensor drop counter are uint64 and their
  arithmetic is written wrapping; that it never wraps is part of
  `TrackerLaws.Conservation`. All other counters are unbounded.
* The clock is an input. Inside one critical section it is read once, under the
  lock, so along a run of store operations it never goes back.

## Where code and documentation differ

* The comment at `internal/state/state.go:12-15` says the window keeps the
  remembered set from growing without limit. The set is pruned only when the
  high-water mark advances, so late arrivals pile up in between:
  `TrackerLaws.FloodIsRemembered` exhibits it for every size, and
  `TrackerLaws.MemoryExact` says exactly how large the set is.
* A number repeated after it has left the window counts as out of order, not as a
  duplicate. `FullHistory.ExactWhenNothingForgotten` gives the exact condition
  under which the counters are right.
* `WaitForQuiescence` looks at the queue only. `internal/processor/processor_test.go:133-141`
  and `cmd/replay/main.go:48-52` read the totals right after it; up to one message a
  worker may still be missing from them, and in a pool of any size all of those may
  (`Observation.QuiescenceTight`). `Observation.QuiescenceBound` says exactly when
  none is.
* `Stop` is called graceful, but workers choose freely between the closed stop
  channel and the queue: messages can be left behind (`Shutdown.StopLosesExample`),
  exactly when one is queued or yet to be sent as `Stop` begins
  (`Shutdown.StopLosesExactly`), and then any end of the queue
  (`Shutdown.StopLeavesExactly`).
* `Enqueue` checks `isRunning` and sends later, so it can meet a closed channel
  (`Shutdown.SendOnClosedExample`); `Shutdown.SendOnClosedExactly` says when.
* Repeating a type in the simulator's configuration, as `-types gps,gps` does
  (`cmd/simulator/main.go:29-42`), gives two sensors one name and so a stream that is
  not lossless (`Simulator.RepeatedTypeExample`); `Simulator.LosslessByTypes` says
  that nothing else does.

## Model

| member | source | states |
|---|---|---|
| TrackerLaws.Conservation | internal/state/state.go:102-129 | after every history: dropped + messages = (last - first) + 1 + duplicates + out-of-order; the mark is the maximum; drops never exceed the distance travelled, so nothing wraps |
| TrackerLaws.GapIsExact | internal/state/state.go:111-118 | a reported gap is the number of sequence numbers jumped over, and the drop counter grows by exactly that |
| TrackerLaws.LastAdvanceIsFirstMaximum | internal/state/state.go:111-116 | the mark last moved at the first arrival of the maximum |
| TrackerLaws.WindowExact | internal/state/state.go:117-147 | the remembered set is exactly the numbers within 64 of the mark plus those that arrived since the mark last moved |
| TrackerLaws.WindowInvariant | internal/state/state.go:55-58 | the mark is remembered, everything remembered was received and is at most the mark, everything received within the window is remembered |
| TrackerLaws.ClassifiedExactly | internal/state/state.go:106-129 | a message is called duplicate iff it repeats a number not forgotten, out of order iff it is any other number below the mark |
| TrackerLaws.WindowIs64 | internal/state/state.go:12-15 | after any history a number received before and at most 64 behind the mark is remembered and is answered as a duplicate |
| TrackerLaws.ForgetsPast64 | internal/state/state.go:137-147 | one left 65 or more behind as the mark moves is forgotten and is answered as out of order |
| TrackerLaws.WindowEdge | internal/state/state.go:12-15 | x after x, x + 64 is a duplicate; after x, x + 65 it is out of order, for every x |
| TrackerLaws.MemoryExact | internal/state/state.go:12-15 | the size of the remembered set is that of the window part, at most 65, plus the distinct late arrivals since the mark last moved; at most 65 right after an advance |
| TrackerLaws.FloodIsRemembered | internal/state/state.go:120-128 | k late arrivals after one message leave k + 1 remembered numbers, for every k |
| FullHistory.FullCounts | internal/state/state.go:41-48 | without a window, the duplicate count is messages minus distinct numbers |
| FullHistory.WindowedRefinesFull | internal/state/state.go:106-147 | windowed and full tracker agree on mark, messages and drops in every run; duplicates fall short, and out-of-order exceeds, by exactly the forgotten repeats |
| FullHistory.SameAnswer | internal/state/state.go:106-129 | one message is answered alike iff it does not repeat a forgotten number |
| FullHistory.ExactWhenNothingForgotten | internal/state/state.go:39-49 | all answers, and both counters, are the full tracker's iff no message repeated a forgotten number |
| FullHistory.WithinWindowForgetsNothing | internal/state/state.go:12-15 | no message lagging more than 64 behind the mark means no forgotten repeat |
| FullHistory.ForgottenRepeatExample | internal/state/state_test.go:141-158 | the history 1, 164, 1 ends with no duplicate counted and one out of order |
| FullHistory.MissingCount | internal/state/state.go:106-129 | the numbers between first and last that never arrived are drops minus out-of-order plus numbers below the first, up to forgotten repeats; exactly that iff there are none |
| FullHistory.OrderIndependence | internal/state/state.go:82-131 | for any two orders of the same messages: same mark, same message count, same drops corrected for lateness up to forgotten repeats; within a spread of 64 the duplicate count too |
| StoreLaws.Isolation | internal/state/state.go:77-132 | a sensor's entry after an interleaved run is that of the run of its own operations and the scans |
| StoreLaws.InterleavingIrrelevant | internal/state/state.go:77-193 | interleavings with the same per-sensor runs leave the same store |
| StoreLaws.TracksReceived | internal/state/state.go:77-132 | the store knows exactly the sensors updated, and each tracker has run on exactly that sensor's messages |
| StoreLaws.NewExactlyOnce | internal/state/state.go:82-98 | a message is answered as a new sensor's iff it is its sensor's first |
| StoreLaws.CountsRecorded | internal/state/state.go:152-171 | a sensor's error and anomaly counts are the records made while it was known |
| StoreLaws.SeenWhen | internal/state/state.go:83-101 | first-seen time and type are those of the first message, last-seen time that of the last |
| StoreLaws.StaleExactlyWhenSilent | internal/state/state.go:177-193 | with a monotone clock and one timeout, right after a scan a sensor is stale iff silent for longer than the timeout |
| StoreLaws.StaleExactlySinceReport | internal/state/state.go:99-101 | in any run a sensor is stale iff a scan has reported it and no message of it was applied since |
| StoreLaws.UpdateBetweenReports | internal/state/state.go:173-176 | between two reports of a sensor there is a message from it |
| StoreLaws.ReportsAtMostMessages | internal/health/monitor.go:65-75 | reports of a sensor never exceed its messages, and are fewer while it is healthy |
| StateStores.SensorEntry.constructor | internal/state/state.go:84-95 | the entry a first message creates |
| StateStores.SensorEntry.PruneRecentSeqs | internal/state/state.go:137-147 | the deleting loop leaves exactly the numbers at most 64 behind the mark, and removes none while the mark is below 64 |
| StateStores.SensorEntry.Receive | internal/state/state.go:99-131 | in-place bookkeeping equals the tracker's step, and nothing else changes |
| StateStores.StateStore.Update | internal/state/state.go:77-132 | in-place update equals the store operation, for new and known sensors, result included |
| StateStores.StateStore.RecordError | internal/state/state.go:152-159 | counts for a known sensor, no-op for an unknown one |
| StateStores.StateStore.RecordAnomaly | internal/state/state.go:164-171 | counts for a known sensor, no-op for an unknown one |
| StateStores.StateStore.CheckStale | internal/state/state.go:177-193 | the scan equals the store operation and lists each newly stale sensor exactly once |
| StateStores.StateStore.Scan | internal/state/state.go:183-191 | the loop marks exactly the sensors due and leaves every other state alone |
| StateStores.ViewShows | internal/state/state.go:23-37 | every field of a sensor's snapshot, in terms of the operations run: first and last message, mark, counts, records, status |
| StateStores.ListsExactlyOnce | internal/state/state.go:173-176 | what "lists" means: the same members, no repetition, the same size |
| StateStores.StateStore.Get | internal/state/state.go:196-205 | the sensor's state iff it has sent a message, each field showing the operations run |
| StateStores.StateStore.List | internal/state/state.go:208-217 | every known sensor's state, each exactly once |
| StateStores.StateStore.Count | internal/state/state.go:220-224 | the number of known sensors |
| PoolInvariants.FifoStep | internal/processor/processor.go:120-132 | every step keeps the queue equal to the unread end of the sends, within capacity |
| PoolInvariants.OnePlaceStep | internal/processor/worker.go:59-95 | every step keeps each taken message either held or applied, each applied one in hand or finished, none twice |
| PoolInvariants.SeesStep | internal/processor/worker.go:94-95 | every step keeps each sensor's tracker equal to the run of its applied messages in order of application |
| PoolInvariants.SensorKnown | internal/processor/worker.go:128-142 | RecordAnomaly and RecordError are never no-ops in the pool |
| PoolInvariants.ReachableSound | internal/processor/processor.go:76-96 | all of this in every reachable state, with the number of workers and the queue size configured, or their defaults 4 and 1000 |
| Admission.RoomExactly | internal/processor/processor.go:120-150 | in every reachable state a send can go through iff fewer jobs are queued than configured, and TryEnqueue can be refused iff exactly that many are |
| Admission.FillsExactly | internal/processor/processor.go:56-76 | from the start, with nothing taken, calls of either kind are let in one after another iff they are at most as many as configured, and are then queued in order and counted |
| Admission.FullBlocks | internal/processor/processor.go:118-132 | with the queue full, until a worker takes something or the stop channel closes, nothing is sent and no waiting Enqueue returns |
| Admission.WaitingCanReturn | internal/processor/processor.go:125-131 | once the stop channel is closed, every waiting Enqueue can return without having sent |
| Admission.ClosedAdmitsNothing | internal/processor/processor.go:110 | after the job channel is closed nothing is sent |
| Admission.CallsAccounted | internal/processor/processor.go:120-150 | in every run each Enqueue past its check has sent, given up or is still at it, each TryEnqueue has sent, was refused or is still at it; the two counters show the refusals and the sends |
| Accounting.NoMessageLost | internal/processor/worker.go:59-95 | each message was sent exactly as often as it is queued, held, applied and in hand, or finished |
| Accounting.PipelineConservation | internal/processor/processor.go:153-194 | sent = counted + about to be counted = queued + skipped nils + counted by workers + at most one uncounted a worker |
| Agreement.UpdateAddsResult | internal/processor/worker.go:94-106 | an update changes the sensor's counts by exactly what its result tells the worker to add |
| Agreement.TwoViewsAgree | internal/processor/processor.go:165-173 | for drops, duplicates, out-of-order, errors and anomalies: sum over workers plus what each owes at its step = sum over sensors; equal when all rest |
| Agreement.VerdictsReachStore | internal/processor/worker.go:128-142 | a sensor's anomaly and error counts are exactly its finished messages of the six parsed types whose payload is out of range, or malformed |
| Agreement.VerdictsReachTotals | internal/processor/worker.go:107-146 | processed over all workers is exactly the finished messages of an unparsed type or with a fine payload; anomalies and errors are the others, plus those about to be recorded |
| Overtaking.OvertakingBound | internal/processor/processor.go:84-93 | a message is applied ahead of at most N - 1 messages sent before it |
| Overtaking.OvertakingTight | internal/processor/processor.go:84-93 | in a pool of any number N of workers the last of N messages can be applied ahead of all the others |
| Overtaking.OneWorkerInOrder | internal/processor/processor.go:240-258 | with one worker the applied messages are an initial part of those sent, and with an empty queue all but at most the last |
| Lossless.LosslessAlways | internal/state/state.go:77-132 | on a lossless stream in every reachable state: no duplicate; first applied at most N - 1 late; drops minus out-of-order plus late start = messages overtaken and unapplied, at most N - 1 |
| Lossless.LosslessTight | internal/state/state.go:77-132 | in a pool of any number N of workers a lossless stream can be first heard of N - 1 late, with N - 1 numbers overtaken |
| Lossless.LosslessGap | internal/state/state.go:112-115 | every gap reported on a lossless stream is at most N - 1 |
| Lossless.LosslessComplete | internal/processor/worker.go:94-106 | once all are applied: mark and count exact, no duplicate, out-of-order = drops + late start |
| Lossless.LosslessOneWorker | internal/processor/worker.go:59-95 | with one worker: never a drop, duplicate or out-of-order, at any moment |
| Shutdown.SendOnClosedExactly | internal/processor/processor.go:99-132 | a run can meet a send on the closed channel iff a producer was past its check and before its send when the channel was closed |
| Shutdown.SendOnClosedExample | internal/processor/processor.go:99-132 | it happens in a pool of any size |
| Shutdown.OrderlyStop | internal/processor/processor.go:99-116 | producers returned before Stop: nothing sent from then on, no send on a closed channel |
| Shutdown.NoEarlyExit | internal/processor/worker.go:59-77 | before the stop channel is closed no worker has exited |
| Shutdown.RemainingFalls | internal/processor/worker.go:59-147 | every worker step uses up the measure; only a send adds to it |
| Shutdown.StopTerminates | internal/processor/processor.go:112-113 | after an orderly stop begins the workers take at most that many steps |
| Shutdown.StopProgresses | internal/processor/worker.go:59-77 | once stopped, a worker that has not exited can take a step |
| Shutdown.StoppedAccounts | internal/processor/processor.go:99-116 | when all have exited: everything taken is applied, finished and counted once, the rest of what was sent is the queue, both views agree |
| Shutdown.StopLeavesExactly | internal/processor/processor.go:99-116 | called with every producer returned, a stop can leave exactly the ends of the queue as it was, from nothing to all of it |
| Shutdown.StopLosesExactly | internal/processor/worker.go:59-77 | a stop can leave a message unhandled iff, as it begins, one is queued or a producer has yet to send |
| Shutdown.StopLosesExample | internal/processor/processor.go:99-116 | in a pool of any size one message is enqueued and counted, Stop returns, and it is never handled |
| Observation.WaitForQuiescence | internal/processor/processor.go:240-258 | returns at the first round that finds the pool stopped, the queue empty, or the deadline passed, in that order of precedence |
| Observation.QuiescenceBound | internal/processor/processor.go:246-248 | an empty queue leaves at most one message a worker unfinished; none iff all workers are at rest; with producers returned, totals and nils equal the number enqueued iff every worker has counted |
| Observation.QuiescenceTight | internal/processor/processor.go:246-248 | in a pool of any size, as many messages as workers can be enqueued, with an empty queue, producers returned and totals of zero |
| Observation.StatsBetween | internal/processor/processor.go:165-173 | a total whose counters are loaded one by one while workers run lies between the totals at the start and the end of the reading |
| Workers.ScriptIsProcess | internal/processor/worker.go:80-147 | one worker's atomic steps, uninterrupted, do exactly what its sequential code does |
| Workers.Worker.ProcessMessage | internal/processor/worker.go:80-147 | store and worker counters after one message; of processed, anomalies and errors exactly the one its type and payload call for goes up, and the sensor's with it |
| Workers.Worker.Run | internal/processor/worker.go:59-77 | the loop after Stop: what it took it handled completely and in order, nils skipped; it may leave a rest only if the stop channel is closed |
| Workers.Stats | internal/processor/processor.go:153-194 | the totals are the sums over the workers, read at one instant |
| Direct.DirectSees | internal/processor/worker.go:80-147 | direct handling gives each sensor the tracker run and the verdict counts of its messages |
| Direct.DrainedMatchesDirect | internal/processor/worker.go:59-147 | any N, any schedule: a drained pool agrees with direct handling on sensors, marks, message, error and anomaly counts |
| Direct.OneWorkerMatchesDirect | internal/processor/worker.go:59-147 | with one worker the whole sequence bookkeeping agrees |
| Direct.CanDrain | internal/processor/worker.go:59-77 | a pool none of whose workers has exited can be drained with nothing further sent |
| Direct.StreamDrains | internal/processor/processor.go:120-132 | any messages can be sent through a pool of any size and drained |
| Latency.SortSlice | internal/metrics/latency.go:73-73 | in-place sort: the ascending rearrangement |
| Latency.AscendingUnique | internal/metrics/latency.go:73-73 | there is only one |
| Latency.PercentileIsOrderStatistic | internal/metrics/latency.go:75-78 | the value reported is a sample with at least idx + 1 samples at most it and n - idx at least it |
| Latency.SummaryInOrder | internal/metrics/latency.go:80-87 | min <= p50 <= p95 <= p99 <= max, extremes are the samples' |
| Latency.SummaryDescribes | internal/metrics/latency.go:75-87 | at least n/2 samples are at most p50 and more than half at least it; more than 95% of n - 1 at most p95 and at least 5% of n - 1, plus one, at least it; the same with 99% and 1% |
| Latency.LatencyRecorder.constructor | internal/metrics/latency.go:27-32 | capacity, 10000 by default |
| Latency.LatencyRecorder.Record | internal/metrics/latency.go:35-45 | the ring holds the latest samples, as a rotation once full |
| Latency.LatencyRecorder.TakeSnapshot | internal/metrics/latency.go:59-88 | the summary describes exactly the last min(k, capacity) samples recorded: count, extremes, and where p50, p95 and p99 lie among them |
| Health.Monitor.constructor | internal/health/monitor.go:32-45 | timeout and interval, 5 s and 1 s by default |
| Health.Monitor.Run | internal/health/monitor.go:59-77 | whatever other goroutines do to the store between the ticks, each sensor is warned of exactly as often as the scans report it; if they do nothing, exactly the sensors that fell stale, once each |
| Replay.EventRecorder.Record | internal/replay/recorder.go:32-46 | one line appended, nothing on a marshalling failure, a torn line on a failed write |
| Replay.Replay | internal/replay/player.go:30-69 | handles exactly the non-blank lines before the first trouble, in order, each accepted and none past a cancellation; nil iff there was no trouble; otherwise the kind of error, what held at that line, and its number from 1 |
| Replay.ScanOfFile | internal/replay/recorder.go:37-37 | scanning undoes the framing of any number of recorded lines |
| Replay.ScanOfTornFile | internal/replay/recorder.go:42-44 | a torn last line costs only itself |
| Replay.ScanOfReturn | internal/replay/player.go:40-41 | a line ended by carriage return and line feed is delivered without either |
| Replay.ScanLimit | internal/replay/player.go:12-13 | the scanner gives up at a line of 2^20 characters or more and at none shorter; lines before it are delivered |
| Replay.BlanksPassed | internal/replay/player.go:49-52 | only blank lines are passed over, order kept |
| Replay.RecordThenReplay | internal/replay/player.go:24-29 | recording then replaying hands back exactly the sequence |
| Simulator.Generator.Next | internal/simulator/generator.go:55-56 | the sequence goes up by one and is the message's |
| Simulator.Simulator.constructor | internal/simulator/simulator.go:29-66 | the generators of every known type in order, named by type and number, each of its type and at sequence 0 |
| Simulator.RosterAt | internal/simulator/simulator.go:41-63 | of known types, sensor i of the k-th stands at place k times n plus i and is named type-i |
| Simulator.UnknownSkipped | internal/simulator/simulator.go:47-59 | listing a type other than gps, drone, vehicle or temperature makes no difference |
| Simulator.DecimalReads | internal/simulator/simulator.go:43 | the number in a name is written in decimal digits, without leading zero, and reads as the number |
| Simulator.CountUpWraps | internal/simulator/generator.go:56 | a generator's counter counts up modulo 2^64 |
| Simulator.NamesDistinctExactly | internal/simulator/simulator.go:41-66 | names are distinct iff no known type is listed twice |
| Simulator.Simulator.Run | internal/simulator/simulator.go:70-104 | turn n is generator n mod g's, numbered by its turns, of its type and carrying its reading; a message caught by cancellation is generated and not delivered |
| Simulator.RoundRobinIsFair | internal/simulator/simulator.go:99-101 | generator j has had ceil((k - j) / g) of k turns; any two differ by at most one |
| Simulator.SensorStream | internal/simulator/simulator.go:86-101 | the messages under a generator's name are exactly 1, 2, 3, ..., as many as its turns, if the name is its own; if another has it, once both have had a turn, they are consecutive from no number |
| Simulator.OutputIsLossless | internal/simulator/simulator.go:86-101 | the same of the jobs that carry the output: a lossless stream iff the name is the sensor's own |
| Simulator.AllLosslessExactly | internal/simulator/simulator.go:86-101 | all streams are lossless iff the generators started so far have distinct names |
| Simulator.LosslessByTypes | internal/simulator/simulator.go:41-66 | once every generator has had a turn, all streams are lossless iff no known type is listed twice or there are no sensors |
| Simulator.RepeatedTypeExample | internal/simulator/simulator.go:41-66 | types gps, gps: two generators named gps-0, whose first messages are 1 and 1, the second a duplicate to the tracker |
| Fleet.SensorAccounted | internal/processor/worker.go:59-147 | a drained round-robin output, any N and schedule: a sensor with a name of its own has its mark and count exact, no duplicate, out-of-order balancing drops and late start, nothing at all with one worker |
| Fleet.FleetAccounted | internal/simulator/simulator.go:29-104 | the same of every sensor that has had a turn, from the configuration: fresh simulator, no known type twice, fewer than 2^64 messages |
| Fleet.RunFleet | cmd/simulator/main.go:35-82 | building and running the simulator yields such output, and any pool can send and drain it |
| Rerun.RerunFile | cmd/replay/main.go:29-52 | replaying any file into a pool, any N and schedule: once drained, the store shows what direct handling of the messages handed over would have |
| Rerun.RecordThenRerun | internal/replay/recorder.go:32-46 | record, replay, drain: the store shows what direct handling of the recorded messages would have, all sequence bookkeeping included with one worker |
## Left out

- Listeners, senders, the HTTP API, the UI, logging and command-line flags: input and output only.
- JSON: the codec is a pair of functions, and what recording needs of it is a stated assumption (`Replay.Faithful`).
- Payload parsers and validators: single range checks; a message carries the verdict its parser would give.
- Random walks of the generators: only the sequence counters matter here. The tick interval is not modelled.
- Workers.Worker.ProcessMessage: records no latency samples and has nothing to recover from; the recorder is modelled by itself and the parsers are total.
- A second Start after Stop, two Stops at once: outside the one lifecycle modelled.
- A send that meets the closed channel ends the program; the transition system has no step for it and shows only when it can happen.
- Wrap-around at 2^64 of message counters and cross-sensor totals: these are unbounded here.
- Live order against recorded order: two forwarders record and enqueue separately, so nothing is claimed.
- Latency.PercentileIsOrderStatistic: the index is the floor of a real product; rounding of 0.95, 0.99 and the product in floating point is not modelled.
- Latency.LatencyRecorder.TakeSnapshot: takes its indices from the same real product.
- Overtaking.OvertakingBound: counts messages sent earlier; how long a worker may sit on one is not bounded, nor is it by the program.
- Workers.Stats: leaves out the fields it copies from elsewhere (queue depth, numbers enqueued and refused, running flag, per-worker list, latencies); reading while workers run is `Observation.StatsBetween`.
- Workers.Worker.Run: as sequential code it covers the loop once no more jobs can arrive; waiting for jobs is in the transition system only.
- Enqueue, TryEnqueue, Start and Stop appear as steps of the transition system, not as methods of a class.
