# A verified model of the GPU telemetry pipeline

The program watches CUDA processes from the kernel. BPF handlers on library
calls put fixed-layout records in a ring buffer and keep per-CPU hit counters
for every process. A user-space loader decodes the records and gives each one
to two collectors: an aggregator, which keeps one window of statistics per
process and reports it once it has ended, and a time series, which keeps one
token per event. Reports and tokens travel in batches through channels to a
server. A watchdog polls the hit counters and alerts on processes that drive
the device without calling the library.

This project models those parts and proves what they promise over all inputs,
runs and interleavings.

| module | models |
|---|---|
| `Arith`, `Orders`, `Wrappers` | unsigned 32- and 64-bit arithmetic; visiting orders of a Go map; optional values |
| `Records` | the four record types, their C layout, little-endian decoding and flag dispatch |
| `Launch` | the width changes a kernel launch goes through between C and Go |
| `Stats`, `Windows` | what a window's numbers mean: folds over its list of events |
| `Aggregator` | the fingerprint and aggregator classes, updated in place |
| `TimeSeries` | tokens and the time-series class |
| `Loader` | the read loop and the fan-out to both collectors |
| `Runners` | the two ticker loops, driving the classes through any script of deliveries and ticks |
| `Telemetry`, `Guarantees` | ring, reader, collectors and flushes as one state machine, and what holds over its runs |
| `Pipeline` | the goroutines and channels between the collectors and the sender |
| `SyncTracer` | the table of pending synchronisation calls |
| `Watchdog` | totals over CPUs, one visit, and the collector class |
| `PidHistory` | one process's entry and snapshot as a history of events |
| `TornPolls` | alerts when a poll copies an entry's cells one after another, on one process's history |
| `WatchdogKernel` | the per-CPU map under every interleaving of handler steps, exits and polls |
| `WatchdogRuns`, `TornRuns` | over whole runs: where every call goes, the two clocks, cell-by-cell reads |
| `Probes` | the BPF handlers as a class, each run without interruption |
| `Producers` | sequences of handler calls as the producers of `Telemetry` |

Two styles meet here. Code that updates objects in place is a class whose
methods are proved against functions on values; the properties of those
functions over whole runs are lemmas. Code whose point is its concurrency (the
shared map, the ring with its reader and flushes, the channels) is a state
machine whose steps are the atomic actions of the program, and its theorems
quantify over every finite run.

Conventions. `float64` is `real`; times are integers of nanoseconds; unsigned
arithmetic wraps explicitly. The collectors' clock never goes back and their
window duration is positive, as the ticker demands. A map is ranged over by
repeatedly picking any key not yet seen, so a contract that follows holds for
every order.

Assumed of the kernel. Creating an element of the per-CPU hash writes the
creator's cell and zeroes the others. A deleted element may be reused for
another key at once, even while a handler still points into it. A call is made
when its counting probe fires, for a synchronisation the return. It is recorded
when it lands in its process's current entry, lost when it lands nowhere or in
another's, and then a stray hit there. A poll reads the cells of one entry at
once, except in `TornPolls` and `TornRuns`. The watchdog's two
clocks are independent in `WatchdogKernel`: a poll may carry any time. What is
proved about a poll asks only that the warm-up test passes, and a lemma says how
a common clock ensures that; how early an alert may come is stated for any
distance between the clocks.

Where the code falls short of its evident intent, the code is kept, a concrete
case is given and the exact condition is proved, or it is shown that nothing the
program holds decides:

- The aggregator's block count is a 32-bit product; it equals the handler's
  64-bit count exactly when that count is below 2^32 (`BlocksAgreeIff`,
  `BlocksCanVanish`).
- `blockZ` is read as eight bytes though the caller passes four; the upper half
  spoils the thread count of a one-thread launch in `JunkCanSpoilThreads`, and
  `BlockZJunk` says exactly when it does.
- The host-to-device ratio can exceed one when the byte totals wrap
  (`HtodRatioIsFractionIff`, `HtodRatioCanExceedOne`, `HtodRatioIsExact`).
- A failed ring reservation on a leaf synchronisation call makes its caller's
  return report an interval over which no call ran, and a leaf that finds the
  table full is not reported at all (`FailedReservationMixesCalls`,
  `FullTableLosesCalls`). The records are exactly the leaves if and only if every
  leaf finds room in the table and its return gets ring space
  (`EmittedRecordsAreTheLeaves`); while nothing is turned away, as with at most
  1024 threads, only the reservations matter (`RoomyRecordsAreTheLeaves`).
- The warm-up test compares a time since boot with a time since 1970 and so
  never holds anything back on a real machine (`WarmupIneffectiveAcrossClocks`);
  even on one clock an entry stamped after the poll read the time passes at
  once (`LateStampPassesWarmup`); `WarmupSkipsIff` is the exact condition.
- A library call counts a uprobe hit only if its handler gets ring space, a
  synchronisation return only with a stored start, and any call only with an
  entry or room for one. A process that makes library calls which all get lost
  is alerted (`LostCallMisleadsThePoll`). While an entry is not created anew, an
  alert is right if and only if no library call was lost since the stored
  snapshot, as long as no stray ioctl hit helped to raise it
  (`PidHistory.AlertIsRightIff`; the general condition counts the stray ones).
- Snapshots outlive the entry they came from. After a pid is reused, and also
  after any thread of a process exits, an alert may be raised in spite of
  recorded library calls and a bypass may go unreported (`ReuseMisleadsThePoll`,
  two histories). Creation stamps being distinct, the stored stamp and the
  entry's tell the cases apart: equal, the entry is the same (`SameStampAlert`);
  different, with a stored uprobe count above the stray hits since, the alert is
  wrong (`OtherStampAlert`); different with a stored count of zero, nothing the
  poll holds decides (`OtherStampUndecided`). `AlertMatchesRecordIff` and
  `BypassIsAlertedIff` give the exact conditions on the recorded hits.
- A handler that still points into a deleted element counts its hit for whichever
  process the element goes to (`HitsCanStray`); without deletions no hit is stray
  (`NoStraysWithoutExits`).
- An alert means at least 50 recorded ioctl hits since the stored snapshot when
  the cells are read at once (`AlertSoundness`). Read one by one they may mix the
  old entry and its successor. If the ioctl total is not below the stored one, or
  if the entry stays while it is read, an alert still means so
  (`TornRuns.TornAlertsAreSound`); otherwise the same cells may come of fewer
  hits or of more (`MisreadAlert`).

## Model

| member | source | states |
|---|---|---|
| `Arith.WrapsOnce` | internal/collector/aggregator/aggregator.go:56-58 | a 64-bit sum or difference is the exact one or wraps once, by 2^64 |
| `Records.DispatchLayout` | internal/loaders/gpuprint_tracer_loader.go:201-243 | for every record, any padding bytes and any trailing bytes, the loader's flag dispatch and little-endian decoding recover exactly the fields the handler stored |
| `Records.DispatchOnlyLayout` | internal/loaders/gpuprint_tracer_loader.go:201-243 | conversely every sample that decodes is the layout of the decoded record with some padding and tail: the decoder loses nothing else |
| `Records.SplitJoin` | bpf/cuda/gpuprint/gpuprint_x86_bpfel.go:16-59 | reading fields one after the other by their widths undoes laying them out, whatever follows |
| `Records.FieldWidths` | bpf/cuda/gpuprint/gpuprint.bpf.c:11-60 | the fields each handler stores have the declared widths of the generated Go struct, compiler padding included |
| `Records.FromToLE` | internal/loaders/gpuprint_tracer_loader.go:211-211 | decoding the little-endian bytes of a number that fits gives the number back |
| `Records.ByteOf` | internal/loaders/gpuprint_tracer_loader.go:211-211 | byte i of an encoded number is its i-th digit to base 256, the least significant first |
| `Records.FromFour` | internal/loaders/gpuprint_tracer_loader.go:211-211 | four bytes decode to the first plus 2^8, 2^16 and 2^24 times the next ones |
| `Records.FromEight` | internal/loaders/gpuprint_tracer_loader.go:211-211 | eight bytes decode to the first four plus 2^32 times the last four |
| `Records.LaunchSample` | internal/loaders/gpuprint_tracer_loader.go:206-214 | a sample of at least 208 bytes beginning with 1 decodes to a launch whose pid is at byte 4, name at 8, six dimensions from 160 and three totals from 184, all little-endian |
| `Records.AllocSample` | internal/loaders/gpuprint_tracer_loader.go:216-224 | one of at least 168 bytes beginning with 2 decodes to an allocation with pid at 4, name at 8 and size at 160 |
| `Records.CopySample` | internal/loaders/gpuprint_tracer_loader.go:225-233 | one of at least 176 bytes beginning with 3 decodes to a copy with pid at 4, name at 8, size at 160 and kind byte at 168 |
| `Records.SyncSample` | internal/loaders/gpuprint_tracer_loader.go:234-241 | one of at least 184 bytes beginning with 4 decodes to a synchronisation with pid at 4, name at 8, start, end and duration from 160 |
| `Records.NotDecodedIff` | internal/loaders/gpuprint_tracer_loader.go:201-241 | a sample is empty, of unknown flag, or short of 208, 168, 176 or 184 bytes for flags 1 to 4, and otherwise decodes |
| `Records.CString` | internal/collector/aggregator/aggregator.go:34-34 | the process name is the longest prefix of the comm bytes without a NUL |
| `Launch.RecordHoldsLaunch` | bpf/cuda/gpuprint/gpuprint.bpf.c:151-172 | for all register contents the record holds the pid and name, each dimension cut to 32 bits in its own field, and blocks, threads per block and threads in theirs, modulo 2^64 |
| `Launch.TotalsAreExactModulo` | bpf/cuda/gpuprint/gpuprint.bpf.c:170-172 | the stored 64-bit totals are the integer products modulo 2^64, for all register contents |
| `Launch.TotalsExactIff` | bpf/cuda/gpuprint/gpuprint.bpf.c:170-172 | with clean upper halves each stored total is exact if and only if the product fits 64 bits |
| `Launch.BlocksAgreeModulo` | internal/collector/aggregator/aggregator.go:63-64 | the aggregator's uint32 block product is the handler's 64-bit count, and the product of the 32-bit dimensions, modulo 2^32 |
| `Launch.BlocksAgreeIff` | internal/collector/aggregator/aggregator.go:63-64 | the two block counts are equal if and only if the 64-bit one is below 2^32 |
| `Launch.BlocksCanVanish` | internal/collector/aggregator/aggregator.go:63-64 | a legal grid of 2^32 blocks is averaged as zero blocks |
| `Launch.ThreadsModulo32` | bpf/cuda/gpuprint/gpuprint.bpf.c:159-172 | the thread count modulo 2^32 depends only on the six 32-bit dimensions, whatever the upper halves hold |
| `Launch.BlockZJunk` | bpf/cuda/gpuprint/gpuprint.bpf.c:159-172 | junk in the upper half of the 8-byte blockZ read leaves the 64-bit thread count right if and only if junk times the other five dimensions is a multiple of 2^32 |
| `Launch.JunkCanSpoilThreads` | bpf/cuda/gpuprint/gpuprint.bpf.c:159-172 | with one bit of junk a one-thread launch is counted as 2^32 + 1 threads while its stored dimensions are all one |
| `Stats.OneEvent` | internal/collector/aggregator/aggregator.go:53-87 | what each kind of event adds to each series: threads and 32-bit blocks, allocated bytes, copied bytes to the device for kind 0 and back otherwise, sync time, and nothing to the others |
| `Stats.NumbersAdd` | internal/collector/aggregator/aggregator.go:53-87 | a list's series is what its events add, in order |
| `Stats.MaxOfIsMaximum` | internal/collector/aggregator/aggregator.go:43-48 | the reference maximum is an upper bound and is attained |
| `Stats.MeanAtMostMax` | internal/collector/aggregator/aggregator.go:60-61 | a mean never exceeds the maximum of the same numbers |
| `Stats.RunningMeanStep` | internal/collector/aggregator/aggregator.go:60-60 | one step of the running-mean formula turns the exact mean of a list into the exact mean of the extended list, while the count has not wrapped |
| `Stats.CopiesSplitByDirection` | internal/collector/aggregator/aggregator.go:72-81 | bytes copied in either direction add up to all bytes copied |
| `Stats.KindsPartition` | internal/collector/aggregator/aggregator.go:54-88 | every event of a window is counted under exactly one kind |
| `Windows.EventLandsInItsWindow` | internal/collector/aggregator/aggregator.go:28-53 | an event of a pid without a window opens one under its name from its time for one duration; otherwise the pid's window, ended or not, grows by it; no other changes |
| `Windows.FlushClosesTheEnded` | internal/collector/aggregator/aggregator.go:98-99 | a flush closes exactly the windows whose end is before its time and keeps the others as they are |
| `Windows.ReportedTotals` | internal/collector/aggregator/aggregator.go:115-134 | each count, total and maximum of a report is that of its own series of the window's events, modulo 2^64 |
| `Windows.ReportedMeans` | internal/collector/aggregator/aggregator.go:121-131 | each mean of a report times the number of events of its kind is their sum; it is zero for a kind without events |
| `Windows.ReportedRatios` | internal/collector/aggregator/aggregator.go:101-107 | the host-to-device ratio is that of the wrapped byte totals and the sync fraction that of the wrapped counts, each zero where there is nothing to divide by |
| `Windows.ReportedRates` | internal/collector/aggregator/aggregator.go:100-112 | the three rates are the reported counts of launches, copies and allocations per second of the window |
| `Windows.ReportNames` | internal/collector/aggregator/aggregator.go:140-147 | a report carries the pid and name of its window and the type GPU_TIME_WINDOW |
| `Windows.ReportedBounds` | internal/collector/aggregator/aggregator.go:56-87 | in every report the mean threads and mean sync time are at most their maxima, and the two directions add up to the copy total modulo 2^64 |
| `Windows.MeanTimesCountIsTotal` | internal/collector/aggregator/aggregator.go:59-76 | mean times count is the wrapped total modulo 2^64, for threads, allocations and copies |
| `Windows.HtodRatioIsFractionIff` | internal/collector/aggregator/aggregator.go:101-103 | the reported host-to-device ratio lies in [0,1] if and only if the window's two directions, each summed modulo 2^64, add up to at most 2^64 |
| `Windows.HtodRatioIsExact` | internal/collector/aggregator/aggregator.go:101-103 | when fewer than 2^64 bytes were copied in all, the ratio is the exact share of host-to-device bytes, and lies in [0,1] |
| `Windows.HtodRatioCanExceedOne` | internal/collector/aggregator/aggregator.go:101-103 | two concrete copies whose report has a ratio above one |
| `Windows.SyncFractionIsExact` | internal/collector/aggregator/aggregator.go:104-107 | below 2^64 events the sync fraction is the exact share of sync events, and lies in [0,1] |
| `Aggregator.GPUFingerprint.constructor` | internal/collector/aggregator/aggregator.go:32-37 | a new fingerprint holds the statistics of no events |
| `Aggregator.GPUFingerprint.LiveBounds` | internal/collector/aggregator/aggregator.go:56-87 | in every live window too the mean threads and mean sync time are at most their maxima, and the two directions add up to the copy total modulo 2^64 |
| `Aggregator.GPUFingerprint.Record` | internal/collector/aggregator/aggregator.go:54-88 | after an event the in-place fields hold the statistics of the event list extended by it: counts and totals modulo 2^64, maxima, exact means |
| `Aggregator.GPUFingerprint.RecordLaunch` | internal/collector/aggregator/aggregator.go:55-64 | the launch fields summarise the extended lists of thread and block counts |
| `Aggregator.GPUFingerprint.RecordAlloc` | internal/collector/aggregator/aggregator.go:66-70 | the allocation fields summarise the extended list of sizes |
| `Aggregator.GPUFingerprint.RecordCopy` | internal/collector/aggregator/aggregator.go:72-81 | the copy fields summarise the extended list, and exactly one direction grows, chosen by the kind |
| `Aggregator.GPUFingerprint.RecordSync` | internal/collector/aggregator/aggregator.go:83-87 | the sync fields summarise the extended list of durations |
| `Aggregator.GPUFingerprint.Report` | internal/collector/aggregator/aggregator.go:100-147 | the emitted event names the process and summarises exactly the window's events, with ratios and rates derived from the reported numbers |
| `Aggregator.GPUAggregator.constructor` | internal/collector/aggregator/aggregator.go:20-26 | an aggregator starts without windows |
| `Aggregator.GPUAggregator.EnsureWindow` | internal/collector/aggregator/aggregator.go:28-41 | the live window of the pid is returned, expired or not; only a pid without one gets a new window, starting now |
| `Aggregator.GPUAggregator.Update` | internal/collector/aggregator/aggregator.go:50-89 | exactly the event's own window grows by the event, and every fingerprint still represents its event list; other values change nothing |
| `Aggregator.GPUAggregator.Close` | internal/collector/aggregator/aggregator.go:100-149 | one ended window is reported and deleted, the others stay |
| `Aggregator.GPUAggregator.Flush` | internal/collector/aggregator/aggregator.go:91-159 | for every visiting order: one faithful report per expired pid and no other, exactly the unexpired windows left untouched, nil if and only if nothing expired, lastFlush moved only with a batch |
| `TimeSeries.TimeSeriesCollector.Update` | internal/collector/timeserie/collector.go:27-51 | the event's token is appended to its pid's buffer and its name replaces the pid's name; other values change nothing |
| `TimeSeries.TimeSeriesCollector.Flush` | internal/collector/timeserie/collector.go:53-82 | for every visiting order all buffered tokens come out grouped by pid in buffer order under the pid's name, both maps are emptied, nil if and only if nothing was buffered |
| `TimeSeries.TokenHolds` | internal/collector/timeserie/token.go:11-50 | a token has its event's type from 1 to 4, its number, and for a copy direction 0 to the device and 1 back; the others have direction 0 |
| `TimeSeries.FlushedTokens` | internal/collector/timeserie/collector.go:59-71 | whatever the visiting order, each pid's tokens in the batch are exactly its buffer |
| `TimeSeries.FlushedShape` | internal/collector/timeserie/collector.go:61-69 | every event of a batch belongs to a visited pid and carries that pid's current name |
| `Loader.GpuprintLoader.SendToCollectors` | internal/loaders/gpuprint_tracer_loader.go:252-256 | both collectors receive the event, each at its own time |
| `Loader.GpuprintLoader.HandleSample` | internal/loaders/gpuprint_tracer_loader.go:201-243 | a well-formed sample reaches both collectors, an empty, short or unknown one changes nothing |
| `Loader.GpuprintLoader.ReadAll` | internal/loaders/gpuprint_tracer_loader.go:185-245 | the read loop leaves both collectors as the fold of one-sample effects says |
| `Loader.OnlyWellFormedMatter` | internal/loaders/gpuprint_tracer_loader.go:191-241 | dropping the malformed samples of any stream changes nothing |
| `Loader.OneSample` | internal/loaders/gpuprint_tracer_loader.go:201-256 | a sample that decodes changes its process's window, buffer and name at the two collectors' times; any other changes nothing |
| `Loader.CollectInOrder` | internal/loaders/gpuprint_tracer_loader.go:185-245 | the fold takes the samples one after the other, the first first |
| `Loader.TurnIsThreeSteps` | internal/loaders/gpuprint_tracer_loader.go:189-256 | a turn of the read loop takes one record off the ring and leaves the collectors as the state machine's read and two deliveries do, with time passing in between |
| `Runners.RunAggregator` | internal/collector/aggregator/runner.go:10-29 | for any script of deliveries and ticks and any visiting orders: the live windows are those the script leaves, one batch is sent for each tick that finds an ended window and reports exactly those, a window is closed at a tick if and only if it was live and had ended before it, none is left after a last tick, and per process closed and live windows hold exactly the delivered events |
| `Runners.ScriptAppend` | internal/collector/aggregator/runner.go:16-27 | what one more step does to the windows a script leaves and closes |
| `Runners.RunSeries` | internal/collector/timeserie/runner.go:10-32 | for any such script: the collector holds what was stored since the last tick, each tick sends all of it in one batch, or nothing if there is nothing, and empties it; per process sent and buffered tokens are exactly the delivered events' in order |
| `Runners.OneMoreStored` | internal/collector/timeserie/collector.go:27-51 | one event's token goes to the end of its own process's buffer and its name replaces that process's |
| `Telemetry.RunsKeepInv` | internal/loaders/gpuprint_tracer_loader.go:183-256 | the conservation, order, agreement and timeline invariant holds after every run of handlers, reader, collector updates and flushes |
| `Telemetry.RecordsConservedStep` | bpf/cuda/gpuprint/gpuprint.bpf.c:149-174 | every step keeps the submitted records equal, as a multiset, to those in the ring, in the reader's hand and delivered |
| `Telemetry.InRingSubmit` | bpf/cuda/gpuprint/gpuprint.bpf.c:149-174 | submitting a reserved slot, at any place in the ring, adds exactly that record |
| `Telemetry.WindowsPartitionStep` | internal/collector/aggregator/aggregator.go:50-159 | every step keeps each pid's delivered events equal to its reported windows' events followed by its live window's |
| `Telemetry.LosslessStep` | internal/collector/timeserie/collector.go:27-82 | every step keeps each pid's flushed tokens followed by its buffer equal to the tokens of its delivered events, and buffers and names on the same pids |
| `Telemetry.InStepStep` | internal/loaders/gpuprint_tracer_loader.go:252-256 | every step keeps the collectors' event lists equal but for the one event the reader is between |
| `Telemetry.TimelineStep` | internal/collector/aggregator/aggregator.go:28-40 | every step keeps a pid's windows from overlapping and their events between start and flush |
| `Telemetry.FlushIsAStep` | internal/collector/aggregator/aggregator.go:98-149 | a batch returned by the class's Flush is a flush step of the state machine, report by report |
| `Telemetry.FlushedComms` | internal/collector/timeserie/collector.go:61-69 | every flushed event carries the name its process had at its last event before the flush |
| `Telemetry.RingDrains` | internal/loaders/gpuprint_tracer_loader.go:183-256 | from any state with an empty hand and a fully submitted ring some run of the reader empties the ring, giving both collectors its records in ring order |
| `Telemetry.FlushAndWait` | internal/collector/timeserie/collector.go:53-82 | when flush steps are possible and what they and time do to the whole state |
| `Guarantees.EveryRecordAccountedFor` | internal/loaders/gpuprint_tracer_loader.go:183-256 | over every run, per process and kind, records submitted equal those in the ring, in the reader's hand, counted by the live window and counted by reported windows |
| `Guarantees.CountPermutation` | bpf/cuda/gpuprint/gpuprint.bpf.c:82-86 | counts by process and kind do not depend on the order in which slots are submitted |
| `Guarantees.CountsCount` | bpf/cuda/gpuprint/gpuprint.bpf.c:82-86 | what the conserved counts add up: records by pid and kind, and windows' events by kind |
| `Guarantees.NothingIsReordered` | internal/collector/timeserie/collector.go:27-82 | over every run, per process, reported and live windows hold exactly the delivered events in order, flushed and buffered tokens exactly their tokens in order, and buffers and names cover the same pids |
| `Guarantees.CollectorsAgree` | internal/loaders/gpuprint_tracer_loader.go:252-256 | between deliveries and for any flush schedules, the two collectors' views of every process agree in counts by kind and, modulo 2^64, in totals of threads, allocated bytes, copied bytes, each direction and sync time |
| `Guarantees.TotalsTotal` | internal/collector/timeserie/token.go:11-50 | what the compared totals add up: tokens by type 1 to 4 and direction, and windows' series modulo 2^64 |
| `Guarantees.TokensHoldNumbers` | internal/collector/timeserie/token.go:11-50 | the tokens of a list of events hold exactly the numbers the window statistics are folds of, by event type and direction, each stamped with its arrival time |
| `Guarantees.WindowTimeline` | internal/collector/aggregator/aggregator.go:28-149 | over every run a pid's reported windows start after every earlier one ended, the live one after all of them, and each holds at least one event and only events received between its start and its flush |
| `Guarantees.ReportedWithinTwoDurations` | internal/collector/aggregator/runner.go:14-27 | with flushes on exact ticks a window is reported at most two durations after it opened, and none is live for longer |
| `Pipeline.PipelineIsFifo` | internal/grpc/grpc_client.go:54-88 | over every run, each collector's flushed batches are, in order and without loss or duplication, those handed to the sender followed by those in flight, and the channel holds at most 500 |
| `Pipeline.FlightStep` | internal/loaders/gpuprint_tracer_loader.go:167-173 | a rendezvous or channel move keeps every source's batches in flight and in order; only a flush adds and only a send removes, at opposite ends |
| `Pipeline.WhoCanMove` | internal/grpc/grpc_client.go:54-78 | a ticker loop can flush if and only if it holds no batch, and a forwarder reaches the channel if and only if it holds fewer than 500 |
| `Pipeline.ChannelFills` | internal/grpc/grpc_client.go:54-78 | while nothing is sent, 500 batches fill the channel and no forwarder can add another |
| `Pipeline.SendTakesTheOldest` | internal/grpc/grpc_client.go:79-88 | a send takes the oldest batch of the channel, and only an unavailable server stops the loop |
| `Pipeline.NothingSentAfterLoss` | internal/grpc/grpc_client.go:79-88 | over every run after the server is lost nothing more is sent |
| `Pipeline.SomethingMoves` | internal/grpc/grpc_client.go:58-88 | while the server is reachable and anything is in flight, some goroutine can move a batch: no deadlock |
| `Pipeline.MovesDecrease` | internal/grpc/grpc_client.go:58-88 | every move but a flush brings the pipeline exactly one move nearer to empty |
| `Pipeline.DrainedMeansDelivered` | internal/grpc/grpc_client.go:54-88 | whichever moves are made, once as many are made as were left every flushed batch has been handed to the sender |
| `SyncTracer.StartsAreFresh` | bpf/cuda/gpuprint/gpuprint.bpf.c:300-308 | in every reachable state, full table and failed reservations included, a stored start is its thread's most recent entry, and at most 1024 are stored |
| `SyncTracer.RecordsNeverWrap` | bpf/cuda/gpuprint/gpuprint.bpf.c:328-332 | every record's start is at most its end and its duration is their plain difference |
| `SyncTracer.RoomForEveryThread` | bpf/cuda/gpuprint/gpuprint.bpf.c:68-73 | with at most 1024 threads over a whole run no entry probe is turned away |
| `SyncTracer.ThreadsAreIndependent` | bpf/cuda/gpuprint/gpuprint.bpf.c:300-390 | in any interleaving of any number of threads, one thread's table entry and records are decided by its own probes and whether each was stored or got ring space |
| `SyncTracer.RoomMeansStored` | bpf/cuda/gpuprint/gpuprint.bpf.c:303-308 | a thread's entries are all stored if and only if at each the table held the thread or had room |
| `SyncTracer.EmittedRecordsAreTheLeaves` | bpf/cuda/gpuprint/gpuprint.bpf.c:300-390 | for a well-nested thread among arbitrary others the records are exactly its leaf calls, in order, if every leaf found room in the table and ring space, and, times being distinct, only then; other calls may fail |
| `SyncTracer.RoomyRecordsAreTheLeaves` | bpf/cuda/gpuprint/gpuprint.bpf.c:300-390 | while none of the thread's entries is turned away the records are exactly its leaf calls if and only if the leaves' reservations succeed |
| `SyncTracer.TreeEmitsLeaves` | bpf/cuda/gpuprint/gpuprint.bpf.c:300-390 | running the probes of a call forest whose leaves are served, from any pending start, emits its leaves and leaves nothing pending |
| `SyncTracer.FailedReservationMixesCalls` | bpf/cuda/gpuprint/gpuprint.bpf.c:322-338 | a concrete nested call whose failed leaf reservation yields a record with the leaf's start and the caller's end |
| `SyncTracer.CrowdFillsTable` | bpf/cuda/gpuprint/gpuprint.bpf.c:68-73 | up to 1024 threads that enter are all stored |
| `SyncTracer.FullTableLosesCalls` | bpf/cuda/gpuprint/gpuprint.bpf.c:300-338 | with 1024 threads inside calls another thread's call leaves no record although its return gets ring space |
| `Watchdog.FirstSeenIsMinimum` | internal/loaders/watchdog_collector.go:81-86 | the first-seen total is the least non-zero stamp over the CPUs, zero if and only if there is none |
| `Watchdog.VisitIff` | internal/loaders/watchdog_collector.go:89-136 | for all snapshots, totals and times: a poll stores if and only if there are at least 50 ioctl hits and the first-seen time is at least 3,000,000,000 ns back, and alerts if and only if in addition there is a snapshot, the ioctl count grew by at least 50 modulo 2^64, and the uprobe count is the same |
| `Watchdog.WarmupSkipsIff` | internal/loaders/watchdog_collector.go:94-98 | the exact stamps and times for which the warm-up test holds an entry back |
| `Watchdog.LateStampPassesWarmup` | internal/loaders/watchdog_collector.go:94-98 | an entry stamped after the poll read its clock passes the warm-up |
| `Watchdog.WarmupIneffectiveAcrossClocks` | internal/loaders/watchdog_collector.go:64-98 | with the poll's clock at least three seconds ahead of the stamp's, the warm-up never holds anything back |
| `Watchdog.WatchdogCollector.Tally` | internal/loaders/watchdog_collector.go:73-87 | the loop computes the wrapped sums and the minimum non-zero first-seen time |
| `Watchdog.WatchdogCollector.VisitEntry` | internal/loaders/watchdog_collector.go:89-136 | one entry's visit stores a snapshot and alerts exactly under those conditions, with 50 hits and three seconds, and touches no other pid |
| `Watchdog.WatchdogCollector.Poll` | internal/loaders/watchdog_collector.go:63-142 | for every visiting order each entry is visited once, a pid is in the alerts, once, exactly under those conditions on its totals and stored snapshot, and snapshots of absent pids stay |
| `PidHistory.EventsDo` | bpf/cuda/gpuprint/gpuprint.bpf.c:95-130 | what a creation, a hit, a lost call, a deletion and a poll do to every cell of an entry and to the snapshot |
| `PidHistory.CountersCount` | internal/loaders/watchdog_collector.go:78-87 | along every history the cells sum, modulo 2^64, to the hits since creation, and exactly the creator's cell carries a stamp, which the poll's minimum finds |
| `PidHistory.AlertsAreSound` | internal/loaders/watchdog_collector.go:89-136 | every alert means at least 50 recorded ioctl hits after the last stored snapshot, through deletions, reuse and wrap-around |
| `PidHistory.AlertsIff` | internal/loaders/watchdog_collector.go:100-136 | within a generation a qualifying poll alerts if and only if, modulo 2^64, at least 50 ioctl hits and no uprobe hits came since the stored snapshot |
| `PidHistory.AlertsCompareTotals` | internal/loaders/watchdog_collector.go:89-136 | after any legal history, reuse included, a poll alerts if and only if it qualifies, the hits since creation exceed the stored ioctl count by at least 50 modulo 2^64, and the uprobe counts agree |
| `PidHistory.AlertMatchesRecordIff` | internal/loaders/watchdog_collector.go:100-136 | below 2^64 hits an alert finds 50 recorded ioctl hits and no recorded uprobe hit since the stored snapshot if and only if the entry was not created anew, or the snapshot counted no uprobe hit and none was recorded before the new creation |
| `PidHistory.CallsAndHits` | bpf/cuda/gpuprint/gpuprint.bpf.c:115-130 | since the stored snapshot, calls and stray hits together are recorded hits and lost calls together |
| `PidHistory.AlertIsRightIff` | internal/loaders/watchdog_collector.go:113-136 | below 2^64 hits and with the entry not created anew, an alert means 50 ioctl calls and no library call since the stored snapshot if and only if no library call was lost and the stray ioctl hits do not make up the 50; without stray ones, if and only if no library call was lost |
| `PidHistory.LostCallMisleadsThePoll` | bpf/cuda/gpuprint/gpuprint.bpf.c:147-174 | one entry's legal history that is alerted although the process made a library call, lost for want of ring space |
| `PidHistory.TotalsTellRebirth` | internal/loaders/watchdog_collector.go:102-122 | creation stamps being distinct, the stored stamp differs from the polled one if and only if the entry was created anew |
| `PidHistory.SameStampAlert` | internal/loaders/watchdog_collector.go:100-136 | while the two stamps agree an alert matches the record, and without stray ioctl hits is right if and only if no library call was lost |
| `PidHistory.OtherStampAlert` | internal/loaders/watchdog_collector.go:100-136 | when they differ and the stored uprobe count exceeds the stray uprobe hits since, an alert is wrong |
| `PidHistory.OtherStampUndecided` | internal/loaders/watchdog_collector.go:100-136 | when they differ and the stored uprobe count is zero, two legal histories with the same snapshot and totals are both alerted, one of a bypass and one not |
| `PidHistory.BypassIsRecordedIff` | internal/loaders/watchdog_collector.go:73-87 | a real bypass shows in the record if and only if no stray uprobe hit came and at least 50 of its ioctl hits were recorded, as they are unless some were lost |
| `PidHistory.BypassIsAlertedIff` | internal/loaders/watchdog_collector.go:100-136 | below 2^64 hits a qualifying poll alerts a recorded bypass if and only if the entry was not created anew, or the snapshot counted no uprobe hit and the new ioctl total is not within 50 above the old |
| `PidHistory.StampsTellRebirth` | internal/loaders/watchdog_collector.go:102-122 | creation stamps being distinct, the snapshot's stamp differs from the entry's if and only if the entry was created anew since |
| `PidHistory.ReuseMisleadsThePoll` | internal/loaders/watchdog_collector.go:100-136 | one legal history with an alert in spite of five recorded library calls, one with no alert in spite of 1000 ioctl hits and no library call |
| `PidHistory.WatchedFrom` | internal/loaders/watchdog_collector.go:89-112 | from a storing poll on, with no creation or deletion since and every poll passing the warm-up, the process is watched, whatever went before |
| `PidHistory.WatchedOnOneClock` | internal/loaders/watchdog_collector.go:94-98 | on one clock that does not go back the warm-up keeps passing after a storing poll |
| `PidHistory.OwnSnapshotWasStored` | internal/loaders/watchdog_collector.go:102-122 | conversely a snapshot of the current generation comes from a storing poll with no creation or deletion since |
| `PidHistory.EveryPollStores` | internal/loaders/watchdog_collector.go:102-122 | while a process is watched no poll skips it: hits since the last stored snapshot are hits since the last poll |
| `PidHistory.SnapshotIsCurrent` | internal/loaders/watchdog_collector.go:100-122 | while a process is watched its snapshot holds exactly the totals of the immediately preceding poll |
| `PidHistory.AlertsAreExact` | internal/loaders/watchdog_collector.go:113-136 | then a poll alerts if and only if at least 50 ioctl hits and no uprobe hits came since the preceding poll |
| `PidHistory.SteadyBypassIsReported` | internal/loaders/watchdog_collector.go:89-136 | a process with at least 50 recorded ioctl hits and no recorded uprobe hit between any two polls is alerted at every poll after one that stored a snapshot, whatever went before |
| `PidHistory.NeverAlertedEarly` | internal/loaders/watchdog_collector.go:45-57 | with exact ticks and the poll's clock at least a given offset ahead of the entry's, a process whose snapshot is its own generation's is not alerted before its creation stamp plus one poll interval plus the larger of the offset and the warm-up: the warm-up counts on a common clock, and not once the clocks are three seconds apart |
| `TornPolls.TornTotals` | internal/loaders/watchdog_collector.go:73-87 | cells read one by one while handlers count give totals between those at the read's start and end, and the creator's stamp |
| `TornPolls.TornAlerts` | internal/loaders/watchdog_collector.go:113-136 | with such reads an alert still means at least 50 ioctl hits from the start of the first read to the end of the second and no uprobe hit between them, and the converse holds with the spans exchanged |
| `TornPolls.TornSums` | internal/loaders/watchdog_collector.go:73-87 | two such reads, deletions between and within them included: the second sum exceeds the first by at most the hits from the first read's start to the second's end |
| `TornPolls.TornAlertsAreSound` | internal/loaders/watchdog_collector.go:89-136 | then an alert still means at least 50 ioctl hits over that span if the second ioctl total is not below the stored one |
| `TornPolls.SteadyReadsAreSound` | internal/loaders/watchdog_collector.go:89-136 | and always if the entry is neither created nor deleted while the second read lasts |
| `TornPolls.MisreadAlert` | internal/loaders/watchdog_collector.go:89-136 | otherwise undecided: for any n below 2^64 - 88 a legal history in which a read across a deletion takes the same cells and raises an alert, with between n and n + 27 ioctl hits over that span |
| `WatchdogKernel.RunsFollowHistories` | bpf/cuda/gpuprint/gpuprint.bpf.c:95-130 | in every interleaving a process's entry and snapshot are exactly what its own history of events says, and that history is legal |
| `WatchdogKernel.NoHitIsLost` | bpf/cuda/gpuprint/gpuprint.bpf.c:95-130 | without deletions, however CPUs race: a call misses only with more than 1024 pids and a full map; cells sum to the completed calls; the one stamp is the winning creator's |
| `WatchdogKernel.HitsAreCalls` | bpf/cuda/gpuprint/gpuprint.bpf.c:115-130 | without deletions the hits in a process's history are exactly the completed calls of add_to_counter for it |
| `WatchdogKernel.ExitDeletes` | bpf/cuda/gpuprint/gpuprint.bpf.c:430-436 | a thread exit deletes its process's entry and leaves every other entry, every snapshot and every handler |
| `WatchdogKernel.PollVisits` | internal/loaders/watchdog_collector.go:63-142 | a poll changes one process's snapshot, as a visit does, and nothing else |
| `WatchdogKernel.AlertSoundness` | internal/loaders/watchdog_collector.go:89-136 | over every run of handlers, exits and polls, an alert means at least 50 ioctl hits recorded after the last stored snapshot |
| `WatchdogKernel.AlertTruth` | internal/loaders/watchdog_collector.go:89-136 | over every run, reuse and deletions included, what an alert says about the process's calls, decided by the two stamps and the stored uprobe count the poll holds, up to lost library calls and stray hits |
| `WatchdogKernel.RecordTruth` | internal/loaders/watchdog_collector.go:89-136 | over every run, exactly when an alert matches the recorded hits and when a recorded bypass is alerted |
| `WatchdogKernel.AlertExactness` | internal/loaders/watchdog_collector.go:113-136 | over every run, from a storing poll on with deletions before but none since, a poll passing the warm-up alerts if and only if at least 50 ioctl hits and no uprobe hits came since the process's previous poll |
| `WatchdogKernel.SteadyBypassIsAlerted` | internal/loaders/watchdog_collector.go:89-136 | over every run, a process with at least 50 recorded ioctl hits and no recorded uprobe hit between any two polls is alerted at every poll after a storing one, however the handlers interleave |
| `WatchdogRuns.EveryCallIsNoted` | bpf/cuda/gpuprint/gpuprint.bpf.c:115-130 | over every run, deletions and reuse included, the calls in a process's history, recorded or lost, are exactly its handlers that went through add_to_counter and those turned away before it |
| `WatchdogRuns.NoStraysWithoutExits` | bpf/cuda/gpuprint/gpuprint.bpf.c:115-130 | without deletions no hit lands in another process's entry |
| `WatchdogRuns.HitsCanStray` | bpf/cuda/gpuprint/gpuprint.bpf.c:115-130 | a run in which a thread exit lets one process's handler count for another process |
| `WatchdogRuns.UndisturbedOnOneClock` | internal/loaders/watchdog_collector.go:63-98 | over every run on one clock that does not go back, a process is watched from a storing poll on as long as its entry stays, so exactness and steady reporting apply |
| `WatchdogRuns.NeverAlertedEarly` | internal/loaders/watchdog_collector.go:45-57 | over every run with exact ticks and polls at least a given offset ahead of the handlers' clock, an alert whose snapshot is the entry's own comes no sooner than one poll interval plus the larger of offset and warm-up after the creation stamp |
| `TornRuns.TornAlerts` | internal/loaders/watchdog_collector.go:73-136 | over every run, cells read at steps of their own while the entry stays: an alert means 50 ioctl hits over the outer span and no uprobe hit over the inner, and the converse with the spans exchanged |
| `TornRuns.TornAlertsAreSound` | internal/loaders/watchdog_collector.go:73-136 | over every run, deletions between and within the reads included, an alert means at least 50 ioctl hits over the outer span if the ioctl total did not fall or the entry stays while the second read lasts |
| `Probes.OneCallOneHit` | bpf/cuda/gpuprint/gpuprint.bpf.c:95-130 | a call counts exactly one hit of its kind, creating the entry with its own stamp if needed, or nothing when there is no room |
| `Probes.PidOfCombined` | bpf/cuda/gpuprint/gpuprint.bpf.c:145-145 | the pid of a combined id is its upper half, the thread group, not the thread |
| `Probes.AloneIsAfterCall` | bpf/cuda/gpuprint/gpuprint.bpf.c:115-130 | the uninterrupted run of the step-by-step handler is the class's call |
| `Probes.UncountedCallsAreLost` | bpf/cuda/gpuprint/gpuprint.bpf.c:147-151 | a library handler without ring space, and any handler that finds neither an entry nor room, changes no entry and is a lost call of its process |
| `Probes.Handlers.GetOrInit` | bpf/cuda/gpuprint/gpuprint.bpf.c:95-113 | a missing entry is created fresh if there is room, an existing one and all others are untouched |
| `Probes.Handlers.AddToCounter` | bpf/cuda/gpuprint/gpuprint.bpf.c:115-130 | exactly one process's entry takes one hit on one CPU |
| `Probes.Handlers.HandleLaunch` | bpf/cuda/gpuprint/gpuprint.bpf.c:142-178 | the launch record is appended and a uprobe hit counted if and only if the reservation succeeded |
| `Probes.Handlers.HandleMemAlloc` | bpf/cuda/gpuprint/gpuprint.bpf.c:180-201 | the allocation record is appended and a uprobe hit counted if and only if the reservation succeeded |
| `Probes.Handlers.HandleMemcpy` | bpf/cuda/gpuprint/gpuprint.bpf.c:204-298 | the copy record with its direction is appended and a uprobe hit counted if and only if the reservation succeeded |
| `Probes.Handlers.HandleSyncEntry` | bpf/cuda/gpuprint/gpuprint.bpf.c:300-308 | the start is overwritten, or inserted if there is room |
| `Probes.Handlers.HandleSyncReturn` | bpf/cuda/gpuprint/gpuprint.bpf.c:310-344 | a pending start with a reservation is emitted, deleted and counted; otherwise nothing changes |
| `Probes.FireAll` | bpf/cuda/gpuprint/gpuprint.bpf.c:300-390 | the handlers, called on any trace of probes, keep exactly the tracer's table, and the loader decodes from the ring exactly the tracer's records in order |
| `Producers.InvokeAll` | bpf/cuda/gpuprint/gpuprint.bpf.c:142-436 | any sequence of calls of all the handlers leaves in the ring exactly the layouts of the records submitted, in the table the pending starts, and in the watchdog's entries the hits counted |
| `Producers.UprobeHitsAreRecords` | bpf/cuda/gpuprint/gpuprint.bpf.c:142-344 | over any such sequence without exits and with at most 1024 processes, each entry's uprobe hits are, modulo 2^64, the records its process submitted |
| `Producers.ProducersAreHandlers` | bpf/cuda/gpuprint/gpuprint.bpf.c:142-344 | reserving and submitting those records is a run of the telemetry state machine with exactly that ring and history of submissions |
| `Producers.HandlerRecordsAccountedFor` | internal/loaders/gpuprint_tracer_loader.go:183-256 | from any sequence of handler calls on, whatever reader, collectors and flushes do, each process's records of each kind are in the ring, in hand, in the live window or in reported ones |
| `Probes.Handlers.WatchdogIoctl` | bpf/cuda/gpuprint/gpuprint.bpf.c:393-428 | an ioctl hit is counted exactly for the UVM device and the compute minors |
| `Probes.Handlers.HandleProcessExit` | bpf/cuda/gpuprint/gpuprint.bpf.c:430-436 | exactly the process's entry is deleted |

## Left out

- gRPC transport, generated protobuf code and server replies: handing a batch to the sender appends it to a log, and an unavailable server ends the send loop.
- Attaching probes, loading programs, symbol lists, configuration, flags, logging and `main`: wiring around the modelled parts.
- The ioctl tracepoint's walk from a file descriptor to its device numbers: kernel memory, so the device numbers are parameters.
- Rounding of `float64`: means, ratios and token values are real numbers; a mean whose count has wrapped to zero, where the program divides by zero, is given the value zero and promised nothing.
- Shutdown by cancellation: goroutines stop where they are, so only the loss of the server is modelled, and the rest is claimed for a live context.
- The ticker loops' channels: `Runners` runs the loops over scripts and collects what they send; the batches are not tied to the parcels of `Pipeline`.
- The capacity of the ring buffer: a failed reservation is an outcome any handler may meet, and the ring itself is unbounded.
- The alert channel's ten places and its consumer, which only logs: alerts are a list.
- Errors and restarts of the kernel map iterator: `Poll` visits a snapshot of the map once; the state machine lets an entry be polled at any moment and any number of times.
- The flag and pad bytes of a decoded record: nothing reads them after dispatch.
- Probes.Handlers: each handler runs uninterrupted here, also in `Probes.FireAll` and `Producers.InvokeAll`; its interleavings are those of `WatchdogKernel`, `SyncTracer` and `Telemetry`.
- TornRuns.TornRead: every cell is taken from the process's own entry; a read that goes on in an element already reused for another process is not covered.
- Guarantees.ReportedWithinTwoDurations: assumes flushes on exact ticks, because a ticker loop blocked on a full pipeline may flush later.
