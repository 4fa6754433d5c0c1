# manytrace, verified models

manytrace records what happens on a machine. A library inside the traced process (the agent)
serializes events into a shared-memory ring buffer; kernel programs (BPF) count block I/O, CPU time,
scheduling and network traffic; a converter turns everything into a Perfetto trace. This project
models the parts of it that hold a protocol, a state machine or an accounting scheme, and proves what
they promise over every run.

Each part has the same shape: a value model (a state, one step, whole runs), the theorems about all
runs, and, where the original updates things in place, classes whose methods are proved to perform
exactly those steps.

- **Ring buffer** (`Words`, `RingMemory`, `RingMachine`, `RingInvariant`, `RingStray`, `RingSteps`,
  `RingTheorems`, `RingDiscard`, `SharedRing`). A transition system with one shared-memory access per
  step, any number of producers and one consumer. The consumer position a producer checks is read before the
  lock is taken, so it is stale; the invariant shows that this is harmless. The log of reservations,
  the head index and the list of delivered payloads are history that no step reads. `SharedRing` is
  the code itself, run by one thread: between any two of its accesses it calls `Others`, whose
  contract lets every other thread take any number of steps.
- **Sending events** (`TwoPassSerialization`, `EventSubmit`). The counting and the writing pass over
  any serializer whose next write depends on its own state and the reported position, and the
  submission that relies on the two agreeing.
- **Block I/O** (`BlockLatency`, `BlockDepth`, `BlockRequests`, `BlockCounts`, `BlockService`,
  `BlockHistory`, `BlockSampling`, `BlockReports`, `BlockTracker`). The request life cycle, depth
  counters and time integrals, latency sums and histograms, and what userspace samples from them.
  `BlockHistory` tells the lives of requests and the completions of a device from the events alone, as
  the reference the counters are compared with.
- **Callstack interning** (`Interning`, `InternedStream`, `InternedEncoder`). An incremental
  dictionary encoder and a decoder that replays its batches. The hash is any function.
- **Agent session** (`AgentSession`, `AgentLoop`). One step is one event of the loop: the handler,
  the actions it queued, and the removal of clients.
- **Scheduler spans** (`SchedSpans`, `SchedTracer`), **CPU utilisation** (`CpuTimes`, `CpuUsage`,
  `CpuCollector`), **track conversion** (`TrackConversion`, `TrackReadback`,
  `TrackLabels`, `PerfettoConverter`) and
  **network counters** (`NetCounters`, `NetSampler`).

Fields that a BPF or Rust object updates in place are class fields; a kernel map or a `HashMap` is a
`map` field that is reassigned. Clocks, the kernel's refusals (a full map, a full ring buffer), the
outcome of producer and extension start-up, whether a weak compare-exchange fails on a free lock,
symbolization results and the order in which a hash map is iterated are inputs or free choices, so the theorems hold for all of them.

Some promises are not kept by the code in every case. They are modelled as the code has them, each with
a concrete failing run and the exact condition under which it is kept:

- Dropping a discarded buffer looks at its header a second time. If the record was consumed in between
  and its place given to another reservation, the drop commits that other record while it is still being
  written (`RingDiscard.RecycledExample`, in a ring of any accepted size). The ring's invariant holds
  throughout exactly those interleavings in which no such store changes a byte that is in use
  (`RingDiscard.RunKeepsInvIff`); these calm interleavings are the runs the ring's other theorems are
  about. All interleavings of producers that never discard, as the agent's, are among them
  (`RingDiscard.CommitOnlyRuns`), and all in which each discarded record is dropped before it is consumed
  (`RingDiscard.PromptIsCalm`). `RingDiscard.DropHarmsIff` says which bytes decide it otherwise.
- A completion in the same nanosecond as the issue leaves the in-flight counter one too high
  (`BlockCounts.LeakExample`; exact: `BlockCounts.StepCountsIff`, over runs `BlockCounts.RunCounts`).
- A sample reads its clock before the maps, so an entry can be newer than the clock, and then a window can
  report more busy or in-flight time than its elapsed time (`BlockSampling.NewerEntryExample`). The time it
  does measure is exact (`BlockSampling.WindowIsIntegral`), and within the elapsed time whenever the entry
  is not newer (`BlockSampling.WindowIsDifference`; how far it goes otherwise:
  `BlockSampling.WindowBusyIff`).
- A requeue in the same nanosecond as the issue makes the request report more service time than total
  time (`BlockService.RequeueTieExample`; exact: `BlockService.RequeueTieIff`, over runs
  `BlockService.HonestIffTimely`).
- A call that a thread was inside of when it was switched in is not counted as kernel time
  (`CpuTimes.ResumedCallExample`; exact: `CpuTimes.KernelTimeIff`).
- Interned callstacks are told apart by hash only (`Interning.HashClashExample`; exact:
  `Interning.BoundIffInjective`), and an address keeps the name it was first given
  (`Interning.TwoNamesExample`; exact: `Interning.NamesIff`).
- A scheduler entry that is thrown out of the kernel's map while its thread runs, or missing because the
  thread ran when tracing started, can come with the wrong state, until the thread is switched out; the time it ran is then lost, though never misreported
  (`SchedSpans.MisledExample`; exact for the table: `SchedSpans.TableTrueIff`; spans stay true:
  `SchedSpans.SpansTruthful`).
- A thread for which no time passes in a round gets zero divided by zero as its percentages
  (`CpuUsage.EmptySliceExample`; exact: `CpuUsage.ProcessorsToPercentages`).

## Model

| member | source | states |
|---|---|---|
| Words.MaskIsRemainder | mpscbuf/src/ringbuf.rs:49-51 | masking a position with a power of two minus one is its remainder, bit by bit |
| RingMemory.AcceptedSizes | mpscbuf/src/memory.rs:58-63 | a size is accepted if and only if it is a power of two of at least one page |
| RingMemory.MirroredView | mpscbuf/src/memory.rs:65-100 | any offset up to twice the data size lands on the same file byte as its remainder, so a record that crosses the end is contiguous |
| RingMemory.HeaderRoundTrip | mpscbuf/src/common.rs:74-109 | a header word stored as bytes reads back as the same length and flags |
| RingSteps.StepKeepsInv | mpscbuf/src/producer.rs:85-212 | every single access of a producer or the consumer keeps the whole ring invariant (layout, contents, exclusion, ownership of busy records, delivery, wakeup), provided that the store of a drop which has missed its flag changes no byte in use |
| RingSteps.StepKeepsInvIff | mpscbuf/src/producer.rs:190-212 | that proviso is exact for every possible step |
| RingSteps.LiveKeepsFlag | mpscbuf/src/producer.rs:192-201 | a discarded record that has not been consumed still carries its flag when its buffer is dropped |
| RingStray.StrayWriteIff | mpscbuf/src/common.rs:89-94 | whatever is written anywhere into the data area keeps the ring invariant if and only if it leaves every byte of live headers and payloads, and of a header not yet published, as it is |
| RingDiscard.RunKeepsInvIff | mpscbuf/src/producer.rs:185-212 | of all interleavings the invariant holds after every step of exactly those in which no drop that has missed its flag changes a byte in use |
| RingDiscard.PromptIsCalm | mpscbuf/src/producer.rs:185-212 | every interleaving in which each discarded record is dropped before it is consumed is calm |
| RingDiscard.CommitOnlyRuns | agent/src/mpsc.rs:31-39 | so is every interleaving of producers that never discard: all its states are reachable ones and it is a run of the queue |
| RingDiscard.DropHarmsIff | mpscbuf/src/common.rs:89-94 | a drop that does not find its flag harms somebody if and only if one of the four flag bytes it clears is set and part of another header or payload in use |
| RingDiscard.DropOverHeaderIff | mpscbuf/src/common.rs:89-94 | with another live record in the same place it does so if and only if that record is not committed |
| RingDiscard.RecycledIsDelivered | mpscbuf/src/producer.rs:192-202 | with another unfinished record in its place the drop does not find its flag, commits that record, and the consumer hands it out while it is still busy |
| RingDiscard.RecycledExample | mpscbuf/src/producer.rs:185-212 | such a state is reached by three reservations in a ring of any size from 16 bytes up, for a third record of any size |
| RingTheorems.WindowBounded | mpscbuf/src/producer.rs:86-132 | in every reachable state consumer <= producer and the distance is below the data size, although the space check uses a position read before the lock |
| RingTheorems.LiveCellsDisjoint | mpscbuf/src/producer.rs:124-132 | two different bytes of live records never share a physical cell |
| RingTheorems.RecordsContiguous | mpscbuf/src/memory.rs:78-100 | every live record lies inside the mirrored view, is 8-byte aligned, and its header does not straddle the wrap |
| RingTheorems.DeliveredInOrder | mpscbuf/src/consumer.rs:92-160 | what was handed out is exactly the committed payloads of a prefix of the reservations, in order, once each, none discarded |
| RingTheorems.RunExtends | mpscbuf/src/common.rs:80-94 | over any interleaving log entries keep place, size and owner, finished ones never change at all, and deliveries are only appended |
| RingTheorems.HeldRecordStable | mpscbuf/src/consumer.rs:45-50 | the bytes of a delivered record stay what was delivered until the record is dropped, whatever the producers do |
| RingTheorems.NoLostWakeup | mpscbuf/src/sync.rs:132-144 | with forced wakeups, if the last consume found nothing and the head record is finished, wait can proceed or some producer is about to notify, after its second look at the header if it discarded |
| RingTheorems.BlockedOnlyOnProducer | mpscbuf/src/consumer.rs:103-128 | when nothing is available either the ring is empty or some producer still holds the head record |
| RingTheorems.StepRefinesFifo | mpscbuf/src/consumer.rs:92-160 | every step of the ring is a legal step of an abstract queue of busy, committed and discarded entries |
| RingTheorems.RunRefinesFifo | mpscbuf/src/producer.rs:85-212 | every calm interleaving of the ring is a run of that queue |
| SharedRing.AfterInterference | mpscbuf/src/producer.rs:167-174 | whatever other threads do, the invariant, finished records and everything a reservation owns survive, and nobody else makes records in its name |
| SharedRing.Ring.TryLock | mpscbuf/src/sync.rs:47-74 | under interference before every look at the lock, the bounded spin ends by taking the lock, or after exactly 100000 looks that found it taken or failed spuriously |
| SharedRing.TimeoutNeedsLooks | mpscbuf/src/sync.rs:62-73 | in any run a reservation times out only after 100000 looks of its own at the lock in vain |
| SharedRing.UncontendedNeverTimesOut | mpscbuf/src/sync.rs:53-59 | a reservation that starts on a free lock with no other producer at work never times out, as long as its compare-exchange does not fail on a free lock |
| SharedRing.Ring.Enter | mpscbuf/src/producer.rs:87-94 | reads the consumer position, then takes the lock or gives up |
| SharedRing.Ring.Reserve | mpscbuf/src/producer.rs:85-148 | under interference the call is a run of the machine with exactly the accesses of the code: success gives sole ownership of a new busy record of the asked size; failure adds no record of the caller and comes from 100000 failed looks at the lock, or from two positions really loaded with too little room between them |
| SharedRing.Ring.FillAt | mpscbuf/src/producer.rs:177-179 | bytes written through the slice are exactly the ones that change in the owned record |
| SharedRing.Ring.DropBuffer | mpscbuf/src/producer.rs:190-212 | under interference: dropping a reservation commits its record unchanged and notifies |
| SharedRing.Ring.Discard | mpscbuf/src/producer.rs:185-212 | under interference between all its accesses to the header: the record is marked discarded for good; the flag is missed at the second look only when the record was consumed in between, and then the ring stays valid unless the store made changes a byte in use |
| SharedRing.Ring.Publish | mpscbuf/src/producer.rs:85-212 | reserve, copy and drop add the data to the log as one committed record of the caller and no other, or add nothing and then for one of those two reasons |
| SharedRing.Ring.Consume | mpscbuf/src/consumer.rs:92-160 | the whole loop skips only discarded records and ends by delivering the first committed record's own payload, or with nothing, and then no record closed before the call was next in line, with or without wakeups |
| SharedRing.Ring.ConsumeOnce | mpscbuf/src/consumer.rs:93-159 | one trip of that loop delivers the head record's own payload, skips a discarded one, or finds nothing because there is no record or it is busy |
| SharedRing.Ring.WaitReady | mpscbuf/src/sync.rs:139-144 | a wait that can proceed drains the notification counter |
| SharedRing.Ring.AdvanceConsumer | mpscbuf/src/consumer.rs:45-50 | dropping a record retires exactly the head entry |
| TwoPassSerialization.ComputeLength | protocol/src/lib.rs:494-501 | the counting pass succeeds if and only if the serializer completes, with the length of everything it writes |
| TwoPassSerialization.SliceWriter.Put | protocol/src/lib.rs:464-473 | a write either fits and changes only its own range, or fails and changes nothing |
| TwoPassSerialization.SerializeToBuf | protocol/src/lib.rs:485-492 | the writing pass succeeds if and only if the serializer completes within the buffer, which then starts with all its bytes and is otherwise unchanged |
| TwoPassSerialization.MoreMoves | protocol/src/lib.rs:382-473 | what a serializer writes does not depend on how long it is watched after it stops |
| EventSubmit.SerializeToSlice | agent/src/mpsc.rs:36 | the same for the reserved slice of the shared ring, while others run |
| EventSubmit.Submit | agent/src/mpsc.rs:31-39 | a sent event is in the log as one committed record that holds its complete serialization, and the only one added; a serializer that fails changes nothing; without room no record is added and the reservation had a reason; a partial record is never committed |
| BlockLatency.BucketBounds | bpf/src/bpf/blocktrack.bpf.c:311-338 | bucket b holds exactly the whole-microsecond latencies from 2^b up to 2^(b+1), the first also 0, the last everything above |
| BlockLatency.LatencyBucket | bpf/src/bpf/blocktrack.bpf.c:311-338 | the shift-by-halves search computes the clamped floor of the base-2 logarithm |
| BlockLatency.HistogramTotal | bpf/src/bpf/blocktrack.bpf.c:376-378 | every latency is counted in exactly one bucket |
| BlockLatency.HistogramPercentile | bpf/src/blocktrack.rs:1209-1227 | the scan always stops inside the histogram, in the bucket where the running count reaches the rank; the return after the loop is never taken |
| BlockLatency.RankExists | bpf/src/blocktrack.rs:1209-1227 | every list has exactly one nearest-rank quantile of each rank, and it is one of its elements |
| BlockLatency.ScanStopsAtRank | bpf/src/blocktrack.rs:1209-1227 | the bucket where the scan stops is the bucket of that quantile |
| BlockLatency.PercentileOf | bpf/src/blocktrack.rs:1209-1227 | the list has a true quantile, and the percentile is at least it while it is below 2^32, and at most twice it when it is at least 2 |
| BlockDepth.AdjustKeepsTimes | bpf/src/bpf/blocktrack.bpf.c:275-309 | an adjustment loses no time: later snapshots are the snapshot then plus the time since at the new levels |
| BlockDepth.SnapshotGrows | bpf/src/blocktrack.rs:374-400 | between events a snapshot grows linearly with the current levels |
| BlockCounts.StepMoves | bpf/src/bpf/blocktrack.bpf.c:467-633 | exactly which counters of a device each event moves, and in which order |
| BlockCounts.StepCountsIff | bpf/src/bpf/blocktrack.bpf.c:614-618 | an event keeps every counter equal to the number of requests so marked if and only if it is not a final completion at or before the issue time |
| BlockCounts.RunLeaks | bpf/src/bpf/blocktrack.bpf.c:467-633 | over any run queued is the number of tracked requests marked inserted, and inflight the number marked issued plus the number of such completions so far, even when the request map is full |
| BlockCounts.RunCounts | bpf/src/bpf/blocktrack.bpf.c:467-633 | so after any run both counters equal the numbers of requests so marked if and only if there was no such completion |
| BlockCounts.RunPeaks | bpf/src/bpf/blocktrack.bpf.c:302-308 | over every run in which requests keep their device and operation, the maxima are the highest levels there were at any point |
| BlockCounts.GuardsNeverFire | bpf/src/bpf/blocktrack.bpf.c:294-301 | in every run each event moves each counter by exactly what it asks for; the guards against going below zero never fire |
| BlockCounts.LeakExample | bpf/src/bpf/blocktrack.bpf.c:614-618 | a concrete run that leaves one request in flight for ever |
| BlockCounts.SnapshotIsIntegral | bpf/src/blocktrack.rs:374-400 | a snapshot equals the exact time integrals over the event history: time busy, time with a queue, and the integrals of both levels, where a leaked request stays in flight |
| BlockCounts.FlyingIsInFlight | bpf/src/blocktrack.rs:374-400 | without such a completion the level that is integrated is the number of requests in flight |
| BlockService.StepRequests | bpf/src/bpf/blocktrack.bpf.c:573-583 | accumulated service time stays between a request's first sight and its last issue, across any number of requeues, unless an attempt is closed that has lost its issue time |
| BlockService.StepFitsIff | bpf/src/bpf/blocktrack.bpf.c:573-627 | an event leaves all service times fitting and reports service within total if and only if it does not close such an attempt |
| BlockService.ReportOrdered | bpf/src/bpf/blocktrack.bpf.c:614-627 | any other completion reports service time at most total time |
| BlockService.RequeueTieIff | bpf/src/bpf/blocktrack.bpf.c:573-583 | after a requeue service stays within total if and only if the requeue came strictly after the issue |
| BlockService.RequeueTieExample | bpf/src/bpf/blocktrack.bpf.c:573-583 | issue and requeue at 100, and at 200 the request reports 200 of service in a total of 100 |
| BlockService.HonestIffTimely | bpf/src/bpf/blocktrack.bpf.c:549-633 | over any run service times fit and reports are in order throughout if and only if no requeue or final completion ever finds a request issued without an issue time |
| BlockService.RunExact | bpf/src/bpf/blocktrack.bpf.c:357-379 | over any run whatever all sums and histograms are exactly those of the completions |
| BlockHistory.RunHolds | bpf/src/bpf/blocktrack.bpf.c:467-633 | after any run the request table holds exactly the lives of the requests as told by the events: first sight, device, operation, waiting or not, closed attempts, open attempt and bytes left |
| BlockHistory.RunMarks | bpf/src/bpf/blocktrack.bpf.c:467-633 | so the requests the depth counters count are those that wait and those with an open attempt |
| BlockHistory.RunTallies | bpf/src/bpf/blocktrack.bpf.c:340-379 | after any run whatever the statistics of a device and operation are what the events amount to: bytes, errors, requeues, losses, and the final completions in order, each with the sum of its attempts as service and the time since first sight as total, from the first counted event on that was not refused an entry |
| BlockHistory.RunCounters | bpf/src/bpf/blocktrack.bpf.c:357-379 | so every counter, sum and histogram is that of the completions told from the events |
| BlockService.RunOrdered | bpf/src/bpf/blocktrack.bpf.c:614-627 | in a run as above every completion reported service within total |
| BlockService.BalanceIff | bpf/src/bpf/blocktrack.bpf.c:357-379 | over any run queue plus service latency equals total latency if and only if no completion reported more service than total; both histograms sum to the number of completions |
| BlockService.LatencySumsBalance | bpf/src/bpf/blocktrack.bpf.c:357-379 | so they are equal in every run in which no attempt without an issue time is closed |
| BlockService.DeltaExact | bpf/src/blocktrack.rs:273-296 | the difference of two readings is exactly the statistics of the completions in between |
| BlockService.SampleDeltaExact | bpf/src/blocktrack.rs:325-340 | the same for any two samples of any run, with the registration time unchanged |
| BlockService.IntervalPercentile | bpf/src/blocktrack.rs:1209-1227 | percentiles read from delta histograms bracket the quantiles of that interval's latencies, which exist |
| BlockSampling.Sampler.Sample | bpf/src/blocktrack.rs:1061-1148 | one sample reports the change of every visited device against what was remembered and remembers the new reading, in any order of devices |
| BlockSampling.WindowsAddUp | bpf/src/blocktrack.rs:1061-1148 | over any run and any schedule of samples, map entries newer than the clock reading included, the windows of a device add up to its last snapshot, also across samples in which it was skipped as unused |
| BlockSampling.WindowIsDifference | bpf/src/blocktrack.rs:402-420 | every window after the first is the growth since the sample before; its busy and queued times are at most the time from reach to reach, where a sample reaches to its clock reading or to a newer stamp of the entry, and its level sums at most that times the highest level; all within the elapsed time unless the entry is newer than the clock |
| BlockSampling.SampleIsIntegral | bpf/src/blocktrack.rs:374-400 | what a sample sees of a device is the exact time integral of its requests up to that reach |
| BlockSampling.WindowIsIntegral | bpf/src/blocktrack.rs:402-420 | so a window is exactly the integral from one reach to the next |
| BlockSampling.WindowBusyIff | bpf/src/blocktrack.rs:1000-1009 | its busy time is that whole time if and only if a request was in flight at every moment of it |
| BlockSampling.NewerEntryExample | bpf/src/blocktrack.rs:1061-1070 | a run in which a window of 100 reports 105 of busy time |
| BlockReports.ReportsAddUp | bpf/src/blocktrack.rs:1077-1135 | over any run in time order and any schedule of samples everything reported for a device and operation adds up to its last reading: bytes, operations, errors, the three latency sums, both histograms, requeues and losses |
| BlockReports.ReportIsSince | bpf/src/blocktrack.rs:325-340 | on the same runs each report is exactly what the events since the sample before amount to, its sums and histograms those of precisely their completions, and exactly the devices with statistics are reported |
| BlockTracker.Tracker.ChangeDepth | bpf/src/bpf/blocktrack.bpf.c:275-309 | the in-place update of one depth entry, statement by statement, is one adjustment |
| BlockTracker.Tracker.CountCompletion | bpf/src/bpf/blocktrack.bpf.c:357-379 | counts one completion and files both latencies in their buckets |
| BlockTracker.Tracker.CreateRequest | bpf/src/bpf/blocktrack.bpf.c:398-423 | adds the request and its depth, or counts it as lost when the map is full |
| BlockTracker.Tracker.RequestInsert | bpf/src/bpf/blocktrack.bpf.c:467-495 | the handler is one insert step of the machine |
| BlockTracker.Tracker.RequestMerge | bpf/src/bpf/blocktrack.bpf.c:497-510 | the handler is one merge step |
| BlockTracker.Tracker.RequestIssue | bpf/src/bpf/blocktrack.bpf.c:512-547 | the handler is one issue step |
| BlockTracker.Tracker.RequestRequeue | bpf/src/bpf/blocktrack.bpf.c:549-585 | the handler is one requeue step |
| BlockTracker.Tracker.RequestComplete | bpf/src/bpf/blocktrack.bpf.c:587-633 | the handler is one completion step, partial completions included |
| Interning.RunAgrees | interned-symbolizer/src/lib.rs:192-312 | at every point of every run the cache and a decoder that replayed all batches agree on frames, functions, stacks and mapping |
| Interning.BoundIffInjective | interned-symbolizer/src/lib.rs:85-101 | after any run every returned id is bound to its own call's frame list if and only if the hash tells all lists of the run apart |
| Interning.HashClashExample | interned-symbolizer/src/lib.rs:85-101 | under a constant hash two different stacks get one id |
| Interning.FramesDecode | interned-symbolizer/src/lib.rs:192-282 | whatever the hash does, every call's frame list can be read in full and gives that call's addresses |
| Interning.NamesIff | interned-symbolizer/src/lib.rs:233-282 | every frame list reads back its own names if and only if no address was given two names |
| Interning.FirstNameStays | interned-symbolizer/src/lib.rs:74-83 | an address seen twice reads back the name it had first, whatever the hash |
| Interning.TwoNamesExample | interned-symbolizer/src/lib.rs:233-282 | an address named f and then g reads back f both times |
| InternedStream.BatchIffNew | interned-symbolizer/src/lib.rs:284-311 | with an injective hash a batch is emitted if and only if the frame list is new |
| InternedStream.DefinedOnce | interned-symbolizer/src/lib.rs:103-128 | the k-th function and the k-th frame ever defined have id k, and the mapping and build id are defined once |
| InternedStream.StacksDefinedOnce | interned-symbolizer/src/lib.rs:85-95 | with an injective hash so do callstacks |
| InternedStream.DefinedBeforeUse | interned-symbolizer/src/lib.rs:288-305 | only the first batch starts afresh, and each batch refers only to what it or an earlier one defines |
| InternedStream.StacksReadBack | interned-symbolizer/src/lib.rs:192-312 | replaying a run and looking up any returned id gives the call's user addresses reversed, then its kernel addresses, with their names |
| InternedEncoder.InternedCache.ReserveFrame | interned-symbolizer/src/lib.rs:74-83 | returns the known id of an address or the next free one |
| InternedEncoder.InternedCache.ReserveCallstack | interned-symbolizer/src/lib.rs:85-95 | the same for a frame list, by its hash |
| InternedEncoder.Interned.Data | interned-symbolizer/src/lib.rs:192-312 | the two loops and the final test perform exactly one encoding step |
| InternedEncoder.Symbolize | interned-symbolizer/src/lib.rs:322-366 | exactly when each error is returned, and what a stack to intern consists of otherwise |
| AgentSession.StepKeeps | agent/src/epoll_thread.rs:51-184 | every event of the loop keeps the session invariant |
| AgentSession.AlwaysConsistent | agent/src/agent_state.rs:143-444 | at every boundary of every run: clients and sockets agree, ids are non-zero and below the next, the slot names the one started client, which is present, the extension runs only while it is taken, its starts and stops alternate, and each stamp is the client's last accept or grant, and the timeout is the configured one |
| AgentSession.Connected | agent/src/epoll_thread.rs:60-81 | an accepted connection becomes a pending client under the next id, with a socket and the time of its acceptance, and changes nothing else |
| AgentSession.UnknownIgnored | agent/src/epoll_thread.rs:100-149 | nothing is heard from a connection that is not there |
| AgentSession.VersionAnswered | agent/src/agent_state.rs:168-176 | a version request over a live connection is answered in any state and changes nothing |
| AgentSession.StartGranted | agent/src/agent_state.rs:250-373 | a pending client that asks for something with two valid descriptors, while nothing is started, with a producer and an extension that is absent or starts, becomes the holder, is stamped and acknowledged, and one extension start is logged exactly when there is an extension |
| AgentSession.StartRefused | agent/src/agent_state.rs:184-315 | each single one of those conditions that is missing, but the producer, gets a refusal and no other change |
| AgentSession.StartWithoutProducer | agent/src/agent_state.rs:329-377 | without a producer the client is dropped unanswered |
| AgentSession.StopAnswered | agent/src/agent_state.rs:341-348 | the holder's stop is acknowledged, frees the slot, stops a running extension once and removes the holder |
| AgentSession.ContinueAnswered | agent/src/agent_state.rs:349-357 | the holder's continue is acknowledged and only restarts its clock |
| AgentSession.OtherIgnored | agent/src/agent_state.rs:335-361 | any other message changes nothing |
| AgentSession.Departed | agent/src/agent_state.rs:143-159 | a client that hangs up or fails goes unanswered, and frees the slot exactly if it held it |
| AgentSession.TickExact | agent/src/agent_state.rs:380-444 | a tick removes a client if and only if more than the timeout passed since it was last seen, and stops the extension if and only if its client goes |
| AgentSession.DroppedIff | agent/src/epoll_thread.rs:51-184 | one event drops a client if and only if the client hung up, failed, stopped, could not get a producer, or was late at a tick |
| AgentSession.StaysConnected | agent/src/agent_state.rs:80-84 | over any run a client that does none of these and is in time at every tick stays |
| AgentSession.GoneForGood | agent/src/agent_state.rs:123-131 | a client that is gone never comes back, because ids are not reused |
| AgentSession.SecondStartRefused | agent/src/agent_state.rs:184-196 | while one recording runs, any other start request is refused and changes nothing |
| AgentLoop.AgentState.HandleDisconnect | agent/src/agent_state.rs:143-159 | releases the slot only for its holder and queues the removal |
| AgentLoop.AgentState.HandleMessage | agent/src/agent_state.rs:161-378 | one message step, for every message and every client state |
| AgentLoop.AgentState.Timer | agent/src/agent_state.rs:380-444 | queues the removal of exactly the late clients and gives up the slot of a late holder |
| AgentLoop.EventLoop.ProcessActions | agent/src/epoll_thread.rs:188-216 | sends the replies in order and returns exactly the clients to remove |
| AgentLoop.EventLoop.OnAccept | agent/src/epoll_thread.rs:60-81 | an accepted connection becomes a pending client with a fresh id and a socket |
| AgentLoop.EventLoop.OnHangUp | agent/src/epoll_thread.rs:88-99 | a hang-up is one step, also for a client already gone |
| AgentLoop.EventLoop.OnReadError | agent/src/epoll_thread.rs:158-169 | so is a failed read |
| AgentLoop.EventLoop.OnReadable | agent/src/epoll_thread.rs:100-149 | a received message is exactly one step of the session machine |
| AgentLoop.EventLoop.OnTimer | agent/src/epoll_thread.rs:176-183 | so is a timer round; the lookup of the started client cannot fail |
| SchedSpans.SpansOrdered | bpf/src/bpf/schedtrace.bpf.c:103-134 | for every event order in time, with any eviction or drop, a thread's spans have positive length, come in order and never overlap |
| SchedSpans.EntriesExactly | bpf/src/bpf/schedtrace.bpf.c:145-387 | which threads have entries follows from their own events; that of a thread which exits is gone after its last switch-out |
| SchedSpans.SpansExplained | bpf/src/bpf/schedtrace.bpf.c:145-323 | every span is the time between two events of its thread and carries what those two said: processor, reason, frame and task state |
| SchedSpans.TableTrueIff | bpf/src/bpf/schedtrace.bpf.c:145-387 | after every event of a run the table holds the state given by the thread's own switches and wakeups, if and only if no wakeup of a running thread and no exit of one off the processor finds its entry evicted |
| SchedSpans.SpansTruthful | bpf/src/bpf/schedtrace.bpf.c:145-323 | whatever state the thread was in when tracing started and whatever is evicted or dropped, at every moment inside a span the thread was, by its own switches and wakeups, in the state the span names; the scheduler is taken to switch in only threads not on a processor and to switch out or end only threads on one |
| SchedSpans.WrongIsSilent | bpf/src/bpf/schedtrace.bpf.c:145-323 | a table entry that is wrong closes no span and is replaced at the next switch-out |
| SchedSpans.SpansFollowTable | bpf/src/bpf/schedtrace.bpf.c:145-323 | in every run a span names what the table said at every moment of it |
| SchedSpans.UnevictedMisledIff | bpf/src/bpf/schedtrace.bpf.c:273-387 | for a thread that exits while running and whose entry is never evicted the table is always right, if and only if it is not a thread that ran at the start and was first seen by a wakeup |
| SchedSpans.MisledExample | bpf/src/bpf/schedtrace.bpf.c:273-323 | a run with an eviction in which the table calls a running thread runnable; at its switch-out nothing is reported and the table is right again |
| SchedSpans.LifetimeAccounted | bpf/src/bpf/schedtrace.bpf.c:145-323 | over one tracked lifetime spans plus lost time make up exactly the time from first to last transition |
| SchedSpans.LostIff | bpf/src/bpf/schedtrace.bpf.c:145-323 | no time of a lifetime is lost if and only if no switch found the thread in a state it does not close, some time after its last transition |
| SchedSpans.TilesIffNothingLost | bpf/src/bpf/schedtrace.bpf.c:145-323 | the spans tile a lifetime if and only if there was no such switch |
| SchedSpans.TrackedTimeTiled | bpf/src/bpf/schedtrace.bpf.c:145-387 | with switch-outs only from running and switch-ins only from elsewhere, durations add up to last minus first transition |
| SchedTracer.Tracer.HandleOffCpu | bpf/src/bpf/schedtrace.bpf.c:145-206 | the outgoing half of a switch is one step, exit included |
| SchedTracer.Tracer.HandleOnCpu | bpf/src/bpf/schedtrace.bpf.c:208-271 | so is the incoming half |
| SchedTracer.Tracer.HandleSwitch | bpf/src/bpf/schedtrace.bpf.c:325-337 | a switch is its two halves at the same time |
| SchedTracer.Tracer.HandleWakeup | bpf/src/bpf/schedtrace.bpf.c:273-323 | a wakeup is one step |
| SchedTracer.Tracer.HandleExit | bpf/src/bpf/schedtrace.bpf.c:353-387 | an exit marks the thread for its last switch |
| CpuTimes.SlicesInOrder | bpf/src/bpf/cpuutil.bpf.c:85-219 | the slices of a processor are in order and disjoint, and none has more kernel time than its length |
| CpuTimes.FlagMeaning | bpf/src/bpf/cpuutil.bpf.c:109-190 | the running thread is inside a system call, by its own entries and exits, if and only if the program's flag is set or the call was entered before the thread was switched in |
| CpuTimes.KernelTimeIff | bpf/src/bpf/cpuutil.bpf.c:85-219 | a slice's kernel time is at most the time its thread was inside a call, and equal to it if and only if the slice does not begin inside a call resumed by a switch |
| CpuTimes.ResumedCallExample | bpf/src/bpf/cpuutil.bpf.c:109-139 | a run in which a slice reports no kernel time although half of it was inside a call |
| CpuTimes.SlicesOwned | bpf/src/bpf/cpuutil.bpf.c:109-139 | a slice belongs to its thread at every moment of it |
| CpuTimes.SlicesCover | bpf/src/bpf/cpuutil.bpf.c:109-219 | every moment a thread of interest was on the processor, up to the last switch or interval end, is in a slice reported for it and its group |
| CpuTimes.EndsMarked | bpf/src/bpf/cpuutil.bpf.c:192-219 | as many slices are marked as interval ends as there were interval ends that found room in the buffer |
| CpuTimes.SlicesApart | bpf/src/bpf/cpuutil.bpf.c:109-219 | if no thread runs on two processors at once, the slices two processors report for it do not overlap |
| CpuUsage.GatheredSlices | bpf/src/cpuutil.rs:187-196 | whatever userspace receives from processors on which time goes forward and no thread runs twice at once has no overlapping slices of one thread |
| CpuUsage.TimeConserved | bpf/src/cpuutil.rs:187-305 | for every thread flushed plus pending time equals the time of all slices received |
| CpuUsage.RoundsEnd | bpf/src/cpuutil.rs:197-200 | a round ends exactly at every interval end that completes one of each processor |
| CpuUsage.RoundReports | bpf/src/cpuutil.rs:197-303 | a round reports exactly the threads seen so far, each with the time of its slices since the round before, over the interval from that round's end, or its own first slice, to the latest end |
| CpuUsage.TotalAtMost | bpf/src/cpuutil.rs:190-196 | disjoint slices cannot add up to more than the interval they lie in |
| CpuUsage.RoundsBounded | bpf/src/cpuutil.rs:197-305 | in every round kernel time <= CPU time <= max minus min timestamp, so the subtraction never underflows |
| CpuUsage.PercentagesInRange | bpf/src/cpuutil.rs:202-204 | both percentages of a thread in a round are numbers between 0 and 100, kernel at most total, if and only if its first moment lies before the round's last; otherwise both are zero divided by zero |
| CpuUsage.ProcessorsToPercentages | bpf/src/cpuutil.rs:187-305 | the same from the processors' events on, whatever arrives in whatever order |
| CpuUsage.EmptySliceExample | bpf/src/cpuutil.rs:202-204 | a thread switched in at the very time of the boundary gets no number |
| CpuCollector.Processor.HandleSchedSwitch | bpf/src/bpf/cpuutil.bpf.c:109-139 | closes the slice of the outgoing thread and starts the next |
| CpuCollector.Processor.HandleBoundaryEvent | bpf/src/bpf/cpuutil.bpf.c:192-219 | cuts the running slice and restarts both clocks |
| CpuCollector.Processor.HandleSysEnter | bpf/src/bpf/cpuutil.bpf.c:141-163 | starts the clock of a system call, once |
| CpuCollector.Processor.HandleSysExit | bpf/src/bpf/cpuutil.bpf.c:165-190 | adds the finished system call |
| CpuCollector.Collector.Flush | bpf/src/cpuutil.rs:201-303 | reports every thread once and clears its sums, in any order |
| CpuCollector.Collector.OnEvent | bpf/src/cpuutil.rs:187-308 | one slice is one step of the aggregation |
| TrackConversion.RunKeeps | manytrace/src/converter.rs:35-266 | for every message sequence the track map is injective, events refer to tracks described before, parents are 0 or earlier and smaller, and each track is described as what it is |
| TrackConversion.NeverReassigned | manytrace/src/converter.rs:35-78 | a uuid once given stays with its track, and the log only grows |
| TrackConversion.Root | perfetto-format/src/lib.rs:44-66 | following parents from any described track ends at a track without parent: the tracks form a forest |
| TrackConversion.ThreadsUnderProcess | manytrace/src/converter.rs:49-78 | every thread's track hangs directly below its process's track |
| TrackReadback.KnownExactly | manytrace/src/converter.rs:216-266 | which tracks are known follows from the messages alone |
| TrackLabels.LabelledAsAsked | manytrace/src/converter.rs:35-266 | after any messages the last descriptor of every known track gives the parent, the kind, the unit and the title that the message which introduced it asked for; a parent that cannot be had is none |
| TrackReadback.EventsReadBack | manytrace/src/converter.rs:120-214 | reading the packet log of any run gives exactly the events that could be shown, in order, each on its own track |
| TrackReadback.SlicesPaired | perfetto-format/src/lib.rs:98-138 | in a readable log every slice begin is followed at once by its end on the same track |
| PerfettoConverter.Converter.EnsureThreadTrack | manytrace/src/converter.rs:49-78 | creates a thread's track below its process, or describes it again when a name is given |
| PerfettoConverter.Converter.ConvertSpan | manytrace/src/converter.rs:144-179 | one span message is one step |
| PerfettoConverter.Converter.ConvertInstant | manytrace/src/converter.rs:181-214 | one instant message is one step |
| PerfettoConverter.Converter.ConvertCounter | manytrace/src/converter.rs:120-142 | one counter message is one step |
| PerfettoConverter.Converter.ConvertTrack | manytrace/src/converter.rs:216-266 | one track message is one step, unknown and self-referring parents included |
| NetCounters.DeltasAddUp | bpf/src/nettrack.rs:304-333 | over any run of samples the differences reported for a key add up to the last reading of every generation of its entry |
| NetCounters.ReportedOnceEach | bpf/src/nettrack.rs:893-932 | every reading of TCP or UDP is reported once, in order, under its key, and nothing else is |
| NetCounters.HostAddsUp | bpf/src/nettrack.rs:835-891 | host differences telescope to the per-CPU totals of the last reading, and the host total is TCP plus UDP |
| NetCounters.TotalIsBoth | bpf/src/nettrack.rs:839-854 | at each sample the host total is the sum of the enabled protocols |
| NetSampler.ReadGlobal | bpf/src/nettrack.rs:593-607 | the loop sums the per-CPU values |
| NetSampler.NetTrack.SampleHost | bpf/src/nettrack.rs:835-854 | one host sample is one step for both protocols |
| NetSampler.NetTrack.SampleProcesses | bpf/src/nettrack.rs:893-911 | one sample of all entries is a run of readings; entries of unknown protocol are passed over |
| NetSampler.NetTrack.SamplePeers | bpf/src/nettrack.rs:917-932 | the same for peers |
| NetSampler.SamplesAreOneRun | bpf/src/nettrack.rs:893-932 | successive samples are one run of readings, so the sums hold across them |

## Left out

- Weak memory: each atomic load, store and compare-exchange of the ring is one sequentially consistent step.
- SharedRing.Ring.Consume: takes a bound, any bound, on the number of reservations ever made (with 64-bit positions 2^61 is one); without a bound the loop need not end while producers keep discarding records.
- SharedRing.Ring.Discard: promises nothing about the ring once the store after a missed flag has changed a byte in use (RingDiscard.RecycledIsDelivered shows what can then happen), and lets nobody run between that store and the notification.
- SharedRing.Ring.WaitReady: covers a wait that can proceed; blocking itself is the kernel's.
- Ring data sizes above 2^32 bytes: the length field of a header has 32 bits.
- The count of dropped records and the available-records estimate of the ring.
- Wrap-around of 64-bit positions, timestamps and counters, and saturation of additions at 2^64: all are unbounded numbers here.
- Rounding of floating-point rates and percentages: percentages are exact quotients, quantile ranks exact fractions.
- mmap, memfd, eventfd, descriptor passing, epoll and socket calls, except the mirrored address map, the eventfd counter and the set of sockets.
- Failures of socket and epoll set-up calls, which end the agent's thread.
- The byte formats of rkyv and prost: a serializer is any sequence of writes, packets are values in a log.
- Errors from the output writer, and callbacks that ask to stop: conversion and sampling are modelled for writers and callbacks that succeed.
- BlockCounts.RunCounts: takes each request's device and operation as constant while it is tracked.
- BlockCounts.RunPeaks: takes the same as constant.
- BlockReports.ReportsAddUp: takes event times in order, and samples taken in that order.
- BlockReports.ReportIsSince: takes the same.
- BlockSampling.WindowsAddUp: takes a clock that starts above zero, because a last-update time of zero means never; so do BlockService.HonestIffTimely and what rests on it.
- A kernel handler's clock reading and its map updates are one step, so events take effect in the order of their time stamps; a sample may fall anywhere between two of them.
- CpuTimes.KernelTimeIff: takes a thread's system calls as made on the processor it runs on; calls made elsewhere are events of the run that this processor does not see.
- CpuTimes.SlicesCover: takes switches and interval ends that name the running thread and its group as they are, and slices that find room.
- The timeline spans of block requests with their drop counter, and the owner and sector of a request.
- Eviction from kernel maps, except for scheduler entries and network entries, where any eviction is allowed.
- InternedStream.StacksReadBack: takes one symbol per address, no process with the kernel's id -1, and an injective hash.
- CpuUsage.RoundsBounded: takes the slices of a thread as disjoint; CpuUsage.GatheredSlices derives that from a scheduler that runs no thread on two processors at once.
- NetCounters.DeltasAddUp: takes counters that do not go back within a generation and generations with distinct creation times.
- The random process id of a session, the process-name event sent at its start, and the text of refusals.
- Labels and debug annotations of converted events; samples and interned data are passed through unchanged.
- The limit on peer tracks and the choice of counter tracks in the network sampler.
- agent client, configuration, device-number packing, the perf-counter, profiler and thread trackers, the tracing layer and the command line: plumbing that would add only easy members.
