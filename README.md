# Segment retention of the archive monitor, in Dafny

This project models the retention logic of `ArchiveMonitor`. Every five seconds the monitor
does four things:

- It reports the media driver's allocated counters.
- It finds the recording that is still being written.
- It works out how far that recording's segment files may be purged. It always keeps the last
  whole segment.
- It asks the archive to purge. If that fails, it stops the slow replays and tries once more.

The project also models the two decisions `RecordingReplayer` makes before it replays. It picks
the recording with the highest id, keeping the first of equal ids. It then builds the
`startReplay` request: the start position, a length, and stream 11.

The archive service and the counters registry are inputs. An `ArchiveView` holds what they
answer during one cycle:

- the recording catalogue, in listing order;
- the live positions of the recordings still being written, which `getRecordingPosition`
  answers (`NULL_VALUE` for a recording not in the map);
- the counter slots;
- the reply to each purge or stop request of a purge attempt.

The wall clock is a parameter of `DoWork`. Everything else is pure.

Files:

- `wrappers.dfy`: `Option` and `Result`.
- `archive_service.dfy`: the archive's answers, requests and replies.
- `segment_purge.dfy`: the segment arithmetic, with Java's truncating `long` division.
- `archive_monitor.dfy`: the counter report, the active-recording scan, the purge position, the
  retry protocol, one cycle, the `ArchiveMonitor` class with its `nextReportTimeMs` field, and
  the schedule over many ticks.
- `recording_replayer.dfy`: `Recording`, `findLatestRecording` and the replay request.

The source's one-element holder arrays exist only because a Java lambda cannot assign a local
variable. The two scans over a whole listing, `getActiveRecordingId` and `findLatestRecording`,
are methods whose holder is a local variable. Each callback invocation is one loop iteration.
The holders of `calculatePurgePosition` are the result of the function `DescriptorHolder`. That
result is the descriptor `listRecording` finds for the id, or all zero when the callback never
runs.

The model follows the code in these points:

- On *any* exception from the first purge, `attemptSegmentPurge` calls
  `stopSlowReplays(recordingId, purgePosition)` and retries once. It does not look for a
  replay-session id in the error text.
- Exceptions are not logged and swallowed. A failed retry, a failed stop request, or a division
  by a zero segment length escapes `doWork`. The host loop then ends.
- A recording whose id is 0 is never reported as active. The holder starts at 0, so it cannot
  tell "id 0" from "not found".
- The quotient of whole segments rounds toward zero, as Java's `/` does. For a position behind
  the start this is not the floor, but the plan is "nothing to purge" either way.

## Model

| member | source | states |
|---|---|---|
| `ArchiveService.ListRecording` | src/main/java/org/starquake/archive/ArchiveMonitor.java:97-104 | `listRecording` finds nothing exactly when no listed descriptor has the id; otherwise it returns a listed descriptor with that id |
| `ArchiveService.ListRecordingFindsListed` | src/main/java/org/starquake/archive/ArchiveMonitor.java:97-104 | in a catalogue with unique ids, looking up a listed recording's id returns that descriptor |
| `SegmentPurge.JavaDiv` | src/main/java/org/starquake/archive/ArchiveMonitor.java:134 | Java's `long` division rounds toward zero for every sign of dividend and divisor: `q * b` lies between the dividend and zero, less than one divisor from the dividend; for non-negative operands it is the floor quotient |
| `SegmentPurge.SegmentsToPurge` | src/main/java/org/starquake/archive/ArchiveMonitor.java:133-139 | for a positive segment length, one less than the number of whole segments between start and current position (a partial segment does not count), and negative when the current position is behind the start |
| `SegmentPurge.PlanPurge` | src/main/java/org/starquake/archive/ArchiveMonitor.java:133-147 | with fewer than two whole segments, the `-1` sentinel; otherwise a segment boundary at least one segment past the start that keeps the last whole segment before the current position, and the furthest boundary that does |
| `SegmentPurge.PurgePositiveIffTwoSegments` | src/main/java/org/starquake/archive/ArchiveMonitor.java:139-147 | for a non-negative start, the plan is positive exactly when two whole segments lie between start and current position |
| `SegmentPurge.PlanPurgeExamples` | src/main/java/org/starquake/archive/ArchiveMonitor.java:133-147 | worked plans: (0, 3072, 1024) gives 2048, (1024, 1500, 1024) gives -1, (0, 5000, 1000) gives 4000 |
| `Monitor.AllocatedEntries` | src/main/java/org/starquake/archive/ArchiveMonitor.java:58-67 | the report rows are exactly the allocated counter ids below `maxCounterId`, in increasing order, each with its own slot's type, value and label |
| `Monitor.GenerateReport` | src/main/java/org/starquake/archive/ArchiveMonitor.java:52-71 | the loop over counter ids produces those rows, and the replay count it reports is 0 |
| `Monitor.LastActiveIndex` | src/main/java/org/starquake/archive/ArchiveMonitor.java:153-163 | the index of the last listed recording without a stop position, or -1 when every listed recording has one |
| `Monitor.LastActiveUnique` | src/main/java/org/starquake/archive/ArchiveMonitor.java:159-162 | the last active recording of a listing is unique |
| `Monitor.ActiveRecordingIdOf` | src/main/java/org/starquake/archive/ArchiveMonitor.java:152-169 | a result other than -1 is non-zero and is the id of the last active recording; a result of -1 means no recording is active, or the last active one has id 0 (or -1) |
| `Monitor.GetActiveRecordingId` | src/main/java/org/starquake/archive/ArchiveMonitor.java:151-170 | the scan over the listing's callbacks, with its holder, returns that id |
| `Monitor.DescriptorHolder` | src/main/java/org/starquake/archive/ArchiveMonitor.java:93-107 | the start, stop and segment length read from a listed descriptor with that id, or all zero when the catalogue lists none and the callback never runs |
| `Monitor.CurrentPosition` | src/main/java/org/starquake/archive/ArchiveMonitor.java:110-121 | the live position when the archive has one, otherwise the stop position read from the descriptor holder |
| `Monitor.CalculatePurgePosition` | src/main/java/org/starquake/archive/ArchiveMonitor.java:92-149 | -1 when neither a live nor a stop position is known; an `ArithmeticException` exactly when a position is known and the segment length read is 0 (as for an id missing from the catalogue); otherwise the plan over the start, the live or else the stop position, and the segment length |
| `Monitor.PositivePurgeKeepsLastSegment` | src/main/java/org/starquake/archive/ArchiveMonitor.java:106-144 | a positive purge position lies on a segment boundary at least one segment past the start and at least one segment before the current position, and is the furthest such boundary |
| `Monitor.PurgeProtocol` | src/main/java/org/starquake/archive/ArchiveMonitor.java:73-89 | the first request is the purge; a successful first purge is the only request; `stopSlowReplays` is sent exactly when that purge fails, right after it; a refused stop ends the attempt with no retry; a successful stop is followed by a retry with the same arguments; every request carries the same recording and position; at most two purges and one stop; success exactly when the first purge, or the stop and then the retry, succeed |
| `Monitor.AttemptSegmentPurge` | src/main/java/org/starquake/archive/ArchiveMonitor.java:73-90 | the try / stop / retry sequence sends those requests and ends as that protocol says |
| `Monitor.CycleOf` | src/main/java/org/starquake/archive/ArchiveMonitor.java:34-48 | one cycle reports the allocated counters with a replay count of 0 and locates the active recording; it stops with "no active recording" exactly when that id is -1, raises a planning failure exactly when the purge position calculation raises, and purges exactly when the id is not -1 and its purge position is positive, at that position and by the protocol |
| `Monitor.CyclePurgesOnlyLiveRecording` | src/main/java/org/starquake/archive/ArchiveMonitor.java:38-45 | for a catalogue with unique ids and positive segment lengths, a cycle never divides by zero; when it purges, it targets the last active recording, which has a live position, at a boundary that keeps its last whole segment, and every request names that recording and position |
| `Monitor.CyclesAreSpaced` | src/main/java/org/starquake/archive/ArchiveMonitor.java:32-35 | whatever the clock reads, cycles run at or after the first report time and at least 5000 ms apart |
| `Monitor.CycleTimesExtend` | src/main/java/org/starquake/archive/ArchiveMonitor.java:32-35 | a further clock reading runs a cycle exactly when it reaches the report time left by the earlier readings, and then moves that time to the reading plus 5000 |
| `Monitor.ArchiveMonitor.constructor` | src/main/java/org/starquake/archive/ArchiveMonitor.java:22 | the first report is due at construction time |
| `Monitor.ArchiveMonitor.DoWork` | src/main/java/org/starquake/archive/ArchiveMonitor.java:31-50 | before the report time nothing changes; from it on, the report time becomes `now + 5000` with the `now` read before the cycle, even when the cycle then raises, and the cycle is `CycleOf` the archive's answers |
| `Monitor.ArchiveMonitor.RunTicks` | src/main/java/org/starquake/archive/HorizonArchive.java:50-53 | repeated `doWork` runs cycles exactly at the readings `CycleTimes` picks; it stops only when the readings run out or right after a due tick whose cycle raises, and no earlier due tick's cycle raised |
| `Replayer.LatestIndex` | src/main/java/org/starquake/recording/RecordingReplayer.java:53-57 | -1 exactly for an empty listing; otherwise an index whose id is at least every listed id and strictly above every earlier one |
| `Replayer.FirstHighestUnique` | src/main/java/org/starquake/recording/RecordingReplayer.java:54 | the first descriptor with the highest id is unique |
| `Replayer.FindLatestRecording` | src/main/java/org/starquake/recording/RecordingReplayer.java:34-61 | no recording exactly when the listing is empty; otherwise the record holds the id, start, stop, stream and channel of the first descriptor with the highest id |
| `Replayer.ReplayRequestFor` | src/main/java/org/starquake/recording/RecordingReplayer.java:68-84 | the replay is of that recording, from its start position, on stream 11; its length is `Long.MAX_VALUE` for a recording still being written; otherwise it ends at the stop position |
| `Replayer.ReplayLengthIsUnboundedIffOngoing` | src/main/java/org/starquake/recording/RecordingReplayer.java:71-76 | for a start at or past 0 and a stop position, when there is one, between the start and below `Long.MAX_VALUE`, the length is `Long.MAX_VALUE` exactly when the recording has no stop position, and is never negative |

## Left out

- Connecting to and closing the media driver and the archive, and every channel or endpoint string: these are library calls and configuration.
- All printing, including the report's text. `GenerateReport` returns the rows it would print.
- `Thread.sleep` before the retry and in the host loop. The model has no timing.
- The wall clock is a parameter of `DoWork`, so the model does not capture how long a cycle takes.
- Java's 64-bit `long` overflow. Positions and lengths are unbounded integers.
- What the archive service itself does behind `purgeSegments`, `stopSlowReplays`, `listRecordings`, `listRecording` and `getRecordingPosition`. Its answers are inputs.
- A failure of `listRecordings`, `listRecording` or `getRecordingPosition`. Such a failure would also escape `doWork`. Only the purge and stop replies are scripted.
- The count `stopSlowReplays` returns, which is only printed.
- Monitor.CalculatePurgePosition: both `listRecording` calls and `getRecordingPosition` read one snapshot of the catalogue. A recording that stops between those calls is not modelled.
- Replayer.FindLatestRecording: the channel and stream filter of `listRecordingsForUri` is the archive's own matching. The listing it is given is already filtered.
- `replayRecording`'s subscription, fragment assembler and endless polling loop. This is transport I/O.
- The replayer's `main`, which exits with status 1 when no recording is found. This is process bootstrap.
