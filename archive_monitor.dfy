/**
 * `ArchiveMonitor`: a periodic cycle that reports the allocated counters, finds the recording
 * still being written, plans how far its segment files may be purged, and purges with one
 * stop-slow-replays-and-retry round when the first purge is refused.
 */
module Monitor {
  import opened Wrappers
  import opened ArchiveService
  import opened SegmentPurge

  /** `monitoringIntervalMs`: the time between two cycles. */
  const MONITORING_INTERVAL_MS: int := 5000

  // ----- Counter report (`generateReport`) -----

  /** One row of the report: an allocated counter's id, type, value and label. */
  datatype CounterEntry = CounterEntry(counterId: int, typeId: int, value: int, counterLabel: string)

  /** The report of one cycle; the replay count is never incremented. */
  datatype Report = Report(entries: seq<CounterEntry>, activeReplayCount: int)

  function EntryOf(counters: seq<CounterSlot>, counterId: int): (e: CounterEntry)
    requires 0 <= counterId < |counters|
  {
    var slot := counters[counterId];
    CounterEntry(counterId, slot.typeId, slot.value, slot.counterLabel)
  }

  /**
   * The rows for counter ids `0 .. n-1`: exactly the allocated slots, in increasing id order,
   * each with the fields of its own slot.
   */
  function AllocatedEntries(counters: seq<CounterSlot>, n: nat): (r: seq<CounterEntry>)
    requires n <= |counters|
    ensures forall j :: 0 <= j < |r| ==>
      0 <= r[j].counterId < n && counters[r[j].counterId].state == RECORD_ALLOCATED
      && r[j] == EntryOf(counters, r[j].counterId)
    ensures forall i, j :: 0 <= i < j < |r| ==> r[i].counterId < r[j].counterId
    ensures forall id :: 0 <= id < n && counters[id].state == RECORD_ALLOCATED ==>
      exists j :: 0 <= j < |r| && r[j].counterId == id
  {
    if n == 0 then []
    else
      var prefix := AllocatedEntries(counters, n - 1);
      if counters[n - 1].state == RECORD_ALLOCATED then
        var r := prefix + [EntryOf(counters, n - 1)];
        assert forall j :: 0 <= j < |prefix| ==> r[j] == prefix[j];
        assert r[|prefix|].counterId == n - 1;
        r
      else prefix
  }

  /** `generateReport`: one pass over the counter ids below `maxCounterId`. */
  method GenerateReport(counters: seq<CounterSlot>) returns (report: Report)
    ensures report.entries == AllocatedEntries(counters, |counters|)
    ensures report.activeReplayCount == 0
  {
    var entries: seq<CounterEntry> := [];
    var activeReplayCount := 0;
    for counterId := 0 to |counters|
      invariant entries == AllocatedEntries(counters, counterId)
    {
      if counters[counterId].state == RECORD_ALLOCATED {
        entries := entries + [EntryOf(counters, counterId)];
      }
    }
    report := Report(entries, activeReplayCount);
  }

  // ----- Active recording (`getActiveRecordingId`) -----

  /** `k` is the last listed recording that has no stop position. */
  predicate IsLastActive(recordings: seq<RecordingDescriptor>, k: int)
  {
    0 <= k < |recordings| && IsActive(recordings[k])
    && forall j :: k < j < |recordings| ==> !IsActive(recordings[j])
  }

  /** The index of the last active recording in listing order, or -1 when none is active. */
  function LastActiveIndex(recordings: seq<RecordingDescriptor>): (k: int)
    ensures -1 <= k < |recordings|
    ensures k >= 0 ==> IsLastActive(recordings, k)
    ensures k == -1 ==> forall j :: 0 <= j < |recordings| ==> !IsActive(recordings[j])
  {
    if |recordings| == 0 then -1
    else if IsActive(recordings[|recordings| - 1]) then |recordings| - 1
    else LastActiveIndex(recordings[..|recordings| - 1])
  }

  /**
   * The id `getActiveRecordingId` answers: that of the last active recording, but `NULL_VALUE`
   * when none is active and also when that id is 0, which the holder cannot tell from "not found".
   */
  function ActiveRecordingIdOf(recordings: seq<RecordingDescriptor>): (id: int)
    ensures id != NULL_VALUE ==>
      id != 0 && exists k :: IsLastActive(recordings, k) && recordings[k].recordingId == id
    ensures id == NULL_VALUE ==>
      forall k :: IsLastActive(recordings, k) ==> recordings[k].recordingId in {0, NULL_VALUE}
  {
    var k := LastActiveIndex(recordings);
    var holder := if k >= 0 then recordings[k].recordingId else 0;
    if holder != 0 then holder else NULL_VALUE
  }

  /** There is at most one last active recording. */
  lemma LastActiveUnique(recordings: seq<RecordingDescriptor>, k1: int, k2: int)
    requires IsLastActive(recordings, k1) && IsLastActive(recordings, k2)
    ensures k1 == k2
  {
  }

  /**
   * `getActiveRecordingId`: the listing calls back once per recording, in order, and each
   * active one overwrites the holder.
   */
  method GetActiveRecordingId(recordings: seq<RecordingDescriptor>) returns (id: int)
    ensures id == ActiveRecordingIdOf(recordings)
  {
    var holder := 0;
    for i := 0 to |recordings|
      invariant var k := LastActiveIndex(recordings[..i]);
        holder == if k >= 0 then recordings[k].recordingId else 0
    {
      assert recordings[..i + 1][..i] == recordings[..i];
      if IsActive(recordings[i]) {
        holder := recordings[i].recordingId;
      }
    }
    assert recordings[..|recordings|] == recordings;
    if holder != 0 {
      id := holder;
    } else {
      id := NULL_VALUE;
    }
  }

  // ----- Purge position (`calculatePurgePosition`) -----

  /** What escapes `doWork` as an exception. */
  datatype Fault =
    | ArithmeticException   // a division by a zero segment file length
    | ArchiveException      // the archive refused the purge retry or the stop request

  /**
   * The holders after `listRecording`: the recording's descriptor, or all zeroes when the
   * catalogue has no recording with that id and the callback never runs.
   */
  function DescriptorHolder(view: ArchiveView, recordingId: int): (d: RecordingDescriptor)
    ensures (d in view.recordings && d.recordingId == recordingId)
      || ((forall i :: 0 <= i < |view.recordings| ==> view.recordings[i].recordingId != recordingId)
          && d.startPosition == 0 && d.stopPosition == 0 && d.segmentFileLength == 0)
  {
    match ListRecording(view.recordings, recordingId)
    case Some(d) => d
    case None => RecordingDescriptor(0, 0, 0, 0, 0, [])
  }

  /** The live position, or the stop position when the recording is not being written. */
  function CurrentPosition(view: ArchiveView, recordingId: int): (p: int)
    ensures recordingId in view.livePositions && view.livePositions[recordingId] != NULL_VALUE ==>
      p == view.livePositions[recordingId]
    ensures recordingId !in view.livePositions || view.livePositions[recordingId] == NULL_VALUE ==>
      p == DescriptorHolder(view, recordingId).stopPosition
  {
    var live := RecordingPosition(view, recordingId);
    if live != NULL_VALUE then live else DescriptorHolder(view, recordingId).stopPosition
  }

  /**
   * `calculatePurgePosition`: `NO_PURGE` when neither a live nor a stop position is known,
   * an `ArithmeticException` when the segment length read is 0, else the plan over
   * `startPosition`, the current position and the segment length.
   */
  function CalculatePurgePosition(view: ArchiveView, recordingId: int): (r: Result<int, Fault>)
    ensures CurrentPosition(view, recordingId) == NULL_VALUE ==> r == Ok(NO_PURGE)
    ensures r.Err? <==>
      (CurrentPosition(view, recordingId) != NULL_VALUE
       && DescriptorHolder(view, recordingId).segmentFileLength == 0)
    ensures r.Err? ==> r.error == ArithmeticException
    ensures ListRecording(view.recordings, recordingId).None? ==> r.Err? || r == Ok(NO_PURGE)
    ensures (CurrentPosition(view, recordingId) != NULL_VALUE
             && DescriptorHolder(view, recordingId).segmentFileLength != 0) ==>
      r == Ok(PlanPurge(DescriptorHolder(view, recordingId).startPosition,
                        CurrentPosition(view, recordingId),
                        DescriptorHolder(view, recordingId).segmentFileLength))
  {
    var d := DescriptorHolder(view, recordingId);
    var currentPosition := RecordingPosition(view, recordingId);
    if currentPosition == NULL_VALUE && d.stopPosition == NULL_VALUE then Ok(NO_PURGE)
    else
      var current := if currentPosition == NULL_VALUE then d.stopPosition else currentPosition;
      if d.segmentFileLength == 0 then Err(ArithmeticException)
      else Ok(PlanPurge(d.startPosition, current, d.segmentFileLength))
  }

  /**
   * A positive purge position for a recording with a positive segment length lies on a segment
   * boundary at least one segment past the start, the last whole segment before the
   * current position is kept, and no further boundary would keep it.
   */
  lemma PositivePurgeKeepsLastSegment(view: ArchiveView, recordingId: int, p: int)
    requires CalculatePurgePosition(view, recordingId) == Ok(p) && p > 0
    requires DescriptorHolder(view, recordingId).segmentFileLength > 0
    ensures var d := DescriptorHolder(view, recordingId);
      && d.startPosition + d.segmentFileLength <= p
      && (p - d.startPosition) % d.segmentFileLength == 0
      && p + d.segmentFileLength <= CurrentPosition(view, recordingId)
      && CurrentPosition(view, recordingId) < p + 2 * d.segmentFileLength
  {
    var d := DescriptorHolder(view, recordingId);
    var current := CurrentPosition(view, recordingId);
    assert p == PlanPurge(d.startPosition, current, d.segmentFileLength);
  }

  // ----- Purge with one retry (`attemptSegmentPurge`) -----

  /** The requests sent during one purge attempt, and whether it ended without an exception. */
  datatype PurgeAttempt = PurgeAttempt(calls: seq<Call>, succeeded: bool)

  /**
   * The protocol of `attemptSegmentPurge`, where `replies(n)` answers its `n`-th request: one
   * purge; on failure one `stopSlowReplays` with the same arguments and one retried purge. At
   * most two purges and one stop are ever sent, and the attempt succeeds exactly when the first
   * purge or the retry does.
   */
  function PurgeProtocol(recordingId: int, purgePosition: int, replies: nat -> Reply): (a: PurgeAttempt)
    ensures 1 <= |a.calls| <= 3 && a.calls[0] == PurgeSegments(recordingId, purgePosition)
    ensures forall c :: c in a.calls ==> c.recordingId == recordingId && c.position == purgePosition
    ensures multiset(a.calls)[PurgeSegments(recordingId, purgePosition)] <= 2
    ensures multiset(a.calls)[StopSlowReplays(recordingId, purgePosition)] <= 1
    ensures StopSlowReplays(recordingId, purgePosition) in a.calls <==> replies(0) == Refused
    ensures replies(0) == Acknowledged ==> a.calls == [PurgeSegments(recordingId, purgePosition)]
    ensures replies(0) == Refused ==>
      a.calls[..2] == [PurgeSegments(recordingId, purgePosition), StopSlowReplays(recordingId, purgePosition)]
    ensures replies(0) == Refused && replies(1) == Refused ==> |a.calls| == 2
    ensures replies(0) == Refused && replies(1) == Acknowledged ==>
      |a.calls| == 3 && a.calls[2] == PurgeSegments(recordingId, purgePosition)
    ensures a.succeeded <==> replies(0) == Acknowledged || (replies(1) == Acknowledged && replies(2) == Acknowledged)
  {
    var purge, stop := PurgeSegments(recordingId, purgePosition), StopSlowReplays(recordingId, purgePosition);
    if replies(0) == Acknowledged then PurgeAttempt([purge], true)
    else if replies(1) == Refused then
      assert stop in [purge, stop];
      assert replies(0) == Refused;
      PurgeAttempt([purge, stop], false)
    else PurgeAttempt([purge, stop, purge], replies(2) == Acknowledged)
  }

  /** `attemptSegmentPurge`: try, and on any exception stop the slow replays and try once more. */
  method AttemptSegmentPurge(recordingId: int, purgePosition: int, replies: nat -> Reply)
    returns (calls: seq<Call>, succeeded: bool)
    ensures PurgeAttempt(calls, succeeded) == PurgeProtocol(recordingId, purgePosition, replies)
  {
    calls := [PurgeSegments(recordingId, purgePosition)];
    if replies(|calls| - 1) == Acknowledged {
      succeeded := true;
      return;
    }
    calls := calls + [StopSlowReplays(recordingId, purgePosition)];
    if replies(|calls| - 1) == Refused {
      succeeded := false;
      return;
    }
    calls := calls + [PurgeSegments(recordingId, purgePosition)];
    succeeded := replies(|calls| - 1) == Acknowledged;
  }

  // ----- One cycle of `doWork` -----

  /** How far one cycle got after the report. */
  datatype PurgeStep =
    | NoActiveRecording
    | PlanningFailed(fault: Fault)
    | NothingToPurge
    | Attempted(position: int, attempt: PurgeAttempt)

  datatype Cycle = Cycle(report: Report, recordingId: int, step: PurgeStep)

  /** The cycle ended with an exception escaping `doWork`. */
  predicate Raised(c: Cycle)
  {
    c.step.PlanningFailed? || (c.step.Attempted? && !c.step.attempt.succeeded)
  }

  /**
   * One cycle against the archive's answers: report, locate, plan, and purge only when an
   * active recording was found and its purge position is positive.
   */
  function CycleOf(view: ArchiveView): (c: Cycle)
    ensures c.report.entries == AllocatedEntries(view.counters, |view.counters|)
    ensures c.report.activeReplayCount == 0
    ensures c.recordingId == ActiveRecordingIdOf(view.recordings)
    ensures c.step.NoActiveRecording? <==> c.recordingId == NULL_VALUE
    ensures c.step.PlanningFailed? <==>
      (c.recordingId != NULL_VALUE && CalculatePurgePosition(view, c.recordingId).Err?)
    ensures c.step.Attempted? <==>
      (c.recordingId != NULL_VALUE
       && CalculatePurgePosition(view, c.recordingId).Ok?
       && CalculatePurgePosition(view, c.recordingId).value > 0)
    ensures c.step.Attempted? ==>
      c.step.position == CalculatePurgePosition(view, c.recordingId).value
      && c.step.attempt == PurgeProtocol(c.recordingId, c.step.position, view.replies)
  {
    var report := Report(AllocatedEntries(view.counters, |view.counters|), 0);
    var recordingId := ActiveRecordingIdOf(view.recordings);
    if recordingId == NULL_VALUE then Cycle(report, recordingId, NoActiveRecording)
    else
      match CalculatePurgePosition(view, recordingId)
      case Err(fault) => Cycle(report, recordingId, PlanningFailed(fault))
      case Ok(position) =>
        if position > 0 then
          Cycle(report, recordingId, Attempted(position, PurgeProtocol(recordingId, position, view.replies)))
        else Cycle(report, recordingId, NothingToPurge)
  }

  /** The archive's catalogue as the archive keeps it: unique ids, positive segment lengths. */
  predicate WellFormedCatalogue(recordings: seq<RecordingDescriptor>)
  {
    UniqueIds(recordings)
    && forall i :: 0 <= i < |recordings| ==> recordings[i].segmentFileLength > 0
  }

  /**
   * Against a well-formed catalogue a cycle never divides by zero, and when it purges, it purges
   * the last active recording, which is still live, up to a segment boundary that keeps that
   * recording's last whole segment, and every request it sends names that recording and position.
   */
  lemma CyclePurgesOnlyLiveRecording(view: ArchiveView)
    requires WellFormedCatalogue(view.recordings)
    ensures !CycleOf(view).step.PlanningFailed?
    ensures var c := CycleOf(view);
      c.step.Attempted? ==>
        exists k :: IsLastActive(view.recordings, k)
          && var d := view.recordings[k];
          && d.recordingId == c.recordingId
          && d.recordingId in view.livePositions
          && d.startPosition + d.segmentFileLength <= c.step.position
          && (c.step.position - d.startPosition) % d.segmentFileLength == 0
          && c.step.position + d.segmentFileLength <= view.livePositions[d.recordingId]
          && forall call :: call in c.step.attempt.calls ==>
               call.recordingId == d.recordingId && call.position == c.step.position
  {
    var c := CycleOf(view);
    var id := c.recordingId;
    if id != NULL_VALUE {
      var k :| IsLastActive(view.recordings, k) && view.recordings[k].recordingId == id;
      var d := view.recordings[k];
      ListRecordingFindsListed(view.recordings, k);
      assert DescriptorHolder(view, id) == d;
      if c.step.Attempted? {
        PositivePurgeKeepsLastSegment(view, id, c.step.position);
      }
    }
  }

  // ----- The monitor object and its schedule -----

  /** A cycle is due once the clock reaches the next report time. */
  predicate Due(nextReportTimeMs: int, now: int)
  {
    now >= nextReportTimeMs
  }

  /** The next report time after a tick at `now`, from the clock read before the cycle. */
  function NextReportTime(nextReportTimeMs: int, now: int): (next: int)
  {
    if Due(nextReportTimeMs, now) then now + MONITORING_INTERVAL_MS else nextReportTimeMs
  }

  /** The clock readings, out of successive ticks, at which a cycle runs. */
  function CycleTimes(nextReportTimeMs: int, nows: seq<int>): (times: seq<int>)
    decreases |nows|
  {
    if |nows| == 0 then []
    else if Due(nextReportTimeMs, nows[0]) then
      [nows[0]] + CycleTimes(NextReportTime(nextReportTimeMs, nows[0]), nows[1..])
    else CycleTimes(nextReportTimeMs, nows[1..])
  }

  /** Times that all lie at or past `first`, each at least one interval after the one before. */
  predicate SpacedFrom(first: int, times: seq<int>)
  {
    && (forall i :: 0 <= i < |times| ==> times[i] >= first)
    && (forall i :: 0 < i < |times| ==> times[i - 1] + MONITORING_INTERVAL_MS <= times[i])
  }

  /**
   * Cycles run no more often than the interval, whatever the clock does: every cycle time is at
   * or past the report time first scheduled, and two successive cycles are at least
   * `MONITORING_INTERVAL_MS` apart.
   */
  lemma {:induction false} CyclesAreSpaced(nextReportTimeMs: int, nows: seq<int>)
    ensures SpacedFrom(nextReportTimeMs, CycleTimes(nextReportTimeMs, nows))
    decreases |nows|
  {
    if |nows| > 0 {
      var t := CycleTimes(nextReportTimeMs, nows);
      if Due(nextReportTimeMs, nows[0]) {
        var rest := CycleTimes(nows[0] + MONITORING_INTERVAL_MS, nows[1..]);
        CyclesAreSpaced(nows[0] + MONITORING_INTERVAL_MS, nows[1..]);
        assert t == [nows[0]] + rest;
        assert forall i :: 0 < i < |t| ==> t[i] == rest[i - 1];
      } else {
        CyclesAreSpaced(nextReportTimeMs, nows[1..]);
      }
    }
  }

  /** The report time after a run of ticks. */
  function NextAfter(nextReportTimeMs: int, nows: seq<int>): (next: int)
    decreases |nows|
  {
    if |nows| == 0 then nextReportTimeMs
    else NextAfter(NextReportTime(nextReportTimeMs, nows[0]), nows[1..])
  }

  /**
   * One more clock reading adds a cycle exactly when it reaches the report time left by the
   * readings before it.
   */
  lemma {:induction false} CycleTimesExtend(nextReportTimeMs: int, nows: seq<int>, now: int)
    ensures NextAfter(nextReportTimeMs, nows + [now])
      == NextReportTime(NextAfter(nextReportTimeMs, nows), now)
    ensures CycleTimes(nextReportTimeMs, nows + [now])
      == CycleTimes(nextReportTimeMs, nows)
         + (if Due(NextAfter(nextReportTimeMs, nows), now) then [now] else [])
    decreases |nows|
  {
    if |nows| == 0 {
      assert nows + [now] == [now];
    } else {
      assert (nows + [now])[1..] == nows[1..] + [now];
      CycleTimesExtend(NextReportTime(nextReportTimeMs, nows[0]), nows[1..], now);
    }
  }

  /** `ArchiveMonitor`: the archive connection is the `ArchiveView` each tick is given. */
  class ArchiveMonitor {
    var nextReportTimeMs: int

    /** The first call to `DoWork` runs a cycle at once. */
    constructor (now: int)
      ensures nextReportTimeMs == now
    {
      nextReportTimeMs := now;
    }

    /**
     * `doWork`: nothing happens before the report time; otherwise the report time moves to
     * `now + MONITORING_INTERVAL_MS` and one cycle runs. The report time is updated before the
     * recording is located, so it moves on even when the cycle ends with an exception.
     */
    method DoWork(now: int, view: ArchiveView) returns (cycle: Option<Cycle>)
      modifies this
      ensures nextReportTimeMs == NextReportTime(old(nextReportTimeMs), now)
      ensures !Due(old(nextReportTimeMs), now) ==> cycle == None && nextReportTimeMs == old(nextReportTimeMs)
      ensures Due(old(nextReportTimeMs), now) ==> cycle == Some(CycleOf(view))
    {
      if now >= nextReportTimeMs {
        var report := GenerateReport(view.counters);
        nextReportTimeMs := now + MONITORING_INTERVAL_MS;
        var recordingId := GetActiveRecordingId(view.recordings);
        var step: PurgeStep;
        if recordingId != NULL_VALUE {
          var planned := CalculatePurgePosition(view, recordingId);
          if planned.Err? {
            step := PlanningFailed(planned.error);
          } else if planned.value > 0 {
            var calls, succeeded := AttemptSegmentPurge(recordingId, planned.value, view.replies);
            step := Attempted(planned.value, PurgeAttempt(calls, succeeded));
          } else {
            step := NothingToPurge;
          }
        } else {
          step := NoActiveRecording;
        }
        cycle := Some(Cycle(report, recordingId, step));
      } else {
        cycle := None;
      }
    }

    /**
     * The host's loop: `doWork` once per clock reading, with the archive's answers at that tick,
     * until the readings run out or a cycle raises, which ends the loop. `ticks` calls were made;
     * cycles ran exactly at the readings `CycleTimes` picks among them.
     */
    method RunTicks(nows: seq<int>, views: seq<ArchiveView>) returns (ran: seq<int>, ticks: nat, crashed: bool)
      requires |views| == |nows|
      modifies this
      ensures ticks <= |nows|
      ensures ran == CycleTimes(old(nextReportTimeMs), nows[..ticks])
      ensures nextReportTimeMs == NextAfter(old(nextReportTimeMs), nows[..ticks])
      ensures !crashed ==> ticks == |nows|
      ensures crashed ==>
        && 0 < ticks
        && Due(NextAfter(old(nextReportTimeMs), nows[..ticks - 1]), nows[ticks - 1])
        && Raised(CycleOf(views[ticks - 1]))
      ensures forall i ::
        (0 <= i < (if crashed then ticks - 1 else ticks)
         && Due(NextAfter(old(nextReportTimeMs), nows[..i]), nows[i])) ==> !Raised(CycleOf(views[i]))
    {
      ghost var first := nextReportTimeMs;
      ran, ticks, crashed := [], 0, false;
      while ticks < |nows|
        invariant ticks <= |nows|
        invariant ran == CycleTimes(first, nows[..ticks])
        invariant nextReportTimeMs == NextAfter(first, nows[..ticks])
        invariant forall i ::
          (0 <= i < ticks && Due(NextAfter(first, nows[..i]), nows[i])) ==> !Raised(CycleOf(views[i]))
      {
        CycleTimesExtend(first, nows[..ticks], nows[ticks]);
        assert nows[..ticks + 1] == nows[..ticks] + [nows[ticks]];
        var cycle := DoWork(nows[ticks], views[ticks]);
        if cycle.Some? {
          ran := ran + [nows[ticks]];
        }
        ticks := ticks + 1;
        if cycle.Some? && Raised(cycle.value) {
          crashed := true;
          return;
        }
      }
    }
  }
}
