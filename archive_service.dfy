/**
 * The answers of the archive service and the media driver's counters, as inputs.
 *
 * The monitor never computes these itself: they come back from `listRecordings`,
 * `listRecording`, `getRecordingPosition`, `purgeSegments`, `stopSlowReplays` and the
 * counters reader. One `ArchiveView` is what the service answers during one monitor cycle.
 */
module ArchiveService {
  import opened Wrappers

  /** `Aeron.NULL_VALUE`: "no position", and the stop position of a recording still being written. */
  const NULL_VALUE: int := -1

  /** `CountersReader.RECORD_ALLOCATED`: the state of a counter slot in use. */
  const RECORD_ALLOCATED: int := 1

  /** The fields of a recording descriptor that the monitor and the replayer read. */
  datatype RecordingDescriptor = RecordingDescriptor(
    recordingId: int,
    startPosition: int,
    stopPosition: int,
    segmentFileLength: int,
    streamId: int,
    strippedChannel: string)

  /** A recording is still being appended to when it has no stop position. */
  predicate IsActive(d: RecordingDescriptor)
  {
    d.stopPosition == NULL_VALUE
  }

  /** One slot of the counters registry. */
  datatype CounterSlot = CounterSlot(state: int, typeId: int, value: int, counterLabel: string)

  /** What the service answers to a purge or a stop request. */
  datatype Reply = Acknowledged | Refused

  /** The mutating requests the monitor sends, in the order it sends them. */
  datatype Call =
    | PurgeSegments(recordingId: int, position: int)
    | StopSlowReplays(recordingId: int, position: int)

  /**
   * The service as seen during one cycle: the recording catalogue in listing order, the live
   * position of each recording still being written, the counters registry (slot `i` is counter
   * id `i`, up to `maxCounterId`), and the reply to the `n`-th mutating request of a purge attempt.
   */
  datatype ArchiveView = ArchiveView(
    recordings: seq<RecordingDescriptor>,
    livePositions: map<int, int>,
    counters: seq<CounterSlot>,
    replies: nat -> Reply)

  /** `getRecordingPosition`: the live position, or `NULL_VALUE` when the recording is not active. */
  function RecordingPosition(view: ArchiveView, recordingId: int): (p: int)
  {
    if recordingId in view.livePositions then view.livePositions[recordingId] else NULL_VALUE
  }

  /** `listRecording`: the descriptor of one recording, found by id, if the catalogue has it. */
  function ListRecording(recordings: seq<RecordingDescriptor>, recordingId: int): (r: Option<RecordingDescriptor>)
    ensures r.None? <==> forall i :: 0 <= i < |recordings| ==> recordings[i].recordingId != recordingId
    ensures r.Some? ==> r.value in recordings && r.value.recordingId == recordingId
  {
    if |recordings| == 0 then None
    else if recordings[0].recordingId == recordingId then Some(recordings[0])
    else ListRecording(recordings[1..], recordingId)
  }

  /** Recording ids are unique in a catalogue. */
  predicate UniqueIds(recordings: seq<RecordingDescriptor>)
  {
    forall i, j :: 0 <= i < j < |recordings| ==> recordings[i].recordingId != recordings[j].recordingId
  }

  /** With unique ids, `listRecording` finds exactly the listed descriptor. */
  lemma {:induction false} ListRecordingFindsListed(recordings: seq<RecordingDescriptor>, k: nat)
    requires UniqueIds(recordings)
    requires k < |recordings|
    ensures ListRecording(recordings, recordings[k].recordingId) == Some(recordings[k])
  {
    if k > 0 {
      assert recordings[0].recordingId != recordings[k].recordingId;
      assert recordings[1..][k - 1] == recordings[k];
      ListRecordingFindsListed(recordings[1..], k - 1);
    }
  }
}
