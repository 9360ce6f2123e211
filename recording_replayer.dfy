/**
 * `RecordingReplayer`: pick the recording with the highest id among those the archive lists for
 * the recording channel and stream, and work out the replay request for it.
 */
module Replayer {
  import opened Wrappers
  import opened ArchiveService

  /** The stream the recordings were made on. */
  const STREAM_ID: int := 10

  /** The replay is sent on the stream after the recorded one. */
  const REPLAY_STREAM_ID: int := STREAM_ID + 1

  /** `Long.MAX_VALUE`: the replay length that means "follow the recording as it grows". */
  const LONG_MAX: int := 0x7fff_ffff_ffff_ffff

  /** The details kept of the chosen recording. */
  datatype Recording = Recording(
    recordingId: int,
    startPosition: int,
    stopPosition: int,
    streamId: int,
    channel: string)

  function RecordingOf(d: RecordingDescriptor): (r: Recording)
  {
    Recording(d.recordingId, d.startPosition, d.stopPosition, d.streamId, d.strippedChannel)
  }

  /** `k` holds a highest id of the listing, and no earlier descriptor has that id. */
  predicate IsFirstHighest(listing: seq<RecordingDescriptor>, k: int)
  {
    0 <= k < |listing|
    && (forall j :: 0 <= j < |listing| ==> listing[j].recordingId <= listing[k].recordingId)
    && (forall j :: 0 <= j < k ==> listing[j].recordingId < listing[k].recordingId)
  }

  /** The index `findLatestRecording` keeps, or -1 for an empty listing. */
  function LatestIndex(listing: seq<RecordingDescriptor>): (k: int)
    ensures -1 <= k < |listing|
    ensures k == -1 <==> |listing| == 0
    ensures k >= 0 ==> IsFirstHighest(listing, k)
  {
    if |listing| == 0 then -1
    else
      var prefix := listing[..|listing| - 1];
      var k := LatestIndex(prefix);
      if k == -1 || listing[|listing| - 1].recordingId > listing[k].recordingId then |listing| - 1
      else
        assert forall j :: 0 <= j < |prefix| ==> prefix[j] == listing[j];
        k
  }

  /** There is at most one first highest descriptor. */
  lemma FirstHighestUnique(listing: seq<RecordingDescriptor>, k1: int, k2: int)
    requires IsFirstHighest(listing, k1) && IsFirstHighest(listing, k2)
    ensures k1 == k2
  {
    assert listing[k1].recordingId == listing[k2].recordingId;
  }

  /**
   * `findLatestRecording`: the listing calls back once per descriptor, in order, and a
   * descriptor replaces the kept one when none is kept yet or its id is strictly greater.
   * Nothing is found exactly when the listing is empty; otherwise the result is built from one
   * descriptor with the highest id, the first such one listed.
   */
  method FindLatestRecording(listing: seq<RecordingDescriptor>) returns (latest: Option<Recording>)
    ensures latest.None? <==> |listing| == 0
    ensures latest.Some? ==>
      exists k :: IsFirstHighest(listing, k) && latest.value == RecordingOf(listing[k])
  {
    latest := None;
    for i := 0 to |listing|
      invariant var k := LatestIndex(listing[..i]);
        latest == if k == -1 then None else Some(RecordingOf(listing[k]))
    {
      assert listing[..i + 1][..i] == listing[..i];
      var d := listing[i];
      if latest.None? || d.recordingId > latest.value.recordingId {
        latest := Some(RecordingOf(d));
      }
    }
    assert listing[..|listing|] == listing;
  }

  /** The arguments of `startReplay`. */
  datatype ReplayRequest = ReplayRequest(recordingId: int, position: int, length: int, replayStreamId: int)

  /**
   * The replay `replayRecording` asks for: from the recording's start position, on the replay
   * stream; a stopped recording is replayed up to its stop position, one still being written
   * with the length `Long.MAX_VALUE`.
   */
  function ReplayRequestFor(recording: Recording): (req: ReplayRequest)
    ensures req.recordingId == recording.recordingId
    ensures req.position == recording.startPosition
    ensures req.replayStreamId == 11
    ensures recording.stopPosition == NULL_VALUE ==> req.length == LONG_MAX
    ensures recording.stopPosition != NULL_VALUE ==> req.position + req.length == recording.stopPosition
  {
    var length := if recording.stopPosition == NULL_VALUE then LONG_MAX
                  else recording.stopPosition - recording.startPosition;
    ReplayRequest(recording.recordingId, recording.startPosition, length, REPLAY_STREAM_ID)
  }

  /**
   * For positions the archive can hold (a start at or past 0 and a stop position, when there
   * is one, between the start and `Long.MAX_VALUE`), the replay length is `Long.MAX_VALUE`
   * exactly for a recording still being written, and otherwise a length that fits in a long.
   */
  lemma ReplayLengthIsUnboundedIffOngoing(recording: Recording)
    requires recording.startPosition >= 0
    requires recording.stopPosition == NULL_VALUE
      || recording.startPosition <= recording.stopPosition < LONG_MAX
    ensures ReplayRequestFor(recording).length == LONG_MAX <==> recording.stopPosition == NULL_VALUE
    ensures 0 <= ReplayRequestFor(recording).length <= LONG_MAX
  {
  }
}
