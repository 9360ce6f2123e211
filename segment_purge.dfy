/**
 * The segment arithmetic of `ArchiveMonitor.calculatePurgePosition`: how far a recording may be
 * purged, in whole segment files, always keeping the last one.
 */
module SegmentPurge {

  /** The sentinel `calculatePurgePosition` returns when there is nothing to purge. */
  const NO_PURGE: int := -1

  /**
   * Java's `long` division: the quotient is rounded toward zero, whatever the signs, so
   * `q * b` lies between `a` and zero, less than one divisor away from `a`.
   */
  function JavaDiv(a: int, b: int): (q: int)
    requires b != 0
    ensures a >= 0 && b > 0 ==> q == a / b
    ensures a >= 0 && b > 0 ==> a - b < q * b <= a
    ensures a < 0 && b > 0 ==> a <= q * b < a + b
    ensures a >= 0 && b < 0 ==> a + b < q * b <= a
    ensures a < 0 && b < 0 ==> a <= q * b < a - b
  {
    var n := if a < 0 then -a else a;
    var d := if b < 0 then -b else b;
    var m := n / d;
    WholeQuotient(n, d);
    if (a < 0) == (b < 0) then
      assert m * b == (if b < 0 then -(m * d) else m * d);
      m
    else
      assert -m * b == (if b < 0 then m * d else -(m * d));
      -m
  }

  /** The floor quotient of non-negative numbers leaves a remainder below the divisor. */
  lemma WholeQuotient(n: int, d: int)
    requires n >= 0 && d > 0
    ensures n - d < (n / d) * d <= n
  {
    assert n == d * (n / d) + n % d;
  }

  /** Multiplying by a non-negative factor keeps the order. */
  lemma MulMonotone(b: int, x: int, y: int)
    requires b >= 0 && x <= y
    ensures b * x <= b * y
  {
    assert b * y - b * x == b * (y - x);
  }

  /** A multiple of `b` leaves no remainder. */
  lemma MultipleHasNoRemainder(b: int, k: int)
    requires b > 0
    ensures (b * k) % b == 0
  {
    var x := b * k;
    var t := k - x / b;
    assert x == b * (x / b) + x % b;
    assert b * t == x % b by {
      assert b * t == b * k - b * (x / b);
    }
    if t >= 1 {
      MulMonotone(b, 1, t);
    } else if t <= -1 {
      MulMonotone(b, t, -1);
    }
  }

  /**
   * `segmentsRecorded - 1`: for a positive segment length, one less than the number of whole
   * segments between start and current (a partial segment does not count), and negative when
   * the current position is behind the start.
   */
  function SegmentsToPurge(startPosition: int, currentPosition: int, segmentFileLength: int): (k: int)
    requires segmentFileLength != 0
    ensures segmentFileLength > 0 && currentPosition >= startPosition ==>
      startPosition + (k + 1) * segmentFileLength <= currentPosition
      < startPosition + (k + 2) * segmentFileLength
    ensures segmentFileLength > 0 && currentPosition < startPosition ==> k < 0
  {
    var q := JavaDiv(currentPosition - startPosition, segmentFileLength);
    assert (q + 1) * segmentFileLength == q * segmentFileLength + segmentFileLength;
    q - 1
  }

  /**
   * The purge position for a recording. With a positive segment length: `NO_PURGE` when fewer
   * than two whole segments lie between start and current; otherwise a segment boundary at
   * least one segment past the start that keeps the last whole segment before the current
   * position, and the furthest such boundary.
   */
  function PlanPurge(startPosition: int, currentPosition: int, segmentFileLength: int): (p: int)
    requires segmentFileLength != 0
    ensures segmentFileLength > 0 && currentPosition - startPosition < 2 * segmentFileLength ==>
      p == NO_PURGE
    ensures segmentFileLength > 0 && currentPosition - startPosition >= 2 * segmentFileLength ==>
      && startPosition + segmentFileLength <= p
      && (p - startPosition) % segmentFileLength == 0
      && p + segmentFileLength <= currentPosition
      && currentPosition < p + 2 * segmentFileLength
  {
    var segments := SegmentsToPurge(startPosition, currentPosition, segmentFileLength);
    var b := segmentFileLength;
    if segments > 0 then
      var p := startPosition + segments * b;
      assert b > 0 ==> p + b == startPosition + (segments + 1) * b;
      assert b > 0 ==> p + 2 * b == startPosition + (segments + 2) * b;
      assert b > 0 ==> b <= segments * b by {
        if b > 0 {
          MulMonotone(b, 1, segments);
        }
      }
      assert b > 0 ==> (p - startPosition) % b == 0 by {
        if b > 0 {
          MultipleHasNoRemainder(b, segments);
          assert p - startPosition == b * segments;
        }
      }
      p
    else
      assert b > 0 && currentPosition - startPosition >= 2 * b ==> false by {
        if b > 0 && currentPosition - startPosition >= 2 * b {
          MulMonotone(b, segments + 2, 2);
        }
      }
      NO_PURGE
  }

  /**
   * For non-negative start positions the sentinel and a real position cannot be confused: the
   * plan is positive exactly when two whole segments have been recorded.
   */
  lemma PurgePositiveIffTwoSegments(startPosition: int, currentPosition: int, segmentFileLength: int)
    requires segmentFileLength > 0
    requires startPosition >= 0
    ensures PlanPurge(startPosition, currentPosition, segmentFileLength) > 0
      <==> currentPosition - startPosition >= 2 * segmentFileLength
  {

  }

  /** Three worked plans: a full third segment, less than one segment, and a stopped recording. */
  lemma PlanPurgeExamples()
    ensures PlanPurge(0, 3072, 1024) == 2048
    ensures PlanPurge(1024, 1500, 1024) == NO_PURGE
    ensures PlanPurge(0, 5000, 1000) == 4000
  {
  }
}
