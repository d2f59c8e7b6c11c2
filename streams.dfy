/**
 * The two capture devices: opening with read verification and mirror
 * rejection (VideoCamera.open_stream), and the tick-counted retry gate shared
 * by get_frame and get_cctv_frame (core/camera.py).
 *
 * The device driver is external: an open attempt is described by what the
 * driver reports (opened, first read, reference read) and by the mean pixel
 * difference between the downscaled candidate and reference frames.
 */
module Streams {
  import opened Optional

  /** Ticks that must pass (strictly more) between two reopen attempts. */
  const RETRY_INTERVAL: nat := 450
  /** A mean difference below this marks the candidate as a mirror of the reference. */
  const MIRROR_THRESHOLD: real := 5.0
  /** Device indices of the classroom and the corridor camera. */
  const CLASSROOM_SOURCE: nat := 0
  const CORRIDOR_SOURCE: nat := 1

  /** A capture handle; `open` is what isOpened() currently reports for it. */
  datatype Capture = Capture(src: nat, open: bool)

  /** What the driver reports when open_stream is attempted. */
  datatype OpenAttempt = OpenAttempt(deviceOpened: bool, firstRead: bool, refRead: bool, meanDiff: real)

  /** The handle fields that the retry gate manages. */
  datatype Links = Links(cap1: Option<Capture>, cap2: Option<Capture>, lastRetry: int)

  /** `cap and cap.isOpened()` */
  predicate IsOpen(cap: Option<Capture>) {
    cap.Some? && cap.value.open
  }

  /** The candidate repeats a readable, open reference feed almost exactly. */
  predicate IsMirror(ref: Option<Capture>, a: OpenAttempt) {
    IsOpen(ref) && a.refRead && a.meanDiff < MIRROR_THRESHOLD
  }

  /**
   * open_stream: a handle only for a device that opened, delivered its first
   * frame, and is not a mirror of the reference feed.
   */
  function OpenStream(src: nat, ref: Option<Capture>, a: OpenAttempt): (cap: Option<Capture>)
    ensures cap.Some? <==> a.deviceOpened && a.firstRead && !IsMirror(ref, a)
    ensures cap.Some? ==> cap.value == Capture(src, true)
  {
    if !a.deviceOpened then None
    else if !a.firstRead then None
    else if ref.Some? && ref.value.open && a.refRead && a.meanDiff < MIRROR_THRESHOLD then None
    else Some(Capture(src, true))
  }

  /** The device behind a held handle may have closed since the last tick; it never reopens by itself. */
  function Sense(cap: Option<Capture>, live: bool): (r: Option<Capture>)
    ensures r.Some? <==> cap.Some?
    ensures IsOpen(r) <==> IsOpen(cap) && live
  {
    match cap
    case None => None
    case Some(c) => Some(c.(open := c.open && live))
  }

  predicate RetryDue(frameCount: int, lastRetry: int) {
    frameCount - lastRetry > RETRY_INTERVAL
  }

  /** Reopen a handle only when it is missing or closed. */
  function Reopen(cap: Option<Capture>, src: nat, ref: Option<Capture>, a: OpenAttempt): (r: Option<Capture>)
    ensures IsOpen(cap) ==> r == cap
    ensures !IsOpen(cap) ==> r == OpenStream(src, ref, a)
  {
    if cap.Some? && cap.value.open then cap else OpenStream(src, ref, a)
  }

  /**
   * The retry gate: once more than RETRY_INTERVAL ticks have passed since the
   * last attempt, record this tick and reopen whichever handle is missing or
   * closed, the corridor camera against the (possibly new) classroom handle.
   */
  function Retry(l: Links, frameCount: int, a1: OpenAttempt, a2: OpenAttempt): (r: Links)
    ensures !RetryDue(frameCount, l.lastRetry) ==> r == l
    ensures RetryDue(frameCount, l.lastRetry) ==>
              && r.lastRetry == frameCount
              && r.cap1 == Reopen(l.cap1, CLASSROOM_SOURCE, None, a1)
              && r.cap2 == Reopen(l.cap2, CORRIDOR_SOURCE, r.cap1, a2)
  {
    if !RetryDue(frameCount, l.lastRetry) then l
    else
      var c1 := Reopen(l.cap1, CLASSROOM_SOURCE, None, a1);
      var c2 := Reopen(l.cap2, CORRIDOR_SOURCE, c1, a2);
      Links(c1, c2, frameCount)
  }

  /** An open handle is never replaced, and a replaced one is replaced only when the gate is due. */
  lemma RetryKeepsOpenHandles(l: Links, frameCount: int, a1: OpenAttempt, a2: OpenAttempt)
    ensures var r := Retry(l, frameCount, a1, a2);
            && (IsOpen(l.cap1) ==> r.cap1 == l.cap1)
            && (IsOpen(l.cap2) ==> r.cap2 == l.cap2)
            && (r.cap1 != l.cap1 || r.cap2 != l.cap2 ==> RetryDue(frameCount, l.lastRetry) && r.lastRetry == frameCount)
  {
  }

  /**
   * What the gate achieves: before it is due nothing changes; once due, a
   * camera is open afterwards iff it already was or its device opened and
   * delivered a first frame, and for the corridor camera also is not a
   * mirror of the classroom camera as it now stands.
   */
  lemma RetryRestoresCameras(l: Links, frameCount: int, a1: OpenAttempt, a2: OpenAttempt)
    ensures !RetryDue(frameCount, l.lastRetry) ==> Retry(l, frameCount, a1, a2) == l
    ensures var r := Retry(l, frameCount, a1, a2);
            RetryDue(frameCount, l.lastRetry) ==>
              && (IsOpen(r.cap1) <==> IsOpen(l.cap1) || (a1.deviceOpened && a1.firstRead))
              && (IsOpen(r.cap2) <==> IsOpen(l.cap2) || (a2.deviceOpened && a2.firstRead && !IsMirror(r.cap1, a2)))
              && r.lastRetry == frameCount
  {
  }

  /** A corridor candidate identical to an open, readable classroom feed is rejected. */
  lemma MirrorRejected(ref: Option<Capture>, a: OpenAttempt)
    requires IsOpen(ref) && a.refRead && a.meanDiff < MIRROR_THRESHOLD
    ensures OpenStream(CORRIDOR_SOURCE, ref, a) == None
  {
  }
}
