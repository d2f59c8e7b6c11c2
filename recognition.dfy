/**
 * Identity resolution and detection throttling of one stream
 * (VideoCamera.process_stream_logic in core/camera.py).
 *
 * The face detector and the encoder are external: a sampling tick is given
 * the boxes the detector found and, per extracted encoding, its distances to
 * every gallery encoding (or None when the encoder raised).
 */
module Recognition {
  import opened Optional

  /** Largest distance still accepted as a match (strictly below). */
  const TOLERANCE: real := 0.65
  /** Detection runs on ticks whose frame counter is a multiple of this. */
  const PROCESS_EVERY_N_FRAMES: nat := 90
  /** The sentinel name given to a face that matches nobody. */
  const UNKNOWN: string := "Unknown"

  /** A face box (top, right, bottom, left) in downscaled-frame pixels. */
  datatype Box = Box(top: int, right: int, bottom: int, left: int)

  /** What the detector and the encoder report for one frame. */
  datatype Detection = Detection(boxes: seq<Box>, encodings: Option<seq<seq<real>>>)

  /** The per-stream cached result (last_data1 / last_data2). */
  datatype Cache = Cache(locations: seq<Box>, names: seq<string>)

  const EmptyCache := Cache([], [])

  /** The names shown for this frame and the cache stored back. */
  datatype Processed = Processed(names: seq<string>, cache: Cache)

  /** k is the first index at which d is smallest (numpy's argmin). */
  ghost predicate IsFirstMin(d: seq<real>, k: int) {
    && 0 <= k < |d|
    && (forall j :: 0 <= j < |d| ==> d[k] <= d[j])
    && (forall j :: 0 <= j < k ==> d[k] < d[j])
  }

  function ArgMin(d: seq<real>): (k: nat)
    requires |d| > 0
    ensures IsFirstMin(d, k)
  {
    if |d| == 1 then 0
    else
      var k := ArgMin(d[1..]);
      assert forall j :: 1 <= j < |d| ==> d[j] == d[1..][j - 1];
      if d[0] <= d[k + 1] then 0 else k + 1
  }

  /** The first minimum is unique, so the tie-break is deterministic. */
  lemma FirstMinUnique(d: seq<real>, k1: int, k2: int)
    requires IsFirstMin(d, k1) && IsFirstMin(d, k2)
    ensures k1 == k2
  {
    assert d[k1] <= d[k2] && d[k2] <= d[k1];
  }

  /**
   * The distance rows fit the gallery: one distance per known encoding
   * (what face_distance returns). With an empty gallery the rows are unused.
   */
  predicate Fits(distances: seq<real>, known: seq<string>) {
    |known| == 0 || |distances| == |known|
  }

  predicate DetectionFits(det: Detection, known: seq<string>) {
    det.encodings.Some? ==> forall i :: 0 <= i < |det.encodings.value| ==> Fits(det.encodings.value[i], known)
  }

  /** The name of the nearest gallery entry, or UNKNOWN when it is not close enough. */
  function ResolveName(distances: seq<real>, known: seq<string>): (name: string)
    requires Fits(distances, known)
    ensures |known| == 0 ==> name == UNKNOWN
    ensures (forall j :: 0 <= j < |distances| ==> distances[j] >= TOLERANCE) ==> name == UNKNOWN
    ensures |known| > 0 && (exists j :: 0 <= j < |distances| && distances[j] < TOLERANCE) ==>
              exists k :: IsFirstMin(distances, k) && distances[k] < TOLERANCE && name == known[k]
  {
    if |known| == 0 then UNKNOWN
    else
      var best := ArgMin(distances);
      if distances[best] < TOLERANCE then known[best] else UNKNOWN
  }

  /** One name per extracted encoding, in order. */
  function ResolveAll(encodings: seq<seq<real>>, known: seq<string>): (names: seq<string>)
    requires forall i :: 0 <= i < |encodings| ==> Fits(encodings[i], known)
  {
    seq(|encodings|, i requires 0 <= i < |encodings| => ResolveName(encodings[i], known))
  }

  /** The face_names append loop of a sampling tick. */
  method ResolveNames(encodings: seq<seq<real>>, known: seq<string>) returns (names: seq<string>)
    requires forall i :: 0 <= i < |encodings| ==> Fits(encodings[i], known)
    ensures |names| == |encodings|
    ensures forall i :: 0 <= i < |encodings| ==> names[i] == ResolveName(encodings[i], known)
  {
    names := [];
    var i := 0;
    while i < |encodings|
      invariant 0 <= i <= |encodings|
      invariant |names| == i
      invariant forall j :: 0 <= j < i ==> names[j] == ResolveName(encodings[j], known)
    {
      var name: string;
      if |known| == 0 {
        name := UNKNOWN;
      } else {
        name := ResolveName(encodings[i], known);
      }
      names := names + [name];
      i := i + 1;
    }
  }

  /** Detection runs only on every N-th tick and only with a loaded detector. */
  predicate IsSamplingTick(frameCount: int, modelLoaded: bool) {
    frameCount % PROCESS_EVERY_N_FRAMES == 0 && modelLoaded
  }

  /**
   * One call of process_stream_logic, display drawing aside: a missing frame
   * yields no names and leaves the cache alone; a sampling tick replaces the
   * cache with this frame's boxes and names; any other tick re-stores and
   * returns the cached result.
   */
  function Throttle(frameCount: int, modelLoaded: bool, known: seq<string>,
                    hasFrame: bool, cache: Cache, det: Detection): (p: Processed)
    requires DetectionFits(det, known)
    ensures !hasFrame ==> p == Processed([], cache)
    ensures hasFrame && !IsSamplingTick(frameCount, modelLoaded) ==> p.cache == cache && p.names == cache.names
    ensures hasFrame && IsSamplingTick(frameCount, modelLoaded) ==>
              && p.cache.locations == det.boxes
              && p.names == p.cache.names
              && (det.encodings.None? ==> p.names == [])
              && (det.encodings.Some? ==>
                    && |p.names| == |det.encodings.value|
                    && forall i :: 0 <= i < |p.names| ==> p.names[i] == ResolveName(det.encodings.value[i], known))
  {
    if !hasFrame then Processed([], cache)
    else if IsSamplingTick(frameCount, modelLoaded) then
      var names := match det.encodings
        case None => []
        case Some(e) => ResolveAll(e, known);
      Processed(names, Cache(det.boxes, names))
    else Processed(cache.names, cache)
  }

  /** Over any N consecutive ticks exactly one is a sampling tick. */
  function NextSamplingTick(c: int): (k: int)
    ensures c <= k < c + PROCESS_EVERY_N_FRAMES
    ensures k % PROCESS_EVERY_N_FRAMES == 0
    ensures forall j :: c <= j < c + PROCESS_EVERY_N_FRAMES && j % PROCESS_EVERY_N_FRAMES == 0 ==> j == k
  {
    c + (PROCESS_EVERY_N_FRAMES - c % PROCESS_EVERY_N_FRAMES) % PROCESS_EVERY_N_FRAMES
  }
}
