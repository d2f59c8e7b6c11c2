/**
 * The VideoCamera object of core/camera.py: the per-tick state machine behind
 * get_frame (classroom analysis: retry, throttled recognition, attendance,
 * missing / corridor alerts) and get_cctv_frame (plain two-camera feed), and
 * release().
 *
 * FrameStep, CctvStep and Released describe one call on a snapshot of the
 * object's fields; the class's methods are proved to perform exactly those
 * transitions, and the lemmas at the end are about the snapshots.
 */
module Camera {
  import opened Optional
  import opened Streams
  import opened Recognition
  import opened Attendance
  import Presence
  import Text

  /** What ensure_analysis_resources loads: detector, gallery names, details by name, today's attendance. */
  datatype Resources = Resources(modelOk: bool, names: seq<string>, details: map<string, Details>, todayIds: set<int>)

  /** The loaded analysis resources (known_face_names, known_face_details, model). */
  datatype Gallery = Gallery(loaded: bool, modelLoaded: bool, names: seq<string>, details: map<string, Details>)

  /** The outside world during one call. */
  datatype Sensors = Sensors(
    live1: bool, live2: bool,               // isOpened() of the held handles
    reopen1: OpenAttempt, reopen2: OpenAttempt,
    read1: bool, read2: bool,               // cap.read() delivered a frame
    det1: Detection, det2: Detection,       // detector and encoder output on a sampling tick
    writeFails: set<int>,                   // ids whose Attendance create raises
    now: int)                               // clock, in milliseconds

  /** A camera pane: a live frame, the "LOST" placeholder, or (camera 2 only) left out. */
  datatype Panel = Live | Lost | Omitted

  /** The status line: waiting for the first sighting, or the absence and whether it reached the threshold. */
  datatype Status = AwaitingTarget | Absence(elapsed: int, reached: bool)

  /**
   * What get_frame draws: the panes, the names each stream reports (drawn as
   * labels beside the boxes), the Total/Known counters, the status line and
   * whether the full-frame alert banner is shown.
   */
  datatype FrameView = FrameView(cam1: Panel, cam2: Panel, names1: seq<string>, names2: seq<string>,
                                 total: nat, known: nat, status: Status, banner: bool)

  /** What get_cctv_frame draws: each camera's frame or its "not available" placeholder. */
  datatype CctvView = CctvView(cam1Live: bool, cam2Live: bool)

  /** The fields of a VideoCamera. */
  datatype CameraState = CameraState(
    links: Links, released: bool, frameCount: nat,
    gallery: Gallery, marked: set<int>,
    last1: Cache, last2: Cache,
    tracker: Presence.Tracker, recognized: seq<Details>)

  datatype FrameResult = FrameResult(state: CameraState, view: Option<FrameView>, writes: seq<int>, alerts: seq<Presence.Alert>)
  datatype CctvResult = CctvResult(state: CameraState, view: Option<CctvView>)

  ghost predicate StateValid(st: CameraState) {
    && Presence.Valid(st.tracker)
    && st.links.lastRetry <= st.frameCount
    && (!st.gallery.loaded ==> st.marked == {})
  }

  /** VideoCamera(): both devices opened without mirror check, nothing loaded. */
  function Initial(a1: OpenAttempt, a2: OpenAttempt): (st: CameraState)
    ensures StateValid(st) && !st.released && st.frameCount == 0
  {
    CameraState(Links(OpenStream(CLASSROOM_SOURCE, None, a1), OpenStream(CORRIDOR_SOURCE, None, a2), 0),
                false, 0, Gallery(false, false, [], map[]), {}, EmptyCache, EmptyCache, Presence.Initial, [])
  }

  /** ensure_analysis_resources: load once, then keep. */
  function Load(g: Gallery, res: Resources): (r: Gallery)
    ensures r.loaded
    ensures g.loaded ==> r == g
  {
    if g.loaded then g else Gallery(true, res.modelOk, res.names, res.details)
  }

  /** attendance_marked is seeded with today's ids on loading, and kept afterwards. */
  function MarkedAfterLoad(st: CameraState, res: Resources): set<int> {
    if st.gallery.loaded then st.marked else res.todayIds
  }

  /** Detections of this call fit the gallery that will be in use. */
  predicate FrameFits(st: CameraState, s: Sensors, res: Resources) {
    var known := Load(st.gallery, res).names;
    DetectionFits(s.det1, known) && DetectionFits(s.det2, known)
  }

  function SenseLinks(l: Links, s: Sensors): Links {
    Links(Sense(l.cap1, s.live1), Sense(l.cap2, s.live2), l.lastRetry)
  }

  /** Distinct recognised names across both streams. */
  function KnownSet(names: seq<string>): set<string> {
    if names == [] then {}
    else (if names[0] != UNKNOWN then {names[0]} else {}) + KnownSet(names[1..])
  }

  function CountUnknown(names: seq<string>): nat {
    if names == [] then 0 else (if names[0] == UNKNOWN then 1 else 0) + CountUnknown(names[1..])
  }

  /** The counters never exceed the number of faces named. */
  lemma {:induction false} CountersBounded(names: seq<string>)
    ensures |KnownSet(names)| + CountUnknown(names) <= |names|
    ensures forall n :: n in KnownSet(names) <==> n in names && n != UNKNOWN
  {
    if names != [] {
      CountersBounded(names[1..]);
      assert names == [names[0]] + names[1..];
    }
  }

  /** The status line and banner, from the tracker after this tick's update. */
  function StatusOf(t: Presence.Tracker, now: int): (Status, bool) {
    if t.seenOnce then
      var e := Presence.Elapsed(t.lastSeen, now);
      (Absence(e, !(e < Presence.MISSING_THRESHOLD_MS)), e > Presence.MISSING_THRESHOLD_MS)
    else (AwaitingTarget, false)
  }

  /** After the first part of a tick: which cameras delivered a frame. */
  datatype Prepared = Prepared(state: CameraState, ok1: bool, ok2: bool)

  /** Resources loaded once, retry gate applied, both cameras read, counter advanced. */
  function Prepare(st: CameraState, s: Sensors, res: Resources): (r: Prepared)
    ensures r.state == st.(gallery := Load(st.gallery, res), marked := MarkedAfterLoad(st, res),
                           links := r.state.links, frameCount := st.frameCount + 1)
    ensures r.ok1 <==> IsOpen(r.state.links.cap1) && s.read1
    ensures r.ok2 <==> IsOpen(r.state.links.cap2) && s.read2
    ensures IsOpen(st.links.cap1) && s.live1 ==> r.state.links.cap1 == st.links.cap1
    ensures IsOpen(st.links.cap2) && s.live2 ==> r.state.links.cap2 == st.links.cap2
    ensures r.state.links.lastRetry == st.links.lastRetry
            || (RetryDue(st.frameCount, st.links.lastRetry) && r.state.links.lastRetry == st.frameCount)
  {
    var links := Retry(SenseLinks(st.links, s), st.frameCount, s.reopen1, s.reopen2);
    Prepared(st.(gallery := Load(st.gallery, res), marked := MarkedAfterLoad(st, res),
                 links := links, frameCount := st.frameCount + 1),
             IsOpen(links.cap1) && s.read1, IsOpen(links.cap2) && s.read2)
  }

  /** Throttled recognition on a stream that delivered a frame; a stream without one reports nothing. */
  function RecogniseStream(frameCount: int, g: Gallery, ok: bool, last: Cache, det: Detection): Processed
    requires DetectionFits(det, g.names)
  {
    if ok then Throttle(frameCount, g.modelLoaded, g.names, true, last, det) else Processed([], last)
  }

  /** The drawn frame, from the streams' state and names and the tracker after this tick. */
  function Render(ok1: bool, ok2: bool, cap2: Option<Capture>, names1: seq<string>, names2: seq<string>,
                  t: Presence.Tracker, now: int): FrameView
  {
    var all := names1 + names2;
    var known := |KnownSet(all)|;
    var (status, banner) := StatusOf(t, now);
    FrameView(if ok1 then Live else Lost, if ok2 then Live else if cap2.Some? then Lost else Omitted,
              names1, names2, known + CountUnknown(all), known, status, banner)
  }

  /**
   * What the drawn frame shows: each pane is live iff its camera delivered a
   * frame, and the corridor pane is left out iff it gave none and there is no
   * corridor handle; the counters are bounded by the faces named and Known is
   * zero iff every face is Unknown; the status waits iff the student was never
   * seen, the absence turns red from the threshold on, and the banner shows
   * iff the absence is overdue.
   */
  lemma RenderMeaning(ok1: bool, ok2: bool, cap2: Option<Capture>, names1: seq<string>, names2: seq<string>,
                      t: Presence.Tracker, now: int)
    ensures var v := Render(ok1, ok2, cap2, names1, names2, t, now);
            && (v.cam1 == Live <==> ok1) && (v.cam1 == Lost <==> !ok1)
            && (v.cam2 == Live <==> ok2) && (v.cam2 == Omitted <==> !ok2 && cap2.None?)
            && v.names1 == names1 && v.names2 == names2
            && v.known <= v.total <= |names1| + |names2|
            && (v.known == 0 <==> forall n :: n in names1 + names2 ==> n == UNKNOWN)
            && (v.status == AwaitingTarget <==> !t.seenOnce)
            && (v.status.Absence? ==> v.status.elapsed == Presence.Elapsed(t.lastSeen, now)
                                      && (v.status.reached <==> v.status.elapsed >= Presence.MISSING_THRESHOLD_MS))
            && (v.banner <==> Presence.Overdue(t, now))
  {
    var all := names1 + names2;
    CountersBounded(all);
    if |KnownSet(all)| == 0 {
      assert KnownSet(all) == {};
    } else {
      var n :| n in KnownSet(all);
    }
  }

  /** Names recognised on each stream this tick. */
  datatype Recognised = Recognised(state: CameraState, names1: seq<string>, names2: seq<string>)

  /** Recognition on each stream that delivered a frame; each stream keeps its own cache. */
  function Recognise(st: CameraState, ok1: bool, ok2: bool, s: Sensors): (r: Recognised)
    requires DetectionFits(s.det1, st.gallery.names) && DetectionFits(s.det2, st.gallery.names)
    ensures r.state == st.(last1 := r.state.last1, last2 := r.state.last2)
    ensures !ok1 ==> r.names1 == [] && r.state.last1 == st.last1
    ensures !ok2 ==> r.names2 == [] && r.state.last2 == st.last2
    ensures ok1 && !IsSamplingTick(st.frameCount, st.gallery.modelLoaded) ==> r.names1 == st.last1.names && r.state.last1 == st.last1
    ensures ok2 && !IsSamplingTick(st.frameCount, st.gallery.modelLoaded) ==> r.names2 == st.last2.names && r.state.last2 == st.last2
  {
    var p1 := RecogniseStream(st.frameCount, st.gallery, ok1, st.last1, s.det1);
    var p2 := RecogniseStream(st.frameCount, st.gallery, ok2, st.last2, s.det2);
    Recognised(st.(last1 := p1.cache, last2 := p2.cache), p1.names, p2.names)
  }

  /** Names recognised on each stream this tick, and the attendance creates attempted. */
  datatype Attended = Attended(state: CameraState, names1: seq<string>, names2: seq<string>, writes: seq<int>)

  /** Recognition, then attendance from the classroom names. */
  function Attend(st: CameraState, ok1: bool, ok2: bool, s: Sensors): (a: Attended)
    requires DetectionFits(s.det1, st.gallery.names) && DetectionFits(s.det2, st.gallery.names)
    ensures st.marked <= a.state.marked
    ensures forall i :: 0 <= i < |a.writes| ==> a.writes[i] != 0 && a.writes[i] !in st.marked
    ensures forall i :: 0 <= i < |a.names1| && Owed(a.names1[i], st.gallery.details, st.marked)
              ==> st.gallery.details[a.names1[i]].id in a.writes
    ensures a.state.recognized == Recognized(a.names1, st.gallery.details)
  {
    var r := Recognise(st, ok1, ok2, s);
    var scan := ScanNames(r.names1, st.gallery.details, st.marked, s.writeFails);
    ScanNamesSound(r.names1, st.gallery.details, st.marked, s.writeFails);
    ScanListsRecognized(r.names1, st.gallery.details, st.marked, s.writeFails);
    Attended(r.state.(marked := scan.marked, recognized := scan.recognized), r.names1, r.names2, scan.writes)
  }

  /** The drawn frame and the alerts of this tick. */
  datatype Reported = Reported(state: CameraState, view: FrameView, alerts: seq<Presence.Alert>)

  /** The presence tracker stepped on where the monitored student was seen, then the frame drawn. */
  function Report(st: CameraState, ok1: bool, ok2: bool, names1: seq<string>, names2: seq<string>, now: int): (r: Reported)
    ensures r.state == st.(tracker := r.state.tracker)
    ensures r.view.names1 == names1 && r.view.names2 == names2
    ensures r.view.banner ==> r.state.tracker.emailSent && !Presence.TargetIn(names1)
  {
    var sight := Presence.Sighting(Presence.TargetIn(names1), Presence.TargetIn(names2), now);
    var o := Presence.Step(st.tracker, sight);
    Presence.OverdueAfterStepMeansAlerted(st.tracker, sight);
    RenderMeaning(ok1, ok2, st.links.cap2, names1, names2, o.tracker, now);
    Reported(st.(tracker := o.tracker), Render(ok1, ok2, st.links.cap2, names1, names2, o.tracker, now), o.alerts)
  }

  /** The analysis half of a tick on prepared state. */
  function Analyse(st: CameraState, ok1: bool, ok2: bool, s: Sensors): (r: FrameResult)
    requires DetectionFits(s.det1, st.gallery.names) && DetectionFits(s.det2, st.gallery.names)
    ensures r.view.Some?
    ensures r.state == st.(last1 := r.state.last1, last2 := r.state.last2, marked := r.state.marked,
                           recognized := r.state.recognized, tracker := r.state.tracker)
    ensures st.marked <= r.state.marked
    ensures forall i :: 0 <= i < |r.writes| ==> r.writes[i] != 0 && r.writes[i] !in st.marked
  {
    var a := Attend(st, ok1, ok2, s);
    var r := Report(a.state, ok1, ok2, a.names1, a.names2, s.now);
    FrameResult(r.state, Some(r.view), a.writes, r.alerts)
  }

  /**
   * One get_frame call. A released camera answers None and changes nothing.
   * Otherwise: load resources once, apply the retry gate, read both cameras,
   * advance the frame counter, then analyse the frames read.
   */
  function FrameStep(st: CameraState, s: Sensors, res: Resources): (r: FrameResult)
    requires st.released || FrameFits(st, s, res)
    ensures st.released ==> r == FrameResult(st, None, [], [])
  {
    if st.released then FrameResult(st, None, [], [])
    else
      var pr := Prepare(st, s, res);
      Analyse(pr.state, pr.ok1, pr.ok2, s)
  }

  /**
   * What a get_frame call on a live camera guarantees: a frame, one more
   * tick, resources loaded (and kept once loaded), attendance marks only
   * added, creates exactly for the truthy ids of classroom names not yet
   * marked (and for no id the classroom camera did not see), every such
   * id marked unless its create failed, the presence tracker advanced on
   * the names this frame reports, retries spaced by the gate,
   * and the state invariant kept. The names reported are those of the
   * throttled recognition of each camera that delivered a frame after the
   * retry gate, and nothing for a camera that did not.
   */
  lemma FrameStepSound(st: CameraState, s: Sensors, res: Resources)
    requires st.released || FrameFits(st, s, res)
    ensures var r := FrameStep(st, s, res);
            && (!st.released ==>
                  && r.view.Some? && !r.state.released
                  && r.state.frameCount == st.frameCount + 1
                  && r.state.gallery == Load(st.gallery, res)
                  && MarkedAfterLoad(st, res) <= r.state.marked
                  && (forall i :: 0 <= i < |r.writes| ==> r.writes[i] != 0 && r.writes[i] !in MarkedAfterLoad(st, res))
                  && (forall i :: 0 <= i < |r.view.value.names1| && Owed(r.view.value.names1[i], r.state.gallery.details, MarkedAfterLoad(st, res))
                        ==> r.state.gallery.details[r.view.value.names1[i]].id in r.writes)
                  && (forall i :: 0 <= i < |r.view.value.names1| && Counts(r.view.value.names1[i], r.state.gallery.details)
                                 && r.state.gallery.details[r.view.value.names1[i]].id != 0
                                 && r.state.gallery.details[r.view.value.names1[i]].id !in s.writeFails
                        ==> r.state.gallery.details[r.view.value.names1[i]].id in r.state.marked)
                  && Presence.Step(st.tracker, Presence.Sighting(Presence.TargetIn(r.view.value.names1),
                                                                 Presence.TargetIn(r.view.value.names2), s.now))
                     == Presence.Outcome(r.state.tracker, r.alerts))
            && (r.state.links.lastRetry == st.links.lastRetry
                || (RetryDue(st.frameCount, st.links.lastRetry) && r.state.links.lastRetry == st.frameCount))
            && (StateValid(st) ==> StateValid(r.state))
    ensures !st.released ==>
              var r := FrameStep(st, s, res);
              var l := Retry(SenseLinks(st.links, s), st.frameCount, s.reopen1, s.reopen2);
              var g := Load(st.gallery, res);
              var ok1 := IsOpen(l.cap1) && s.read1;
              var ok2 := IsOpen(l.cap2) && s.read2;
              var p1 := Throttle(st.frameCount + 1, g.modelLoaded, g.names, true, st.last1, s.det1);
              var p2 := Throttle(st.frameCount + 1, g.modelLoaded, g.names, true, st.last2, s.det2);
              && r.state.links == l
              && (r.view.value.cam1 == Live <==> ok1)
              && (r.view.value.cam2 == Live <==> ok2)
              && r.view.value.names1 == (if ok1 then p1.names else [])
              && r.view.value.names2 == (if ok2 then p2.names else [])
              && r.state.last1 == (if ok1 then p1.cache else st.last1)
              && r.state.last2 == (if ok2 then p2.cache else st.last2)
    ensures !st.released ==>
              var r := FrameStep(st, s, res);
              forall i :: 0 <= i < |r.writes| ==> SightedId(r.view.value.names1, r.state.gallery.details, r.writes[i])
  {
    if !st.released {
      var pr := Prepare(st, s, res);
      var p1 := RecogniseStream(pr.state.frameCount, pr.state.gallery, pr.ok1, st.last1, s.det1);
      ScanNamesSound(p1.names, pr.state.gallery.details, pr.state.marked, s.writeFails);
      forall i | 0 <= i < |p1.names| && Counts(p1.names[i], pr.state.gallery.details)
                 && pr.state.gallery.details[p1.names[i]].id != 0 && pr.state.gallery.details[p1.names[i]].id !in s.writeFails
        ensures pr.state.gallery.details[p1.names[i]].id in ScanNames(p1.names, pr.state.gallery.details, pr.state.marked, s.writeFails).marked
      {
        SightedIdMarked(p1.names, pr.state.gallery.details, pr.state.marked, s.writeFails, i);
      }
      var w := ScanNames(p1.names, pr.state.gallery.details, pr.state.marked, s.writeFails).writes;
      forall i | 0 <= i < |w| ensures SightedId(p1.names, pr.state.gallery.details, w[i]) {
        WritesAreSighted(p1.names, pr.state.gallery.details, pr.state.marked, s.writeFails, i);
      }
    }
  }

  /**
   * The alert banner of a frame shows only once the missing alert has gone
   * out, and never on a tick that saw the student in class.
   */
  lemma BannerMeansAlerted(st: CameraState, s: Sensors, res: Resources)
    requires !st.released && FrameFits(st, s, res)
    ensures var r := FrameStep(st, s, res);
            r.view.value.banner ==> r.state.tracker.emailSent && !Presence.TargetIn(r.view.value.names1)
  {
    var pr := Prepare(st, s, res);
    var a := Attend(pr.state, pr.ok1, pr.ok2, s);
    var sight := Presence.Sighting(Presence.TargetIn(a.names1), Presence.TargetIn(a.names2), s.now);
    var o := Presence.Step(a.state.tracker, sight);
    Presence.OverdueAfterStepMeansAlerted(a.state.tracker, sight);
    RenderMeaning(pr.ok1, pr.ok2, a.state.links.cap2, a.names1, a.names2, o.tracker, s.now);
  }

  /**
   * One get_cctv_frame call: no analysis. A camera that delivers no frame is
   * released and dropped, so that the next due retry reopens it.
   */
  function CctvStep(st: CameraState, s: Sensors): (r: CctvResult)
    ensures st.released ==> r == CctvResult(st, None)
    ensures !st.released ==>
              && r.view.Some?
              && r.state == st.(links := r.state.links, frameCount := st.frameCount + 1)
              && (r.view.value.cam1Live <==> IsOpen(r.state.links.cap1))
              && (r.view.value.cam2Live <==> IsOpen(r.state.links.cap2))
              && (!r.view.value.cam1Live ==> r.state.links.cap1.None?)
              && (!r.view.value.cam2Live ==> r.state.links.cap2.None?)
    ensures !st.released ==>
              var l := Retry(SenseLinks(st.links, s), st.frameCount, s.reopen1, s.reopen2);
              && r.view.value == CctvView(IsOpen(l.cap1) && s.read1, IsOpen(l.cap2) && s.read2)
              && r.state.links == Links(if r.view.value.cam1Live then l.cap1 else None,
                                        if r.view.value.cam2Live then l.cap2 else None, l.lastRetry)
    ensures r.state.links.lastRetry == st.links.lastRetry
            || (RetryDue(st.frameCount, st.links.lastRetry) && r.state.links.lastRetry == st.frameCount)
    ensures StateValid(st) ==> StateValid(r.state)
  {
    if st.released then CctvResult(st, None)
    else
      var links := Retry(SenseLinks(st.links, s), st.frameCount, s.reopen1, s.reopen2);
      var ok1 := IsOpen(links.cap1) && s.read1;
      var ok2 := IsOpen(links.cap2) && s.read2;
      var cap1 := if ok1 then links.cap1 else None;
      var cap2 := if ok2 then links.cap2 else None;
      CctvResult(st.(links := Links(cap1, cap2, links.lastRetry), frameCount := st.frameCount + 1),
                 Some(CctvView(ok1, ok2)))
  }

  /**
   * What a get_cctv_frame call on a live camera shows: a camera whose handle
   * is open, whose device is still live and which delivers a frame is shown
   * and its handle kept; a missing or closed handle shows nothing until the
   * retry gate is due, and then shows iff the reopened device opened and
   * delivered frames, the corridor camera also not mirroring the classroom
   * camera as it stands after the gate.
   */
  lemma CctvShowsCameras(st: CameraState, s: Sensors)
    requires !st.released
    ensures var r := CctvStep(st, s);
            var l := Retry(SenseLinks(st.links, s), st.frameCount, s.reopen1, s.reopen2);
            && (IsOpen(st.links.cap1) && s.live1 && s.read1 ==> r.view.value.cam1Live && r.state.links.cap1 == st.links.cap1)
            && (IsOpen(st.links.cap2) && s.live2 && s.read2 ==> r.view.value.cam2Live && r.state.links.cap2 == st.links.cap2)
            && (!(IsOpen(st.links.cap1) && s.live1) ==>
                  if RetryDue(st.frameCount, st.links.lastRetry)
                  then (r.view.value.cam1Live <==> s.reopen1.deviceOpened && s.reopen1.firstRead && s.read1)
                  else !r.view.value.cam1Live && r.state.links.cap1.None?)
            && (!(IsOpen(st.links.cap2) && s.live2) ==>
                  if RetryDue(st.frameCount, st.links.lastRetry)
                  then (r.view.value.cam2Live <==> s.reopen2.deviceOpened && s.reopen2.firstRead
                                                   && !IsMirror(l.cap1, s.reopen2) && s.read2)
                  else !r.view.value.cam2Live && r.state.links.cap2.None?)
  {
  }

  /** release(): mark released and drop the handles that are still open. */
  function Drop(cap: Option<Capture>): (r: Option<Capture>)
    ensures !IsOpen(r)
    ensures !IsOpen(cap) ==> r == cap
  {
    if IsOpen(cap) then None else cap
  }

  function Released(st: CameraState): (r: CameraState)
    ensures r.released && !IsOpen(r.links.cap1) && !IsOpen(r.links.cap2)
    ensures r == st.(released := true, links := r.links)
    ensures r.links.lastRetry == st.links.lastRetry
    ensures IsOpen(st.links.cap1) ==> r.links.cap1.None?
    ensures IsOpen(st.links.cap2) ==> r.links.cap2.None?
    ensures !IsOpen(st.links.cap1) ==> r.links.cap1 == st.links.cap1
    ensures !IsOpen(st.links.cap2) ==> r.links.cap2 == st.links.cap2
    ensures StateValid(st) ==> StateValid(r)
  {
    st.(released := true, links := Links(Drop(st.links.cap1), Drop(st.links.cap2), st.links.lastRetry))
  }

  /** `any(n.strip().lower() == ... for n in names)`: scans until the monitored student is found. */
  method AnyTarget(names: seq<string>) returns (found: bool)
    ensures found <==> Presence.TargetIn(names)
  {
    found := false;
    var i := 0;
    while i < |names| && !found
      invariant 0 <= i <= |names|
      invariant found ==> Presence.TargetIn(names)
      invariant !found ==> forall j :: 0 <= j < i ==> !Presence.IsTarget(names[j])
    {
      found := Text.Normalize(names[i]) == Presence.TARGET_KEY;
      i := i + 1;
    }
  }

  /** The frame's panels, counters, status line and banner. */
  method DrawFrame(ok1: bool, ok2: bool, cap2: Option<Capture>, names1: seq<string>, names2: seq<string>,
                   t: Presence.Tracker, now: int) returns (view: FrameView)
    ensures view == Render(ok1, ok2, cap2, names1, names2, t, now)
  {
    var all := names1 + names2;
    var known := |KnownSet(all)|;
    var total := known + CountUnknown(all);
    var status := AwaitingTarget;
    var banner := false;
    if t.seenOnce {
      var e := Presence.Elapsed(t.lastSeen, now);
      status := Absence(e, !(e < Presence.MISSING_THRESHOLD_MS));
      banner := e > Presence.MISSING_THRESHOLD_MS;
    }
    var panel2 := if ok2 then Live else if cap2.Some? then Lost else Omitted;
    view := FrameView(if ok1 then Live else Lost, panel2, names1, names2, total, known, status, banner);
  }

  /**
   * The camera object. Its fields are those of CameraState; every public
   * method performs exactly the transition the corresponding function above
   * describes.
   */
  class VideoCamera {
    var cap1: Option<Capture>
    var cap2: Option<Capture>
    var lastRetryFrame: int
    var released: bool
    var frameCount: nat
    var analysisResourcesLoaded: bool
    var modelLoaded: bool
    var knownFaceNames: seq<string>
    var knownFaceDetails: map<string, Details>
    var attendanceMarked: set<int>
    var lastData1: Cache
    var lastData2: Cache
    var lastSeenTime: Option<int>
    var targetDetectedOnce: bool
    var emailSent: bool
    var corridorAlertSent: bool
    var currentRecognizedFaces: seq<Details>

    ghost function Snapshot(): CameraState
      reads this
    {
      CameraState(Links(cap1, cap2, lastRetryFrame), released, frameCount,
                  Gallery(analysisResourcesLoaded, modelLoaded, knownFaceNames, knownFaceDetails),
                  attendanceMarked, lastData1, lastData2,
                  Presence.Tracker(lastSeenTime, targetDetectedOnce, emailSent, corridorAlertSent),
                  currentRecognizedFaces)
    }

    ghost function LinksNow(): Links reads this {
      Links(cap1, cap2, lastRetryFrame)
    }

    ghost function GalleryNow(): Gallery reads this {
      Gallery(analysisResourcesLoaded, modelLoaded, knownFaceNames, knownFaceDetails)
    }

    ghost function TrackerNow(): Presence.Tracker reads this {
      Presence.Tracker(lastSeenTime, targetDetectedOnce, emailSent, corridorAlertSent)
    }

    /** Opens both cameras (the corridor one without a mirror reference) and loads nothing yet. */
    constructor(a1: OpenAttempt, a2: OpenAttempt)
      ensures Snapshot() == Initial(a1, a2)
    {
      cap1 := OpenStream(CLASSROOM_SOURCE, None, a1);
      cap2 := OpenStream(CORRIDOR_SOURCE, None, a2);
      knownFaceNames := [];
      knownFaceDetails := map[];
      attendanceMarked := {};
      analysisResourcesLoaded := false;
      modelLoaded := false;
      frameCount := 0;
      lastData1 := EmptyCache;
      lastData2 := EmptyCache;
      lastSeenTime := None;
      emailSent := false;
      lastRetryFrame := 0;
      targetDetectedOnce := false;
      currentRecognizedFaces := [];
      released := false;
      corridorAlertSent := false;
    }

    /** Blocks further reads and retries, and lets go of the open handles. */
    method Release()
      modifies this
      ensures Snapshot() == Released(old(Snapshot()))
    {
      released := true;
      if cap1.Some? && cap1.value.open {
        cap1 := None;
      }
      if cap2.Some? && cap2.value.open {
        cap2 := None;
      }
    }

    /** Loads the detector, the gallery and today's attendance once. */
    method EnsureAnalysisResources(res: Resources)
      modifies this`analysisResourcesLoaded, this`modelLoaded, this`knownFaceNames, this`knownFaceDetails,
               this`attendanceMarked
      ensures Snapshot() == old(Snapshot()).(gallery := Load(old(GalleryNow()), res),
                                             marked := MarkedAfterLoad(old(Snapshot()), res))
    {
      if analysisResourcesLoaded {
        return;
      }
      modelLoaded, knownFaceNames, knownFaceDetails, attendanceMarked, analysisResourcesLoaded
        := res.modelOk, res.names, res.details, res.todayIds, true;
    }

    /** Observes the devices, then reopens missing or closed handles when the retry gate is due. */
    method RetryStreams(s: Sensors)
      modifies this`cap1, this`cap2, this`lastRetryFrame
      ensures Snapshot() == old(Snapshot()).(links := Retry(SenseLinks(old(LinksNow()), s), frameCount, s.reopen1, s.reopen2))
    {
      var c1 := Sense(cap1, s.live1);
      var c2 := Sense(cap2, s.live2);
      var last := lastRetryFrame;
      if frameCount - last > RETRY_INTERVAL {
        last := frameCount;
        if !(c1.Some? && c1.value.open) {
          c1 := OpenStream(CLASSROOM_SOURCE, None, s.reopen1);
        }
        if !(c2.Some? && c2.value.open) {
          c2 := OpenStream(CORRIDOR_SOURCE, c1, s.reopen2);
        }
      }
      cap1, cap2, lastRetryFrame := c1, c2, last;
    }

    /** process_stream_logic, display aside; the caller stores the returned cache. */
    method ProcessStream(hasFrame: bool, cache: Cache, det: Detection) returns (p: Processed)
      requires DetectionFits(det, knownFaceNames)
      ensures p == Throttle(frameCount, modelLoaded, knownFaceNames, hasFrame, cache, det)
    {
      if !hasFrame {
        return Processed([], cache);
      }
      var locations := cache.locations;
      var names := cache.names;
      if frameCount % PROCESS_EVERY_N_FRAMES == 0 && modelLoaded {
        locations := det.boxes;
        names := [];
        if det.encodings.Some? {
          names := ResolveNames(det.encodings.value, knownFaceNames);
        }
      }
      p := Processed(names, Cache(locations, names));
    }

    /**
     * The attendance loop over the classroom names. `seen` is never added
     * to, so a name repeated in one frame is listed once per occurrence.
     */
    method MarkAttendance(names: seq<string>, fails: set<int>) returns (writes: seq<int>)
      modifies this`attendanceMarked, this`currentRecognizedFaces
      ensures Scan(attendanceMarked, currentRecognizedFaces, writes)
              == ScanNames(names, knownFaceDetails, old(attendanceMarked), fails)
    {
      currentRecognizedFaces := [];
      writes := [];
      var seen: set<string> := {};
      var i := 0;
      while i < |names|
        invariant 0 <= i <= |names|
        invariant var rest := ScanNames(names[i..], knownFaceDetails, attendanceMarked, fails);
                  ScanNames(names, knownFaceDetails, old(attendanceMarked), fails)
                    == Scan(rest.marked, currentRecognizedFaces + rest.recognized, writes + rest.writes)
      {
        var n := names[i];
        assert names[i..][1..] == names[i + 1..];
        assert names[i..][0] == n;
        if n != UNKNOWN && n !in seen && n in knownFaceDetails {
          currentRecognizedFaces := currentRecognizedFaces + [knownFaceDetails[n]];
          var id := knownFaceDetails[n].id;
          if id != 0 && id !in attendanceMarked {
            writes := writes + [id];
            if id !in fails {
              attendanceMarked := attendanceMarked + {id};
            }
          }
        }
        i := i + 1;
      }
    }

    /** The missing / corridor logic for this tick, given where the monitored student was seen. */
    method TrackTarget(inClass: bool, inCorridor: bool, now: int) returns (alerts: seq<Presence.Alert>)
      modifies this`lastSeenTime, this`targetDetectedOnce, this`emailSent, this`corridorAlertSent
      ensures Presence.Outcome(TrackerNow(), alerts) == Presence.Step(old(TrackerNow()), Presence.Sighting(inClass, inCorridor, now))
    {
      alerts := [];
      if inClass {
        if emailSent {
          alerts := alerts + [Presence.LogReturn(Presence.TARGET_STUDENT)];
        }
        lastSeenTime := Some(now);
        emailSent := false;
        targetDetectedOnce := true;
      }
      var elapsed := Presence.Elapsed(lastSeenTime, now);
      if targetDetectedOnce && elapsed > Presence.MISSING_THRESHOLD_MS {
        if inCorridor && emailSent && !corridorAlertSent {
          alerts := alerts + [Presence.SendCorridor(Presence.TARGET_STUDENT, now)];
          corridorAlertSent := true;
        }
        if !emailSent {
          alerts := alerts + [Presence.SendMissing(Presence.TARGET_STUDENT, elapsed)];
          emailSent := true;
          corridorAlertSent := false;
        }
      }
    }

    /** The start of get_frame: load resources, retry, read both cameras, count the tick. */
    method BeginTick(s: Sensors, res: Resources) returns (ok1: bool, ok2: bool)
      modifies this`analysisResourcesLoaded, this`modelLoaded, this`knownFaceNames, this`knownFaceDetails,
               this`attendanceMarked, this`cap1, this`cap2, this`lastRetryFrame, this`frameCount
      ensures Prepared(Snapshot(), ok1, ok2) == Prepare(old(Snapshot()), s, res)
    {
      EnsureAnalysisResources(res);
      RetryStreams(s);
      ok1 := IsOpen(cap1) && s.read1;
      ok2 := IsOpen(cap2) && s.read2;
      frameCount := frameCount + 1;
    }

    /** The presence check and the drawn frame. */
    method ReportFrame(ok1: bool, ok2: bool, names1: seq<string>, names2: seq<string>, now: int)
      returns (view: FrameView, alerts: seq<Presence.Alert>)
      modifies this`lastSeenTime, this`targetDetectedOnce, this`emailSent, this`corridorAlertSent
      ensures Reported(Snapshot(), view, alerts) == Report(old(Snapshot()), ok1, ok2, names1, names2, now)
    {
      var inClass := AnyTarget(names1);
      var inCorridor := AnyTarget(names2);
      ghost var before := Snapshot();
      alerts := TrackTarget(inClass, inCorridor, now);
      assert Snapshot() == before.(tracker := TrackerNow());
      view := DrawFrame(ok1, ok2, cap2, names1, names2,
                        Presence.Tracker(lastSeenTime, targetDetectedOnce, emailSent, corridorAlertSent), now);
    }

    /** Throttled recognition on each stream that delivered a frame. */
    method RecogniseTick(ok1: bool, ok2: bool, s: Sensors) returns (names1: seq<string>, names2: seq<string>)
      requires DetectionFits(s.det1, knownFaceNames) && DetectionFits(s.det2, knownFaceNames)
      modifies this`lastData1, this`lastData2
      ensures Recognised(Snapshot(), names1, names2) == Recognise(old(Snapshot()), ok1, ok2, s)
    {
      names1 := [];
      if ok1 {
        var p := ProcessStream(true, lastData1, s.det1);
        names1, lastData1 := p.names, p.cache;
      }
      names2 := [];
      if ok2 {
        var p := ProcessStream(true, lastData2, s.det2);
        names2, lastData2 := p.names, p.cache;
      }
    }

    /** Recognition on both streams and the attendance loop, after the cameras were read. */
    method AttendTick(ok1: bool, ok2: bool, s: Sensors) returns (names1: seq<string>, names2: seq<string>, writes: seq<int>)
      requires DetectionFits(s.det1, knownFaceNames) && DetectionFits(s.det2, knownFaceNames)
      modifies this`lastData1, this`lastData2, this`attendanceMarked, this`currentRecognizedFaces
      ensures Attended(Snapshot(), names1, names2, writes) == Attend(old(Snapshot()), ok1, ok2, s)
    {
      names1, names2 := RecogniseTick(ok1, ok2, s);
      ghost var before := Snapshot();
      writes := MarkAttendance(names1, s.writeFails);
      assert Snapshot() == before.(marked := attendanceMarked, recognized := currentRecognizedFaces);
    }

    /** get_frame: the analysed classroom / corridor frame. */
    method GetFrame(s: Sensors, res: Resources) returns (view: Option<FrameView>, writes: seq<int>, alerts: seq<Presence.Alert>)
      requires released || FrameFits(Snapshot(), s, res)
      modifies this
      ensures FrameResult(Snapshot(), view, writes, alerts) == FrameStep(old(Snapshot()), s, res)
    {
      if released {
        return None, [], [];
      }
      var ok1, ok2 := BeginTick(s, res);
      var names1, names2;
      names1, names2, writes := AttendTick(ok1, ok2, s);
      var frame;
      frame, alerts := ReportFrame(ok1, ok2, names1, names2, s.now);
      view := Some(frame);
    }

    /** get_cctv_frame: both feeds side by side, no analysis. */
    method GetCctvFrame(s: Sensors) returns (view: Option<CctvView>)
      modifies this
      ensures CctvResult(Snapshot(), view) == CctvStep(old(Snapshot()), s)
    {
      if released {
        return None;
      }
      RetryStreams(s);
      var ok1 := IsOpen(cap1) && s.read1;
      var ok2 := IsOpen(cap2) && s.read2;
      frameCount := frameCount + 1;
      if !ok1 {
        cap1 := None;
      }
      if !ok2 {
        cap2 := None;
      }
      view := Some(CctvView(ok1, ok2));
    }
  }

  /** Calls a client can make on the object. */
  datatype Call = FrameCall(s: Sensors, res: Resources) | CctvCall(s: Sensors) | ReleaseCall

  /** Whether a call produced a frame. */
  datatype Reply = FrameReply(frame: FrameResult) | CctvReply(cctv: CctvResult) | ReleaseReply

  predicate Silent(reply: Reply) {
    match reply
    case FrameReply(f) => f.view.None? && f.writes == [] && f.alerts == []
    case CctvReply(c) => c.view.None?
    case ReleaseReply => true
  }

  function Apply(st: CameraState, c: Call): CameraState
    requires c.FrameCall? ==> st.released || FrameFits(st, c.s, c.res)
  {
    match c
    case FrameCall(s, res) => FrameStep(st, s, res).state
    case CctvCall(s) => CctvStep(st, s).state
    case ReleaseCall => Released(st)
  }

  function Answer(st: CameraState, c: Call): Reply
    requires c.FrameCall? ==> st.released || FrameFits(st, c.s, c.res)
  {
    match c
    case FrameCall(s, res) => FrameReply(FrameStep(st, s, res))
    case CctvCall(s) => CctvReply(CctvStep(st, s))
    case ReleaseCall => ReleaseReply
  }

  /** Every frame call in the sequence gets detections that fit its gallery. */
  predicate CallsFit(st: CameraState, calls: seq<Call>)
    decreases |calls|
  {
    calls != [] ==>
      && (calls[0].FrameCall? ==> st.released || FrameFits(st, calls[0].s, calls[0].res))
      && CallsFit(Apply(st, calls[0]), calls[1..])
  }

  /** The state after a sequence of calls. */
  function Final(st: CameraState, calls: seq<Call>): CameraState
    requires CallsFit(st, calls)
    decreases |calls|
  {
    if calls == [] then st else Final(Apply(st, calls[0]), calls[1..])
  }

  /** The reply to the k-th call of a sequence. */
  function ReplyAt(st: CameraState, calls: seq<Call>, k: nat): Reply
    requires CallsFit(st, calls) && k < |calls|
    decreases k
  {
    if k == 0 then Answer(st, calls[0]) else ReplyAt(Apply(st, calls[0]), calls[1..], k - 1)
  }

  /**
   * After release() the object stays released: every later call answers
   * None, records nothing, sends nothing and changes nothing, however many
   * calls follow.
   */
  lemma {:induction false} ReleaseIsTerminal(st: CameraState, calls: seq<Call>)
    requires CallsFit(Released(st), calls)
    ensures Final(Released(st), calls) == Released(st)
    ensures forall k :: 0 <= k < |calls| ==> Silent(ReplyAt(Released(st), calls, k))
    decreases |calls|
  {
    var r := Released(st);
    if calls != [] {
      assert Released(r) == r;
      assert Apply(r, calls[0]) == r;
      ReleaseIsTerminal(st, calls[1..]);
      forall k | 0 <= k < |calls| ensures Silent(ReplyAt(r, calls, k)) {
        if k > 0 {
          assert ReplyAt(r, calls, k) == ReplyAt(r, calls[1..], k - 1);
        }
      }
    }
  }

  /**
   * Once resources are loaded, an id in attendance_marked stays there and no
   * later call attempts to create attendance for it again.
   */
  lemma {:induction false} MarkedIdNeverRewritten(st: CameraState, calls: seq<Call>, id: int)
    requires st.gallery.loaded && id in st.marked
    requires CallsFit(st, calls)
    ensures id in Final(st, calls).marked
    ensures forall k :: 0 <= k < |calls| && ReplyAt(st, calls, k).FrameReply? ==> id !in ReplyAt(st, calls, k).frame.writes
    decreases |calls|
  {
    if calls != [] {
      if calls[0].FrameCall? {
        FrameStepSound(st, calls[0].s, calls[0].res);
      }
      var next := Apply(st, calls[0]);
      assert next.gallery.loaded && id in next.marked;
      MarkedIdNeverRewritten(next, calls[1..], id);
      forall k | 0 <= k < |calls| && ReplyAt(st, calls, k).FrameReply?
        ensures id !in ReplyAt(st, calls, k).frame.writes
      {
        if k > 0 {
          assert ReplyAt(st, calls, k) == ReplyAt(next, calls[1..], k - 1);
        } else if calls[0].FrameCall? {
          FrameStepSound(st, calls[0].s, calls[0].res);
        }
      }
    }
  }

  /** Every call that is not ignored advances the frame counter by exactly one. */
  lemma {:induction false} CounterCountsCalls(st: CameraState, calls: seq<Call>)
    requires !st.released && CallsFit(st, calls)
    requires forall k :: 0 <= k < |calls| ==> !calls[k].ReleaseCall?
    ensures Final(st, calls).frameCount == st.frameCount + |calls|
    decreases |calls|
  {
    if calls != [] {
      var rest := calls[1..];
      assert forall k :: 0 <= k < |rest| ==> !rest[k].ReleaseCall? by {
        forall k | 0 <= k < |rest| ensures !rest[k].ReleaseCall? {
          assert rest[k] == calls[k + 1];
        }
      }
      if calls[0].FrameCall? {
        FrameStepSound(st, calls[0].s, calls[0].res);
      }
      CounterCountsCalls(Apply(st, calls[0]), rest);
    }
  }
}
