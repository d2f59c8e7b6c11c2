/**
 * The missing / found-in-corridor state machine for the one monitored
 * student (the tail of VideoCamera.get_frame in core/camera.py).
 *
 * Time is an integer number of milliseconds; notifications and log writes
 * are returned as alerts instead of being sent.
 */
module Presence {
  import opened Optional
  import Text

  /** 15.0 seconds, in milliseconds; an absence must last strictly longer. */
  const MISSING_THRESHOLD_MS: int := 15000
  const TARGET_STUDENT: string := "Dev"

  /** The monitored name as it is compared: stripped and lower-cased. */
  const TARGET_KEY: string := "dev"

  /** TARGET_KEY is the normalised monitored name. */
  lemma TargetKeyIsNormalized()
    ensures Text.Normalize(TARGET_STUDENT) == TARGET_KEY
  {
    assert Text.TrimStart(TARGET_STUDENT) == TARGET_STUDENT;
    assert Text.TrimEnd(TARGET_STUDENT) == TARGET_STUDENT;
  }

  /** `n.strip().lower() == TARGET_STUDENT.strip().lower()` */
  predicate IsTarget(n: string) {
    Text.Normalize(n) == TARGET_KEY
  }

  /** `any(... for n in names)` */
  predicate TargetIn(names: seq<string>) {
    exists i :: 0 <= i < |names| && IsTarget(names[i])
  }

  /**
   * last_seen_time, target_detected_once, email_sent, corridor_alert_sent.
   * email_sent records that a missing alert was attempted, whether or not
   * the mail went out.
   */
  datatype Tracker = Tracker(lastSeen: Option<int>, seenOnce: bool, emailSent: bool, corridorSent: bool)

  const Initial := Tracker(None, false, false, false)

  /** The student has a last-seen time exactly when seen once, and alerts only follow a first sighting. */
  ghost predicate Valid(t: Tracker) {
    && (t.seenOnce <==> t.lastSeen.Some?)
    && (t.emailSent ==> t.seenOnce)
  }

  /** Missing alert mail, corridor alert mail, and the "found again in class" log entry. */
  datatype Alert =
    | SendMissing(name: string, elapsed: int)
    | SendCorridor(name: string, at: int)
    | LogReturn(name: string)

  /** What one tick contributes: a classroom sighting, a corridor sighting, the clock. */
  datatype Sighting = Sighting(inClass: bool, inCorridor: bool, now: int)

  datatype Outcome = Outcome(tracker: Tracker, alerts: seq<Alert>)

  /** Elapsed absence; an unset (or zero, hence falsy) last-seen time counts as no absence. */
  function Elapsed(lastSeen: Option<int>, now: int): (e: int)
    ensures lastSeen.None? || lastSeen == Some(0) ==> e == 0
    ensures lastSeen.Some? && lastSeen.value != 0 ==> e == now - lastSeen.value
  {
    if lastSeen.Some? && lastSeen.value != 0 then now - lastSeen.value else 0
  }

  /** Alert logic runs and the absence exceeds the threshold. */
  predicate Overdue(t: Tracker, now: int) {
    t.seenOnce && Elapsed(t.lastSeen, now) > MISSING_THRESHOLD_MS
  }

  /**
   * An absence is overdue exactly when the student was seen once at a
   * non-zero time more than 15 s ago; a last sighting at time 0 is falsy in
   * the source and never makes the student overdue.
   */
  lemma OverdueExactly(t: Tracker, now: int)
    ensures Overdue(t, now) <==>
              t.seenOnce && t.lastSeen.Some? && t.lastSeen.value != 0 && now - t.lastSeen.value > MISSING_THRESHOLD_MS
    ensures t.lastSeen == Some(0) ==> !Overdue(t, now)
  {
  }

  /** The match ignores surrounding whitespace and ASCII case, and nothing else. */
  lemma TargetSpellings()
    ensures IsTarget(" DEV\n") && IsTarget("dEv")
    ensures !IsTarget("Devon") && !IsTarget("D ev")
  {
    assert Text.TrimStart(" DEV\n") == "DEV\n";
    assert Text.TrimEnd("DEV\n") == "DEV";
    assert Text.Lower("DEV") == "dev";
    assert Text.TrimStart("dEv") == "dEv" && Text.TrimEnd("dEv") == "dEv";
    assert Text.Lower("dEv") == "dev";
    assert Text.TrimStart("Devon") == "Devon" && Text.TrimEnd("Devon") == "Devon";
    assert |Text.Lower("Devon")| == 5;
    assert Text.TrimStart("D ev") == "D ev" && Text.TrimEnd("D ev") == "D ev";
    assert Text.Lower("D ev")[1] == ' ';
  }

  /**
   * One tick. A classroom sighting records the time, re-arms the missing
   * alert and logs a return when an alert was out; the corridor flag is left
   * as it is. Otherwise, once overdue, the first tick sends the missing alert
   * (and re-arms the corridor alert), and a later tick that sees the student
   * in the corridor sends the corridor alert once.
   */
  function Step(t: Tracker, s: Sighting): (o: Outcome)
    ensures Valid(t) ==> Valid(o.tracker)
    ensures |o.alerts| <= 1
    ensures !t.seenOnce && !s.inClass ==> o == Outcome(t, [])
    ensures s.inClass ==>
              && o.tracker == Tracker(Some(s.now), true, false, t.corridorSent)
              && o.alerts == (if t.emailSent then [LogReturn(TARGET_STUDENT)] else [])
    ensures !s.inClass && Overdue(t, s.now) && !t.emailSent ==>
              && o.tracker == t.(emailSent := true, corridorSent := false)
              && o.alerts == [SendMissing(TARGET_STUDENT, Elapsed(t.lastSeen, s.now))]
    ensures !s.inClass && Overdue(t, s.now) && t.emailSent && s.inCorridor && !t.corridorSent ==>
              && o.tracker == t.(corridorSent := true)
              && o.alerts == [SendCorridor(TARGET_STUDENT, s.now)]
    ensures !s.inClass && !(Overdue(t, s.now) && (!t.emailSent || (s.inCorridor && !t.corridorSent))) ==>
              o == Outcome(t, [])
  {
    var back := if s.inClass && t.emailSent then [LogReturn(TARGET_STUDENT)] else [];
    var t1 := if s.inClass then t.(lastSeen := Some(s.now), emailSent := false, seenOnce := true) else t;
    var elapsed := Elapsed(t1.lastSeen, s.now);
    if !t1.seenOnce || !(elapsed > MISSING_THRESHOLD_MS) then Outcome(t1, back)
    else
      var corridor := s.inCorridor && t1.emailSent && !t1.corridorSent;
      var t2 := if corridor then t1.(corridorSent := true) else t1;
      var found := if corridor then [SendCorridor(TARGET_STUDENT, s.now)] else [];
      if !t2.emailSent then
        Outcome(t2.(emailSent := true, corridorSent := false), back + found + [SendMissing(TARGET_STUDENT, elapsed)])
      else
        Outcome(t2, back + found)
  }

  /**
   * Whenever the absence is overdue after a tick, the student was not seen
   * in class on that tick and the missing alert has gone out.
   */
  lemma OverdueAfterStepMeansAlerted(t: Tracker, s: Sighting)
    ensures Overdue(Step(t, s).tracker, s.now) ==> !s.inClass && Step(t, s).tracker.emailSent
  {
  }

  /** A sequence of ticks, alerts concatenated in order. */
  function Run(t: Tracker, ticks: seq<Sighting>): Outcome
    decreases |ticks|
  {
    if ticks == [] then Outcome(t, [])
    else
      var first := Step(t, ticks[0]);
      var rest := Run(first.tracker, ticks[1..]);
      Outcome(rest.tracker, first.alerts + rest.alerts)
  }

  function CountMissing(alerts: seq<Alert>): nat {
    if alerts == [] then 0 else (if alerts[0].SendMissing? then 1 else 0) + CountMissing(alerts[1..])
  }

  function CountCorridor(alerts: seq<Alert>): nat {
    if alerts == [] then 0 else (if alerts[0].SendCorridor? then 1 else 0) + CountCorridor(alerts[1..])
  }

  lemma {:induction false} CountAppend(a: seq<Alert>, b: seq<Alert>)
    ensures CountMissing(a + b) == CountMissing(a) + CountMissing(b)
    ensures CountCorridor(a + b) == CountCorridor(a) + CountCorridor(b)
  {
    if a != [] {
      assert (a + b)[1..] == a[1..] + b;
      CountAppend(a[1..], b);
    } else {
      assert a + b == b;
    }
  }

  predicate Absent(ticks: seq<Sighting>) {
    forall i :: 0 <= i < |ticks| ==> !ticks[i].inClass
  }

  predicate OverdueSomewhere(t: Tracker, ticks: seq<Sighting>) {
    exists i :: 0 <= i < |ticks| && Overdue(t, ticks[i].now)
  }

  /**
   * During a continuous absence exactly one missing alert goes out when the
   * absence becomes overdue at some tick and no alert was out yet, and none
   * otherwise.
   */
  lemma {:induction false} OneMissingAlertPerAbsence(t: Tracker, ticks: seq<Sighting>)
    requires Absent(ticks)
    ensures CountMissing(Run(t, ticks).alerts) == (if !t.emailSent && OverdueSomewhere(t, ticks) then 1 else 0)
    ensures Run(t, ticks).tracker.emailSent == (t.emailSent || OverdueSomewhere(t, ticks))
    decreases |ticks|
  {
    if ticks != [] {
      var first := Step(t, ticks[0]);
      var rest := ticks[1..];
      assert Absent(rest) by {
        forall i | 0 <= i < |rest| ensures !rest[i].inClass {
          assert rest[i] == ticks[i + 1];
        }
      }
      OneMissingAlertPerAbsence(first.tracker, rest);
      CountAppend(first.alerts, Run(first.tracker, rest).alerts);
      assert first.tracker.seenOnce == t.seenOnce && first.tracker.lastSeen == t.lastSeen;
      assert OverdueSomewhere(first.tracker, rest) == OverdueSomewhere(t, rest) by {
        assert forall i :: 0 <= i < |rest| ==> Overdue(first.tracker, rest[i].now) == Overdue(t, rest[i].now);
      }
      assert OverdueSomewhere(t, ticks) == (Overdue(t, ticks[0].now) || OverdueSomewhere(t, rest)) by {
        if OverdueSomewhere(t, ticks) {
          var i :| 0 <= i < |ticks| && Overdue(t, ticks[i].now);
          if i > 0 {
            assert rest[i - 1] == ticks[i];
          }
        }
        if OverdueSomewhere(t, rest) {
          var i :| 0 <= i < |rest| && Overdue(t, rest[i].now);
          assert rest[i] == ticks[i + 1];
        }
      }
    }
  }

  /**
   * During a continuous absence at most one corridor alert goes out, and
   * none when one was already sent in the ongoing missing episode.
   */
  lemma {:induction false} CorridorAlertAtMostOncePerAbsence(t: Tracker, ticks: seq<Sighting>)
    requires Absent(ticks)
    ensures CountCorridor(Run(t, ticks).alerts) <= (if t.emailSent && t.corridorSent then 0 else 1)
    decreases |ticks|
  {
    if ticks != [] {
      var first := Step(t, ticks[0]);
      var rest := ticks[1..];
      assert Absent(rest) by {
        forall i | 0 <= i < |rest| ensures !rest[i].inClass {
          assert rest[i] == ticks[i + 1];
        }
      }
      CorridorAlertAtMostOncePerAbsence(first.tracker, rest);
      CountAppend(first.alerts, Run(first.tracker, rest).alerts);
    }
  }

  /** Until the student is first seen in class nothing is sent and nothing changes. */
  lemma {:induction false} SilentUntilFirstSighting(t: Tracker, ticks: seq<Sighting>)
    requires !t.seenOnce && Absent(ticks)
    ensures Run(t, ticks) == Outcome(t, [])
    decreases |ticks|
  {
    if ticks != [] {
      var rest := ticks[1..];
      assert Absent(rest) by {
        forall i | 0 <= i < |rest| ensures !rest[i].inClass {
          assert rest[i] == ticks[i + 1];
        }
      }
      SilentUntilFirstSighting(t, rest);
    }
  }

  /**
   * A return to class re-arms the missing alert even after a corridor alert:
   * the next overdue absence sends a fresh missing alert.
   */
  lemma ReturnRearmsMissingAlert(t: Tracker, back: Sighting, later: Sighting)
    requires back.inClass && back.now != 0
    requires !later.inClass && later.now - back.now > MISSING_THRESHOLD_MS
    ensures Step(Step(t, back).tracker, later).alerts == [SendMissing(TARGET_STUDENT, later.now - back.now)]
    ensures !Step(Step(t, back).tracker, later).tracker.corridorSent
  {
  }
}
