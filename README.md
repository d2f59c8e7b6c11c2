# Classroom camera attendance: a verified model

This project models the logic behind a Django classroom-monitoring
application.

The centre of the model is the `VideoCamera` object of `core/camera.py`. Each
call to `get_frame` runs one tick:

- return at once if the camera was released;
- load the detector, the face gallery and today's attendance, once;
- reopen closed cameras on a tick-counted retry gate, rejecting a corridor
  camera that mirrors the classroom feed;
- read both cameras and advance the frame counter;
- run face recognition every 90th tick, reusing the cached result otherwise;
- record attendance once per person from the classroom names;
- drive the missing / found-in-corridor alerts for the monitored student.

`get_cctv_frame` is the same retry and read without analysis. A camera that
gives no frame is dropped.

Around the camera, `core/views.py` keeps one camera object and a lock
(`camera`, `CAMERA_ENABLED`) in module globals. It also holds:

- the daily attendance report, which partitions people into present and
  absent;
- the checks of the registration, sign-up and password-reset forms.

The model is layered:

- `Streams`, `Recognition`, `Attendance`, `Presence` and `Text` define each
  rule of a tick as functions and prove what it promises.
- `Camera` composes them into `FrameStep` / `CctvStep` on a snapshot of the
  object's fields.
- `Camera.VideoCamera` is a class with the same fields. Its methods update
  those fields step by step and are proved to perform exactly those
  transitions.
- Lemmas over call sequences state what holds across many ticks.
- `Views.Server` holds the two globals.
- `Report` and `Accounts` model the report and form views as functions. The
  report's loop is a method proved against them.

The outside world enters as parameters, and effects leave as intents:

- Parameters: whether a device opens or delivers a frame, the detector's
  boxes, the encoder's distance rows, the mirror mean difference, which
  database writes fail, and the clock in milliseconds.
- Intents: attendance creates, missing alerts, corridor alerts and
  "found again" log entries.

## Model

| member | source | states |
|---|---|---|
| Streams.OpenStream | core/camera.py:83-133 | A handle is returned iff the device opened, its first read succeeded, and the candidate is not a mirror (open, readable reference with mean difference below 5.0); the handle is then the opened device |
| Streams.MirrorRejected | core/camera.py:107-126 | A corridor candidate whose mean difference from an open, readable classroom feed is below 5.0 is refused |
| Streams.Sense | core/camera.py:296-305 | A held handle stays held; it reports open only if it was open and the device is still live |
| Streams.Reopen | core/camera.py:296-301 | Helper of the retry gate; what the reopened handle means for a caller is stated by Streams.RetryRestoresCameras |
| Streams.Retry | core/camera.py:293-301 | The retry gate; its meaning (nothing before it is due, afterwards each camera open iff it was or its reopen succeeded) is stated by Streams.RetryRestoresCameras and Streams.RetryKeepsOpenHandles |
| Streams.RetryRestoresCameras | core/camera.py:293-301 | Before the gate is due the handles and the retry mark are unchanged; once due, camera 1 is open afterwards iff it was open or its device opened and read, camera 2 likewise and also not a mirror of the new camera 1, and the retry mark is this tick |
| Streams.RetryKeepsOpenHandles | core/camera.py:293-301 | Open handles are never replaced, and any replacement happens only when the gate is due and records this tick |
| Recognition.ArgMin | core/camera.py:272 | The result is the first index of a minimum distance (numpy argmin tie-break) |
| Recognition.FirstMinUnique | core/camera.py:272 | The first minimum is unique, so the choice is deterministic |
| Recognition.ResolveName | core/camera.py:267-274 | Empty gallery gives "Unknown"; no distance below 0.65 gives "Unknown"; otherwise the name at the first minimum whose distance is below 0.65 |
| Recognition.ResolveNames | core/camera.py:266-275 | The append loop yields exactly one name per encoding, each the resolved name of that encoding |
| Recognition.Throttle | core/camera.py:247-278 | No frame: no names, cache untouched; a non-sampling tick returns and re-stores the cached names; a sampling tick stores this frame's boxes and one resolved name per encoding, or no names when the encoder failed |
| Recognition.NextSamplingTick | core/camera.py:248-253 | Any 90 consecutive ticks contain exactly one sampling tick |
| Text.TrimStartIsSuffix | core/camera.py:418 | Leading whitespace removal leaves a suffix starting with a non-space, having dropped only spaces |
| Text.TrimEndIsPrefix | core/camera.py:418 | Trailing whitespace removal leaves a prefix ending with a non-space, having dropped only spaces |
| Text.StripIsSlice | core/camera.py:418 | strip() keeps exactly the slice between a leading and a trailing whitespace run |
| Text.StripIdempotent | core/camera.py:418 | Stripping a stripped string changes nothing |
| Text.LowerChar | core/camera.py:418 | Character case mapping; its meaning on names is stated by Text.LowerFolds |
| Text.LowerFolds | core/camera.py:418 | lower() keeps the length, leaves no upper-case ASCII letter, changes each character only by mapping an upper-case letter to its lower-case one, and is idempotent |
| Presence.TargetKeyIsNormalized | core/camera.py:418 | The comparison key "dev" is the stripped, lower-cased monitored name "Dev" |
| Presence.TargetSpellings | core/camera.py:418 | " DEV\n" and "dEv" match the monitored student; "Devon" and "D ev" do not |
| Presence.Elapsed | core/camera.py:438 | Elapsed absence, zero for an unset or zero (falsy) last-seen time; when it makes the student overdue is stated by Presence.OverdueExactly |
| Presence.OverdueExactly | core/camera.py:438-449 | Overdue iff the student was seen once at a non-zero time more than 15 s before now; a last sighting at time 0 never makes the student overdue |
| Presence.Step | core/camera.py:418-469 | The state invariant is kept; a classroom sighting records the time, sets seen-once, clears email_sent, keeps the corridor flag and logs a return iff an alert was out; before a first sighting nothing happens; an overdue absence sends the missing alert once (re-arming the corridor alert); a corridor sighting after that sends one corridor alert; at most one alert per tick |
| Presence.OverdueAfterStepMeansAlerted | core/camera.py:418-469 | If the absence is overdue after a tick, the student was not seen in class on that tick and the missing alert has gone out |
| Presence.OneMissingAlertPerAbsence | core/camera.py:443-469 | Over a continuous absence exactly one missing alert goes out if the absence becomes overdue and none was out, else none; afterwards email_sent records it |
| Presence.CorridorAlertAtMostOncePerAbsence | core/camera.py:449-469 | Over a continuous absence at most one corridor alert goes out, none if one was already sent in this missing episode |
| Presence.SilentUntilFirstSighting | core/camera.py:443 | Before the student was first seen in class, no alert is sent and nothing changes |
| Presence.ReturnRearmsMissingAlert | core/camera.py:420-469 | After a return to class, the next overdue absence sends a fresh missing alert with the new elapsed time and clears the corridor flag |
| Attendance.Counted | core/camera.py:394 | The counted names are exactly the names that are not "Unknown" and are in the gallery, no more of them than names |
| Attendance.Recognized | core/camera.py:389-396 | One entry per counted name, in order and with repeats, each that name's details; every counted name is listed, and every entry comes from one |
| Attendance.RecognizedCons | core/camera.py:389-396 | The list is built in name order: a counted first name puts its details in front of the rest's list, an uncounted one adds nothing |
| Attendance.RecognizedKeepsRepeats | core/camera.py:391-396 | `seen` is never filled, so a name seen twice is listed twice |
| Attendance.ScanNames | core/camera.py:389-411 | The attendance loop over the classroom names never removes a mark (ScanNamesSound states the rest) |
| Attendance.ScanNamesSound | core/camera.py:398-411 | Marks only grow; every create is for a truthy id not marked before, and every counted name whose truthy id is not marked gets one; a newly marked id had a create that did not fail; every create that did not fail marks its id |
| Attendance.ScanWritesFresh | core/camera.py:398-405 | Every create of the scan is for a truthy id that was not marked before it |
| Attendance.ScanMarksByWrites | core/camera.py:398-407 | An id is newly marked only after a create for it that did not fail, and every such create marks its id |
| Attendance.ScanOwedWritten | core/camera.py:394-405 | Every counted name whose truthy id is not yet marked gets a create |
| Attendance.SightedIdMarked | core/camera.py:394-407 | After the scan, every person seen in class with a truthy id is marked unless the create for them failed |
| Attendance.ScanListsRecognized | core/camera.py:389-396 | The recognised list does not depend on marks or write failures |
| Attendance.WritesAreSighted | core/camera.py:394-404 | Every create attempted belongs to a person whose name was seen by the classroom camera |
| Attendance.SucceededWriteNotRepeated | core/camera.py:402-407 | Within one tick, a create attempted twice for the same id must have failed the first time |
| Camera.Initial | core/camera.py:32-57 | A new camera is not released, counts zero ticks, and satisfies the state invariant |
| Camera.Load | core/camera.py:59-81 | After loading the resources are loaded, and loaded resources are never reloaded |
| Camera.CountersBounded | core/camera.py:414-415 | Known plus unknown counts never exceed the number of names; the known set is exactly the non-"Unknown" names |
| Camera.Prepare | core/camera.py:344-357 | The first part of a tick loads the resources once, seeds the marks on loading, applies the retry gate (open live handles kept, retry mark moved only when due), advances the counter, and reports a camera as delivering a frame iff its handle is open and read succeeded |
| Camera.Recognise | core/camera.py:359-371 | Only the two caches change; a stream without a frame reports no names and keeps its cache; off a sampling tick a stream reports and keeps its cached names |
| Camera.Attend | core/camera.py:385-411 | Marks only grow, every create is for a truthy id not marked before, every owed classroom name gets a create, and the recognised list is Recognized of the classroom names |
| Camera.Report | core/camera.py:412-475 | Only the tracker changes; the frame carries both streams' names; the banner shows only after the missing alert went out and never when the student was seen in class |
| Camera.Analyse | core/camera.py:359-475 | The analysis half yields a frame, changes only caches, marks, recognised list and tracker, only adds marks, and creates only for truthy ids not marked before |
| Camera.FrameStep | core/camera.py:341-343 | A released camera answers None and changes nothing |
| Camera.FrameStepSound | core/camera.py:341-475 | A live get_frame yields a frame, advances the counter by one, loads resources once, only adds marks, creates exactly for the truthy, not yet marked ids of the classroom names it reports, every create is for the id of a counted classroom name it reports, marks every such id whose create did not fail, steps the presence tracker on the names it reports, moves the retry mark only when the gate is due, and keeps the invariant; the handles afterwards are the retry gate's on the sensed handles, each pane is live iff its camera is open after the gate and delivered a frame, and each stream's names and cache are the throttled recognition of its frame when it delivered one, and no names with the cache kept when it did not |
| Camera.BannerMeansAlerted | core/camera.py:418-469 | A frame shows the alert banner only once the missing alert has gone out, and never on a tick that saw the student in class |
| Camera.CctvStep | core/camera.py:288-329 | Released gives None and no change; otherwise one more tick, only handles change, each pane is live iff the retry gate's handle for it is open and delivered a frame, a shown camera keeps that handle and one without a frame is dropped, retry moves only when due, invariant kept |
| Camera.CctvShowsCameras | core/camera.py:293-329 | An open, live camera that delivers a frame is shown and kept; a missing or closed one stays dark and dropped until the gate is due, and then shows iff the reopened device opened and delivered frames, the corridor camera also not mirroring the classroom camera |
| Camera.Drop | core/camera.py:140-145 | Release leaves no open handle and keeps a closed or missing one as it was |
| Camera.Released | core/camera.py:138-145 | release() sets released, replaces each open handle by none, keeps a closed or missing handle and the retry mark as they were, changes nothing else, and keeps the invariant |
| Camera.AnyTarget | core/camera.py:418 | The scan returns true iff some name equals the monitored name after strip and lower |
| Camera.DrawFrame | core/camera.py:414-471 | Draws the view Render describes; what that view shows is stated by Camera.RenderMeaning |
| Camera.RenderMeaning | core/camera.py:361-471 | Each pane is live iff its camera delivered a frame, the corridor pane is left out iff it gave none and there is no handle; Known <= Total <= faces named, Known is zero iff every face is Unknown; the status waits iff the student was never seen, turns red from the threshold on, and the banner shows iff the absence is overdue |
| Camera.VideoCamera.constructor | core/camera.py:32-57 | The new object's fields are the initial state |
| Camera.VideoCamera.Release | core/camera.py:138-145 | The fields become the released state of the old fields |
| Camera.VideoCamera.EnsureAnalysisResources | core/camera.py:59-81 | Loads the gallery and seeds attendance_marked with today's ids once; every other field is unchanged |
| Camera.VideoCamera.RetryStreams | core/camera.py:293-301 | The handles and the retry mark become the retry gate applied to the sensed handles; nothing else changes |
| Camera.VideoCamera.ProcessStream | core/camera.py:247-278 | Returns exactly the throttled recognition result for this tick |
| Camera.VideoCamera.MarkAttendance | core/camera.py:389-411 | The marks, the recognised list and the creates attempted are those of the attendance scan of the classroom names |
| Camera.VideoCamera.TrackTarget | core/camera.py:420-469 | The tracker fields and the alerts are one presence step on this tick's sightings |
| Camera.VideoCamera.BeginTick | core/camera.py:345-358 | Resources loaded, retry applied, cameras read and counter advanced as Prepare describes |
| Camera.VideoCamera.RecogniseTick | core/camera.py:360-373 | Each stream that delivered a frame is recognised and its cache stored; a stream without a frame reports no names |
| Camera.VideoCamera.AttendTick | core/camera.py:360-411 | Recognition followed by the attendance scan, as Attend describes |
| Camera.VideoCamera.ReportFrame | core/camera.py:414-471 | Presence step and drawn frame, as Report describes |
| Camera.VideoCamera.GetFrame | core/camera.py:341-475 | The new fields, the frame, the creates and the alerts are exactly FrameStep of the old fields |
| Camera.VideoCamera.GetCctvFrame | core/camera.py:288-339 | The new fields and the view are exactly CctvStep of the old fields |
| Camera.ReleaseIsTerminal | core/camera.py:138-145 | After release, any sequence of calls leaves the state unchanged and every reply is silent |
| Camera.MarkedIdNeverRewritten | core/camera.py:402-407 | Once resources are loaded, a marked id stays marked and no later call attempts a create for it |
| Camera.CounterCountsCalls | core/camera.py:341-358 | Each get_frame or get_cctv_frame call on a live camera advances frame_count by exactly one |
| Views.Handle | core/views.py:26-220 | The lock is lifted only by a logged-in cctv_view or scan_view?start=1; a camera appears only through a feed request while the lock is lifted, and always then; stop_camera leaves no camera and the lock engaged |
| Views.LockHolds | core/views.py:26-49 | Once locked with no camera, no sequence of requests that avoids a logged-in cctv_view or scan_view?start=1 creates a camera or lifts the lock |
| Views.AnonymousRequestsIgnored | core/views.py:189-220 | Anonymous scan, cctv and register requests are redirected by the login guard and leave both globals unchanged |
| Views.StopKeepsFeedDark | core/views.py:44-47 | After stop_camera, a feed request gets no camera until the lock is lifted |
| Views.EnablingStartsFeed | core/views.py:190-220 | After a logged-in cctv_view or scan_view?start=1, the next feed request creates the camera |
| Views.Validate | core/views.py:122-164 | A POST registers iff it has a name, at least five photos, and an existing department when one is given; a missing name and too few photos are reported as such |
| Views.Server.constructor | core/views.py:23-24 | No camera and the lock engaged |
| Views.Server.GetCamera | core/views.py:26-31 | A camera is constructed only when none exists, initialisation is asked for and the lock is lifted; the global is returned either way |
| Views.Server.ReleaseCamera | core/views.py:33-42 | An existing camera is released and dropped; with none, nothing happens |
| Views.Server.StopCamera | core/views.py:44-49 | The lock is engaged and the camera released and dropped |
| Views.Server.ScanView | core/views.py:189-198 | An anonymous request is sent to login with nothing changed; a logged-in one reports start_requested iff `start` is "1" and then lifts the lock |
| Views.Server.CctvView | core/views.py:216-220 | A logged-in visit is shown and lifts the lock; an anonymous one is sent to login with nothing changed |
| Views.Server.RegisterView | core/views.py:104-172 | An anonymous request goes to login and a 127.0.0.1 host is redirected, both with nothing changed; otherwise the lock is engaged, the camera released and dropped, and the form checked |
| Accounts.Signup | core/views.py:400-419 | Users change only when an account is created, which happens iff the user is anonymous, posted matching passwords and a free, non-empty username; the new user is added under the new id |
| Accounts.SignupKeepsUsernamesUnique | core/views.py:410-415 | Signing up never gives a username to a second user |
| Accounts.ResetPassword | core/views.py:494-519 | The password changes iff the session holds a user id and a verified code, the passwords match and the user exists; then only that password changes, that user's codes are deleted and the session is cleared; otherwise nothing changes |
| Accounts.ResetIsOneShot | core/views.py:508-517 | A reset keeps usernames unique, the users and their usernames and e-mails, and cannot be replayed with the cleared session |
| Report.ParseDate | core/views.py:540-543 | Any date accepted is a valid calendar date |
| Report.ParseFormat | core/views.py:540-543 | The canonical YYYY-MM-DD text of every valid date parses back to that date |
| Report.CanonicalForm | core/views.py:540-543 | A ten-character string that parses is the canonical text of its date, except that the day's leading zero may be a blank |
| Report.ShortFieldsAccepted | core/views.py:541 | One-digit month and day are accepted |
| Report.BlankDayAccepted | core/views.py:541 | A blank-padded day is accepted |
| Report.NoLeapDayRefused | core/views.py:541-543 | 29 February of a common year is refused |
| Report.TrailingDigitRefused | core/views.py:541-543 | Text left over after the day is refused |
| Report.ClockFields | core/views.py:565 | The arrival time is eight characters HH:MM:SS whose fields read back as the time |
| Report.OnDate | core/views.py:549 | A record is selected iff it is on the requested date |
| Report.TimesOnPresent | core/views.py:550-557 | The time map has exactly the present ids as keys, and each time is one of that person's records on the day |
| Report.PresentPeople | core/views.py:559-566 | Everyone listed as present is one of the people and has an attendance id |
| Report.AbsentPeople | core/views.py:567-572 | Everyone listed as absent is one of the people and has no attendance id |
| Report.PartitionExact | core/views.py:559-572 | Present and absent together are exactly the people, each once; present iff the id attended |
| Report.PartitionKeepsOrder | core/views.py:546-572 | Both lists keep the name ordering |
| Report.Categorize | core/views.py:559-572 | The loop builds exactly the present rows with their times and the absent rows |
| Report.DailyReport | core/views.py:539-578 | The view answers exactly the report by department name |
| Report.ReportAnswersEveryDate | core/views.py:539-578 | 400 iff the date does not parse; otherwise a report that echoes the date string and lists every person once |
| Report.Expected | core/views.py:539-578 | The corrected report: the 400 answer exactly for an unparsable date, and never a server error (ReportAnswersEveryDate states its content) |
| Report.ExpectedAsWritten | core/views.py:559-578 | The view as written: the 400 answer exactly for an unparsable date, and otherwise either a server error or exactly the corrected report |
| Report.DepartmentBreaksReport | core/views.py:559-578 | As written, a valid date gives a server error iff some person has a department |
| Report.DepartmentExample | core/views.py:559-578 | One person with a department makes the report a server error |

## Left out

- Drawing, colour conversion, frame stacking and JPEG encoding are left out. These are pixel graphics. An encoding failure, which makes get_frame return None after the state update, is not modelled.
- The face detector, the face encoder and the distance computation are external. A tick receives the boxes and the distance rows as inputs.
- The mirror check's pixel arithmetic is left out. It enters as one mean difference.
- Wall-clock time enters as an integer count of milliseconds. One reading serves a whole tick, where the source reads the clock twice.
- SMTP sending and the ORM writes are left out. Mail, attendance creates and MissingLog entries are returned as intents. A failing create is an input set of ids, fixed for the whole tick: a second create for the same id within one tick fails again, where the database could accept the retry.
- The streaming generators, sleeps and garbage collection are transport plumbing and are not modelled.
- Requests and camera calls are atomic and run one after another. In the server, a streaming request may be inside get_frame while stop_camera or register_view calls release() from another request, so a tick already running can still record attendance or send an alert after the release. Camera.ReleaseIsTerminal holds only for calls that start after the release.
- `load_known_faces` and its pickle decoding are not modelled. Loading is given as a gallery of names and details.
- The empty-gallery test uses the names list. The source tests the encodings list, which is loaded alongside it.
- Text.Strip and Text.Lower cover Python's whitespace set and ASCII letters only. Unicode case mapping beyond ASCII is not modelled.
- Report.ParseDate: `%Y` and `%d` accept ASCII digits only, where Python's regular expressions also accept other Unicode decimal digits.
- Report.PartitionKeepsOrder: name order is character-code order, where the database orders by its collation.
- Views.Validate: a department id is matched as a string against a set of existing ids. A non-numeric id, which makes the database lookup raise rather than report an invalid department, is not distinguished.
- Views.Validate: the posted age is not checked. For a name not yet registered, get_or_create stores the raw age, and a blank or non-numeric age makes the database refuse the row (a server error) where the model answers Registered.
- Accounts.Signup: missing POST fields are modelled as strings, not as None. Password hashing is not modelled.
- Accounts.Signup: the email is stored as posted. create_user normalises it first by lower-casing its domain, so "a@EXAMPLE.COM" is stored as "a@example.com".
- Accounts.ResetPassword: the expiry of the one-time code is checked in another view, which is not part of this model.
- Rendering templates, messages, the dashboard, the gallery and edit views, the log views, login, logout and the OTP mail are left out. They are not part of this model.
- `core/models.py` is not part of this model, apart from the Department, Person and Attendance fields the report reads. The `(person, date)` uniqueness is assumed by the report's one-time-per-day rows.
- An id enters attendance_marked only after its attendance create succeeded, so a failed create is attempted again on a later tick.
- A return to class clears email_sent but keeps corridor_alert_sent; the corridor flag is reset only when the next missing alert goes out.
- The calendar date is not an input: attendance_marked is seeded once per camera object and never reset, so the model has no day boundary, and Camera.MarkedIdNeverRewritten holds across one.
- Accounts.Signup: the username is compared as given. Django's create_user normalises it (NFKC) first, so a username equal to a taken one only after normalisation would make the database refuse the row (a server error), where the model creates the account.
- Accounts.ResetPassword: the two posted passwords are strings. When both fields are missing the source compares None with None, passes, and sets an unusable password; that case is not modelled.
- Report.DailyReport stands for a logged-in request; the login guard on the report view is not modelled.

## Findings

| source | as written | input that shows it | evidently intended | confidence | as-written member | corrected member |
|---|---|---|---|---|---|---|
| core/views.py:559-578 | each row carries `person.department`, a Department model instance, which the JSON encoder cannot serialise (Report.DepartmentBreaksReport, Report.DepartmentExample) | a valid date string such as "2024-05-06" and one person with a department | the department's name (or null) in each row (Report.DailyReport, Report.ReportAnswersEveryDate) | not executed; high | Report.ExpectedAsWritten | Report.Expected |
