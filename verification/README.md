# Playback loop of the multi-model detector

The program (`app.py`) reads frames from a camera, a video file or a network
stream, runs a person detector on each frame, draws a face box on the top
part of every person and shows the result in a window with pause (`p`),
manual reconnect (`r`, streams only) and quit (`q`) keys. This project models
the part with real control flow, with OpenCV and the detector abstracted away:

- `Sources` (`sources.dfy`): which command-line argument supplies the source
  (stream URI, then video path, then camera index) and how the chosen value is
  classified as camera, stream (`rtsp://` or `http://`) or file (an existing
  path), or rejected. Path existence is an oracle parameter.
- `Controller` (`controller.dfy`): one iteration of the `while True` loop as a
  pure `Step` from a `State` (source kind, pause flag, frame counter, handle
  open, loop ended) and an `Event` (device has a frame, reopen succeeds, raw
  key code) to the next state and the ordered `Effect`s of the tick (read,
  rewind, release, reopen, show, key poll, toggle, exit); `Run` folds it over a
  finite sequence of events.
- `Session` (`session.dfy`): startup checks, first open, then the loop.
- `Annotator` (`annotator.dfy`): the face sub-box of a `person` detection with
  Python `int()` truncation.
- `Throughput` (`throughput.dfy`): the frame-rate label and its
  `elapsed_time > 0` guard.
- `Wrappers` (`wrappers.dfy`): `Option` and `Result`.

Behaviour of the code worth noting:

- A stream whose automatic reconnect failed still calls `cap.read()` on the
  closed handle on the next tick; that read fails and re-enters automatic
  reconnection. The model emits a `Read` effect for it.
- Reconnects inside the loop build a plain `cv2.VideoCapture(video_source)`
  and do not re-apply the buffer-size and codec settings of the first open.
- The face box is not clamped to the frame.
- A failed first open ends the program, so there is no manual reconnect after
  a failed start. While a stream is down and playback runs, the keyboard is
  never polled, so neither `q`, `p` nor `r` takes effect until a reconnect
  succeeds (`Controller.StreamDownRetriesForever`).
- Only the lower-case keys act, although the printed help names `Q`, `P`
  and `R`.

## Model

| member | source | states |
|---|---|---|
| Sources.SelectSource | app.py:170-175 | the stream URI wins when given and non-empty, then the video path, and the camera index is used exactly when neither string was given |
| Sources.StreamArgumentWins | app.py:170-171 | a stream URI passed as `--rtsp` yields a stream whatever the other arguments are; an empty `--rtsp` counts as absent |
| Sources.Classify | app.py:18-26 | an integer is a camera; a string is a stream iff it starts with `rtsp://` or `http://`, else a file iff the path exists, else it is rejected naming the string |
| Sources.StartsWithIsPrefix | app.py:20 | the prefix test agrees with "the string is the prefix followed by something" |
| Sources.SchemePrefixMakesStream | app.py:20-21 | every string beginning with `rtsp://` or `http://` is classified as a stream |
| Sources.HttpsIsNotAStream | app.py:20-26 | an `https://` address is never a stream, and is rejected when no such path exists |
| Controller.KeyDecoding | app.py:141-147 | a code decodes to quit, pause toggle or reconnect exactly when its low byte is `q`, `p` or `r`, so every other key is no action; no key (-1) and upper-case `Q`/`P`/`R` are no action, and bits above the low byte do not change the decoded key |
| Controller.Initial | app.py:60-62 | the loop starts on the classified source kind, unpaused, with the counter at 0 and an open handle, in a reachable state |
| Controller.Step | app.py:64-156 | a tick keeps the source kind; adds 1 to the counter iff its read yields a frame; reads iff unpaused; displays iff the read succeeds; polls keys iff paused or the read succeeded; flips the pause flag iff a polled `p`; ends the loop iff a polled `q` or a failed camera read, and reports `Exit` exactly then; reports `Toggle` exactly when the pause flag flips; on a polled `r` for a stream ends with release then reopen and leaves the handle open iff the reopen succeeded; changes the handle only by ending the loop or by a reopen, whose outcome it then takes; preserves the reachable-state invariant |
| Controller.Run | app.py:64-158 | a run takes at most one tick per event and one per event unless it ended, never lowers the counter nor raises it by more than the ticks taken, keeps the source kind and the invariant, and takes no tick after the loop ended |
| Controller.FailedReadDispatch | app.py:67-87 | on a failed read a file rewinds and nothing else changes, a stream releases then reopens and its handle is open iff the reopen succeeded, a camera exits; none polls keys |
| Controller.PausedTickSkipsRead | app.py:65-66 | a paused tick performs no read, keeps the counter and starts with the key poll |
| Controller.AtMostOneKeyAction | app.py:141-156 | after the key poll at most one action follows (exit, toggle, or release+reopen), and release+reopen only for a stream on `r` |
| Controller.QuitEndsLoop | app.py:142-143 | a polled `q` ends the loop from either pause state, with exit as the last effect and the handle released |
| Controller.PauseToggleTwice | app.py:144-146 | two polled `p` keys restore the original pause flag |
| Controller.ReleaseBeforeReopen | app.py:73-84 | every reopen is immediately preceded by a release, and a tick reopens at most once |
| Controller.ManualReconnect | app.py:147-156 | a polled `r` on a stream keeps the pause flag and leaves the handle open iff the reopen succeeded; after a success the next running tick with a frame ready displays it and counts it, after a failure the next running tick falls back to read, release, reopen |
| Controller.HandleKeptWithoutReopen | app.py:64-156 | a tick that neither ends the loop nor reopens leaves the handle as it was |
| Controller.OnlyStreamsReconnect | app.py:147-152 | a file or camera tick never releases or reopens the handle |
| Controller.ClosedStreamRetries | app.py:73-84 | an unpaused stream with a closed handle releases and reopens on its next tick whatever the device and the keyboard say |
| Controller.FrameCountCountsDisplays | app.py:66-89 | at the end of a run the counter equals its start plus the number of ticks that displayed a frame |
| Controller.StreamDownRetriesForever | app.py:73-84 | while every reopen fails, an unpaused closed stream stays in the same state forever, each tick being read, release, failed reopen, so no key ends it |
| Controller.OnlyQuitEndsNonCameraLoop | app.py:67-87 | a file or stream loop that ended did so on its last tick, which polled the keyboard and read `q` |
| Controller.PausedLoopStaysFrozen | app.py:65-89 | a paused loop without `p` keys stays paused, reads nothing and counts nothing |
| Session.Start | app.py:18-42 | the loop is entered iff classification succeeds and the first open succeeds, in the initial state; an unsupported source is rejected before the open |
| Session.Play | app.py:162-177 | the loop runs iff the selected source is classified and its first open succeeds, and then it is the loop run from the initial unpaused state on the classified kind; otherwise the startup error is returned; when it runs the final state is reachable, the counter equals the displayed ticks, and the run either ended or used every event |
| Session.OpenFailureTakesNoTick | app.py:40-42 | a failed first open returns without a tick |
| Session.UnsupportedSourceRejectedBeforeOpen | app.py:22-26 | a missing path is rejected the same way whatever the open would have answered |
| Session.DefaultIsCameraZero | app.py:166-175 | with no arguments camera 0 is used and, once open, played |
| Annotator.Trunc | app.py:107-110 | conversion to pixels truncates toward zero: the result is within one below a non-negative input and within one above a negative one |
| Annotator.FaceBox | app.py:103-110 | a face box exists iff the class is `person`; it keeps the truncated left, right and top, and its bottom is the truncated 40% line for every input; for `0 <= y1 <= y2` its bottom lies between its top and the truncated detection bottom, at most one below the 40% line |
| Annotator.FaceBoxes | app.py:98-113 | a frame gets exactly as many face boxes as it has person detections, every person's face box is among them, and each one comes from a person detection |
| Annotator.IntegerReference | app.py:107-108 | on non-negative pixel-aligned boxes the face bottom is `y1 + 2*(y2-y1)/5` in integer division |
| Annotator.WorkedExample | app.py:103-110 | the box (0,0,100,100) gives the face box (0,0,100,40) |
| Throughput.Rate | app.py:118-123 | a rate is reported iff elapsed time is positive, and then it is non-negative and times the elapsed time gives the frame count |
| Throughput.RateFallsDuringPause | app.py:118-120 | with the counter fixed, a later clock reading never gives a higher rate |

## Left out

- Capture I/O (`VideoCapture`, `read`, `set`, `release`, `isOpened`): their outcomes are `Event` fields and their calls are `Effect`s.
- The buffer-size and codec directives of the first stream open (app.py:32-35): they configure the foreign capture object and change no control flow.
- Video metadata and the `Frame: current/total` overlay (app.py:45-54, 133-136): reads of the capture's properties, display only.
- Detector loading and inference (app.py:10-15, 92-95): an opaque external model; its load failure is one more early return before classification.
- Display (`imshow`, `rectangle`, `putText`, `destroyAllWindows`) and all printed messages; `Show` and `Exit` stand for them.
- `time.sleep` back-off delays and the wall clock: only the order release-then-reopen is kept; the elapsed time is a parameter of `Throughput.Rate`.
- Argument parsing itself (app.py:163-168): the parsed values are the parameters of `Session.Play`.
- Annotator.FaceBox: uses exact real arithmetic for the detector coordinates and `0.4`, not floating-point rounding (the coordinates arrive as single-precision values); the worked example agrees either way.
- Throughput.Rate: uses exact real division, not floating point, so `rate * elapsed == frames` holds only up to rounding in the program; the one-decimal formatting of the label is not modelled.
- File read position: reads are abstract events, so the rewind is an effect and not a cursor reset on a modelled frame index.
