/** A whole run of the program: pick the source, classify it, open it, and
    drive the loop over a finite sequence of events (app.py, `main` and
    `multi_model_detection`). Opening is a foreign call; its outcome is the
    `openOk` parameter. */
module Session {
  import opened Wrappers
  import opened Sources
  import opened Controller

  datatype Outcome =
    | Rejected(error: StartupError)          // returned before the loop
    | Played(kind: SourceKind, trace: Trace) // the loop ran

  /** The checks before the loop: classification first, then the first
      open. Either failure returns without a single tick. */
  function Start(src: VideoSource, pathExists: string -> bool, openOk: bool): (r: Result<State, StartupError>)
    ensures r.Success? <==> Classify(src, pathExists).Success? && openOk
    ensures r.Success? ==> r.value == Initial(Classify(src, pathExists).value)
    ensures Classify(src, pathExists).Failure? ==> r == Failure(Classify(src, pathExists).error)
    ensures Classify(src, pathExists).Success? && !openOk ==> r == Failure(OpenFailed)
  {
    match Classify(src, pathExists)
    case Failure(err) => Failure(err)
    case Success(kind) => if openOk then Success(Initial(kind)) else Failure(OpenFailed)
  }

  /** The program from its command-line arguments to the end of the loop
      (or the end of the given events). */
  function Play(rtsp: Option<string>, video: Option<string>, camera: int,
                pathExists: string -> bool, openOk: bool, events: seq<Event>): (r: Outcome)
    ensures r.Played? <==> Start(SelectSource(rtsp, video, camera), pathExists, openOk).Success?
    ensures r.Played? ==> r.kind == Classify(SelectSource(rtsp, video, camera), pathExists).value
    ensures r.Played? ==> r.trace == Run(Initial(r.kind), events)
    ensures r.Rejected? ==> r.error == Start(SelectSource(rtsp, video, camera), pathExists, openOk).error
    ensures r.Played? ==> openOk && Valid(r.trace.final)
    ensures r.Played? ==> r.trace.final.frameCount == Shown(r.trace.ticks)
    ensures r.Played? ==> r.trace.final.done || |r.trace.ticks| == |events|
  {
    var src := SelectSource(rtsp, video, camera);
    match Start(src, pathExists, openOk)
    case Failure(err) => Rejected(err)
    case Success(s) =>
      FrameCountCountsDisplays(s, events);
      Played(s.kind, Run(s, events))
  }

  /** A failed first open returns before the loop: no tick is ever taken. */
  lemma OpenFailureTakesNoTick(rtsp: Option<string>, video: Option<string>, camera: int,
                               pathExists: string -> bool, events: seq<Event>)
    ensures Play(rtsp, video, camera, pathExists, false, events).Rejected?
  {
  }

  /** An unsupported location is rejected before any open is attempted: the
      outcome does not depend on what the open would have answered. */
  lemma UnsupportedSourceRejectedBeforeOpen(path: string, pathExists: string -> bool,
                                            openOk1: bool, openOk2: bool, events: seq<Event>)
    requires !IsNetworkUri(path) && !pathExists(path) && path != ""
    ensures Play(None, Some(path), 0, pathExists, openOk1, events)
         == Play(None, Some(path), 0, pathExists, openOk2, events)
         == Rejected(UnsupportedSource(path))
  {
  }

  /** With no arguments the program opens camera 0 and, once open, never
      rejects it. */
  lemma DefaultIsCameraZero(pathExists: string -> bool, events: seq<Event>)
    ensures Play(None, None, 0, pathExists, true, events).Played?
    ensures Play(None, None, 0, pathExists, true, events).kind == Camera
  {
  }
}
