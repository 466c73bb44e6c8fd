/** Choosing the video source from the command line and classifying it
    before anything is opened (app.py, `main` and the head of
    `multi_model_detection`). */
module Sources {
  import opened Wrappers

  /** The value passed to the detection loop: the camera index is an
      integer, a stream URI or a file path is a string. */
  datatype VideoSource = CameraIndex(index: int) | Location(text: string)

  /** The three kinds of source the loop distinguishes. */
  datatype SourceKind = Camera | File | Stream

  /** Reasons the program stops before the loop starts. */
  datatype StartupError =
    | UnsupportedSource(location: string)   // neither a network URI nor an existing path
    | OpenFailed                            // the first open of the capture failed

  predicate StartsWith(s: string, prefix: string) {
    |prefix| <= |s| && s[..|prefix|] == prefix
  }

  /** The two URI schemes the program treats as a live stream. */
  predicate IsNetworkUri(s: string) {
    StartsWith(s, "rtsp://") || StartsWith(s, "http://")
  }

  /** Python truthiness of an optional string argument: absent and empty
      are both false. */
  predicate Given(arg: Option<string>) {
    arg.Some? && arg.value != ""
  }

  /** The source is chosen in priority order: stream URI, then video file,
      then camera index. */
  function SelectSource(rtsp: Option<string>, video: Option<string>, camera: int): (r: VideoSource)
    ensures Given(rtsp) ==> r == Location(rtsp.value)
    ensures !Given(rtsp) && Given(video) ==> r == Location(video.value)
    ensures r.CameraIndex? <==> !Given(rtsp) && !Given(video)
    ensures r.CameraIndex? ==> r.index == camera
  {
    if Given(rtsp) then Location(rtsp.value)
    else if Given(video) then Location(video.value)
    else CameraIndex(camera)
  }

  /** Classifies the chosen source; `pathExists` is the file-system oracle
      answering whether a path exists (a file or a directory). */
  function Classify(src: VideoSource, pathExists: string -> bool): (r: Result<SourceKind, StartupError>)
    ensures src.CameraIndex? ==> r == Success(Camera)
    ensures src.Location? ==> (r == Success(Stream) <==> IsNetworkUri(src.text))
    ensures src.Location? ==> (r == Success(File) <==> !IsNetworkUri(src.text) && pathExists(src.text))
    ensures r.Failure? <==> src.Location? && !IsNetworkUri(src.text) && !pathExists(src.text)
    ensures r.Failure? ==> r.error == UnsupportedSource(src.text)
  {
    match src
    case CameraIndex(_) => Success(Camera)
    case Location(s) =>
      if IsNetworkUri(s) then Success(Stream)
      else if pathExists(s) then Success(File)
      else Failure(UnsupportedSource(s))
  }

  /** `StartsWith` agrees with the reference definition "the string is the
      prefix followed by something". */
  lemma StartsWithIsPrefix(s: string, prefix: string)
    ensures StartsWith(s, prefix) <==> exists rest :: s == prefix + rest
  {
    if StartsWith(s, prefix) {
      assert s == prefix + s[|prefix|..];
    }
    if exists rest :: s == prefix + rest {
      var rest :| s == prefix + rest;
      assert s[..|prefix|] == prefix;
    }
  }

  /** Any string that starts with a stream scheme is a stream. */
  lemma SchemePrefixMakesStream(rest: string, pathExists: string -> bool)
    ensures Classify(Location("rtsp://" + rest), pathExists) == Success(Stream)
    ensures Classify(Location("http://" + rest), pathExists) == Success(Stream)
  {
    StartsWithIsPrefix("rtsp://" + rest, "rtsp://");
    StartsWithIsPrefix("http://" + rest, "http://");
  }

  /** Only the two listed schemes count: an `https://` address is treated as
      a path, so it is a file if it exists and rejected otherwise. */
  lemma HttpsIsNotAStream(rest: string, pathExists: string -> bool)
    ensures Classify(Location("https://" + rest), pathExists) != Success(Stream)
    ensures !pathExists("https://" + rest) ==> Classify(Location("https://" + rest), pathExists).Failure?
  {
    var s := "https://" + rest;
    assert s[4] == 's';
    assert !StartsWith(s, "http://") by { assert "http://"[4] == ':'; }
    assert !StartsWith(s, "rtsp://") by { assert "rtsp://"[0] == 'r' && s[0] == 'h'; }
  }

  /** A stream URI passed as `--rtsp` wins over any video path and camera
      index; an empty `--rtsp` is as good as none. */
  lemma StreamArgumentWins(uri: string, video: Option<string>, camera: int, pathExists: string -> bool)
    requires IsNetworkUri(uri)
    ensures Classify(SelectSource(Some(uri), video, camera), pathExists) == Success(Stream)
    ensures SelectSource(Some(""), video, camera) == SelectSource(None, video, camera)
  {
  }
}
