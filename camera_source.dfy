/** The state every camera source shares: whether it is running, the frame
    geometry and rate it delivers, the last frame read, the last error and a
    display name. The device-specific sources compose one of these. */
module CameraSources {
  import opened Common

  /** The dictionary get_status returns. */
  datatype Status = Status(running: bool, resolution: (int, int), fps: int, error: Option<string>, name: string)

  /** The fields of a camera source, as a value. */
  datatype SourceState = SourceState(
    isRunning: bool,
    frameWidth: int,
    frameHeight: int,
    fps: int,
    lastFrame: Option<Frame>,
    lastError: Option<string>,
    name: string)

  /** A new source: stopped, 640x480 at 30 fps, no frame, no error, named "Camera". */
  const Initial: SourceState := SourceState(false, 640, 480, 30, None, None, "Camera")

  /** The source's CameraSource base class. */
  class CameraSource {
    var isRunning: bool
    var frameWidth: int
    var frameHeight: int
    var fps: int
    var lastFrame: Option<Frame>
    var lastError: Option<string>
    var name: string

    function State(): SourceState
      reads this
    {
      SourceState(isRunning, frameWidth, frameHeight, fps, lastFrame, lastError, name)
    }

    constructor ()
      ensures State() == Initial
      ensures !isRunning && frameWidth == 640 && frameHeight == 480 && fps == 30
      ensures lastFrame.None? && lastError.None? && name == "Camera"
    {
      isRunning := false;
      frameWidth := 640;
      frameHeight := 480;
      fps := 30;
      lastFrame := None;
      lastError := None;
      name := "Camera";
    }

    /** get_status: the current running flag, resolution, rate, error and name. */
    method GetStatus() returns (st: Status)
      ensures st.running == isRunning && st.resolution == (frameWidth, frameHeight)
      ensures st.fps == fps && st.error == lastError && st.name == name
    {
      st := Status(isRunning, (frameWidth, frameHeight), fps, lastError, name);
    }

    /** set_resolution: both dimensions are stored and the change is reported
        as accepted. */
    method SetResolution(width: int, height: int) returns (ok: bool)
      modifies this`frameWidth, this`frameHeight
      ensures ok && frameWidth == width && frameHeight == height
    {
      frameWidth := width;
      frameHeight := height;
      ok := true;
    }

    /** set_fps: the rate is stored and the change is reported as accepted. */
    method SetFps(fps: int) returns (ok: bool)
      modifies this`fps
      ensures ok && this.fps == fps
    {
      this.fps := fps;
      ok := true;
    }

    /** set_name. */
    method SetName(name: string)
      modifies this`name
      ensures this.name == name
    {
      this.name := name;
    }

    /** _update_error: the last error becomes `error`; None clears it. */
    method UpdateError(error: Option<string>)
      modifies this`lastError
      ensures lastError == error
    {
      lastError := error;
    }
  }

  /** The message a failed read records before reconnecting. */
  function AttemptMessage(attempt: nat, limit: nat): (m: string)
    ensures StartsWith(m, "Failed to read frame (Attempt ")
  {
    var m := "Failed to read frame (Attempt " + NatToString(attempt) + "/" + NatToString(limit) + ")";
    StartsWithConcat("Failed to read frame (Attempt ", NatToString(attempt) + "/" + NatToString(limit) + ")");
    assert m == "Failed to read frame (Attempt " + (NatToString(attempt) + "/" + NatToString(limit) + ")");
    m
  }

  /** Whether a device that reports (aw, ah) after being asked for (w, h)
      honoured the request, to within one pixel either way. */
  predicate Honoured(aw: real, ah: real, w: int, h: int)
  {
    RAbs(aw - w as real) <= 1.0 && RAbs(ah - h as real) <= 1.0
  }
}
