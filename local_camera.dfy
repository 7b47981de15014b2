/** A camera attached to this machine, opened by device number. A failed read
    counts an attempt and reconnects (stop, then start) until the attempt
    limit is reached, when the camera is stopped for good; a good read resets
    the count. Starting asks the device for the configured resolution and,
    when the device does not honour it, tries a fixed list of fallbacks.

    The device is a parameter: whether it opens, and what resolution it
    reports after being asked for one. */
module LocalCameras {
  import opened Common
  import opened CameraSources

  /** What the capture device does: whether it opens, and the resolution it
      reports after being asked for (w, h). */
  datatype Device = Device(opens: bool, reports: (int, int) -> (real, real))

  predicate Accepts(dev: Device, c: (int, int))
  {
    var (aw, ah) := dev.reports(c.0, c.1);
    Honoured(aw, ah, c.0, c.1)
  }

  /** The resolutions tried, in order, when the requested one is refused. */
  const Fallbacks: seq<(int, int)> := [(640, 480), (800, 600), (320, 240), (1280, 720), (960, 540)]

  /** The first candidate the device honours, if any. */
  function FirstAccepted(cands: seq<(int, int)>, dev: Device): (r: Option<(int, int)>)
    ensures r.Some? ==>
      exists i :: 0 <= i < |cands| && cands[i] == r.value && Accepts(dev, cands[i])
        && forall j :: 0 <= j < i ==> !Accepts(dev, cands[j])
    ensures r.None? <==> forall i :: 0 <= i < |cands| ==> !Accepts(dev, cands[i])
  {
    if cands == [] then None
    else if Accepts(dev, cands[0]) then Some(cands[0])
    else
      var r := FirstAccepted(cands[1..], dev);
      assert forall i :: 1 <= i < |cands| ==> cands[i] == cands[1..][i - 1];
      r
  }

  /** One step of the search: the head if the device honours it, otherwise
      the search of the rest. */
  lemma FirstAcceptedStep(cands: seq<(int, int)>, dev: Device)
    requires cands != []
    ensures FirstAccepted(cands, dev) ==
      if Accepts(dev, cands[0]) then Some(cands[0]) else FirstAccepted(cands[1..], dev)
  {
  }

  /** The resolution start settles on: the requested one when the device
      honours it, otherwise the first honoured fallback, otherwise the
      requested one after all. */
  function Adopted(w: int, h: int, dev: Device): (r: (int, int))
    ensures Accepts(dev, (w, h)) ==> r == (w, h)
    ensures !Accepts(dev, (w, h)) ==> r == (match FirstAccepted(Fallbacks, dev)
                                          case Some(c) => c
                                          case None => (w, h))
    ensures r == (w, h) || (r in Fallbacks && Accepts(dev, r))
    ensures w > 0 && h > 0 ==> r.0 > 0 && r.1 > 0
  {
    if Accepts(dev, (w, h)) then (w, h)
    else match FirstAccepted(Fallbacks, dev)
      case Some(c) => c
      case None => (w, h)
  }

  /** The fields of a local camera, as a value. */
  datatype LocalState = LocalState(src: SourceState, cap: Option<int>, attempt: nat)

  /** stop: with a capture, the camera stops, the capture is dropped and the
      error cleared; without one nothing happens. */
  function Stopped(s: LocalState): (r: LocalState)
    ensures s.cap.None? ==> r == s
    ensures s.cap.Some? ==> !r.src.isRunning && r.cap.None? && r.src.lastError.None?
    ensures r.attempt == s.attempt && r.src.lastFrame == s.src.lastFrame
    ensures r.src.frameWidth == s.src.frameWidth && r.src.frameHeight == s.src.frameHeight
  {
    if s.cap.Some? then s.(src := s.src.(isRunning := false, lastError := None), cap := None) else s
  }

  /** start: a capture is opened on the device number; when the device does
      not open, the error says so and the camera does not run; otherwise the
      adopted resolution is stored and the camera runs with no error. */
  function Started(s: LocalState, deviceId: int, dev: Device): (r: (LocalState, bool))
    ensures r.1 == dev.opens && r.0.cap == Some(deviceId) && r.0.attempt == s.attempt
    ensures r.0.src.lastFrame == s.src.lastFrame && r.0.src.fps == s.src.fps && r.0.src.name == s.src.name
    ensures !dev.opens ==>
      && r.0.src.lastError == Some("Failed to open camera")
      && r.0.src.isRunning == s.src.isRunning
      && (r.0.src.frameWidth, r.0.src.frameHeight) == (s.src.frameWidth, s.src.frameHeight)
    ensures dev.opens ==>
      && r.0.src.isRunning && r.0.src.lastError.None?
      && (r.0.src.frameWidth, r.0.src.frameHeight) == Adopted(s.src.frameWidth, s.src.frameHeight, dev)
  {
    var s1 := s.(cap := Some(deviceId));
    if !dev.opens then
      (s1.(src := s1.src.(lastError := Some("Failed to open camera"))), false)
    else
      var (w, h) := Adopted(s.src.frameWidth, s.src.frameHeight, dev);
      (s1.(src := s1.src.(frameWidth := w, frameHeight := h, isRunning := true, lastError := None)), true)
  }

  /** _handle_read_error: one more attempt is counted and reported; at the
      limit the camera is stopped, below it the camera is stopped and started
      again. Stopping clears the error, so the attempt message never
      outlives the call. */
  function ReadFailed(s: LocalState, deviceId: int, limit: nat, dev: Device): (r: LocalState)
    ensures r.attempt == s.attempt + 1
    ensures s.attempt + 1 >= limit ==>
      r == Stopped(s.(attempt := s.attempt + 1, src := s.src.(lastError := Some(AttemptMessage(s.attempt + 1, limit)))))
    ensures s.attempt + 1 < limit ==>
      r == Started(Stopped(s.(attempt := s.attempt + 1)), deviceId, dev).0
  {
    var n := s.attempt + 1;
    var s1 := s.(attempt := n, src := s.src.(lastError := Some(AttemptMessage(n, limit))));
    if n >= limit then Stopped(s1)
    else Started(Stopped(s1), deviceId, dev).0
  }

  /** read_frame, given what the device returns (None for a failed read). */
  function Read(s: LocalState, deviceId: int, limit: nat, dev: Device, read: Option<Frame>): (r: (LocalState, Option<Frame>))
    requires s.src.frameWidth > 0 && s.src.frameHeight > 0
    ensures !s.src.isRunning || s.cap.None? ==> r == (s, None)
    ensures s.src.isRunning && s.cap.Some? && read.None? ==> r == (ReadFailed(s, deviceId, limit, dev), None)
    ensures s.src.isRunning && s.cap.Some? && read.Some? ==>
      var f := Fit(read.value, s.src.frameWidth as nat, s.src.frameHeight as nat);
      if IsEmpty(f) then r == (s, None)
      else r == (s.(src := s.src.(lastFrame := Some(f)), attempt := 0), Some(f))
  {
    if !s.src.isRunning || s.cap.None? then (s, None)
    else if read.None? then (ReadFailed(s, deviceId, limit, dev), None)
    else
      var f := Fit(read.value, s.src.frameWidth as nat, s.src.frameHeight as nat);
      if Size(f) == 0 then (s, None)
      else (s.(src := s.src.(lastFrame := Some(f)), attempt := 0), Some(f))
  }

  /** Three failed reads in a row on a running camera whose device keeps
      opening: the first two reconnect (the camera still runs, the count
      grows), the third stops it for good and leaves no error behind; from
      then on reads yield nothing, as the camera no longer runs. */
  lemma {:induction false} ThreeFailuresStop(s: LocalState, deviceId: int, dev: Device)
    requires s.src.frameWidth > 0 && s.src.frameHeight > 0
    requires s.src.isRunning && s.cap.Some? && s.attempt == 0 && dev.opens
    ensures var r1 := Read(s, deviceId, 3, dev, None).0;
      && r1.src.isRunning && r1.attempt == 1 && r1.src.frameWidth > 0 && r1.src.frameHeight > 0
      && var r2 := Read(r1, deviceId, 3, dev, None).0;
      && r2.src.isRunning && r2.attempt == 2 && r2.src.frameWidth > 0 && r2.src.frameHeight > 0
      && var r3 := Read(r2, deviceId, 3, dev, None).0;
      && !r3.src.isRunning && r3.cap.None? && r3.attempt == 3 && r3.src.lastError.None?
  {
    var r1 := Read(s, deviceId, 3, dev, None).0;
    assert r1 == ReadFailed(s, deviceId, 3, dev);
    var r2 := Read(r1, deviceId, 3, dev, None).0;
    assert r2 == ReadFailed(r1, deviceId, 3, dev);
    var r3 := Read(r2, deviceId, 3, dev, None).0;
    assert r3 == ReadFailed(r2, deviceId, 3, dev);
  }

  /** A good read after failures starts the count afresh. */
  lemma GoodReadResets(s: LocalState, deviceId: int, limit: nat, dev: Device, f: Frame)
    requires s.src.frameWidth > 0 && s.src.frameHeight > 0
    requires s.src.isRunning && s.cap.Some? && f.channels > 0
    ensures Read(s, deviceId, limit, dev, Some(f)).0.attempt == 0
    ensures Read(s, deviceId, limit, dev, Some(f)).1.Some?
  {
    var g := Fit(f, s.src.frameWidth as nat, s.src.frameHeight as nat);
    assert Size(g) == g.width * g.height * g.channels;
    assert g.width * g.height > 0;
  }

  /** The source's LocalCamera. */
  class LocalCamera {
    const source: CameraSource
    const deviceId: int
    const reconnectAttempts: nat
    var cap: Option<int>
    var currentAttempt: nat

    function State(): LocalState
      reads this, source
    {
      LocalState(source.State(), cap, currentAttempt)
    }

    /** Frames are resized to the configured geometry, which stays positive:
        it comes from the configuration or from the fallback list, and
        set_resolution is refused. */
    ghost predicate Valid()
      reads this, source
    {
      source.frameWidth > 0 && source.frameHeight > 0
    }

    /** A stopped camera on `deviceId` with the default configuration's
        geometry and rate, three reconnect attempts and none used. */
    constructor (deviceId: int, width: int, height: int, fps: int)
      requires width > 0 && height > 0
      ensures Valid() && fresh(source)
      ensures this.deviceId == deviceId && reconnectAttempts == 3
      ensures State() == LocalState(Initial.(frameWidth := width, frameHeight := height, fps := fps,
                                             name := "Local Camera " + IntToString(deviceId)), None, 0)
    {
      var src := new CameraSource();
      src.name := "Local Camera " + IntToString(deviceId);
      src.frameWidth := width;
      src.frameHeight := height;
      src.fps := fps;
      source := src;
      this.deviceId := deviceId;
      cap := None;
      reconnectAttempts := 3;
      currentAttempt := 0;
    }

    /** The fallback search of start: the candidates are tried in order and
        the first the device honours is taken. */
    static method SearchFallbacks(dev: Device) returns (r: Option<(int, int)>)
      ensures r == FirstAccepted(Fallbacks, dev)
    {
      var i := 0;
      r := None;
      while i < |Fallbacks|
        invariant 0 <= i <= |Fallbacks|
        invariant FirstAccepted(Fallbacks, dev) == FirstAccepted(Fallbacks[i..], dev)
      {
        var c := Fallbacks[i];
        var (aw, ah) := dev.reports(c.0, c.1);
        FirstAcceptedStep(Fallbacks[i..], dev);
        assert Fallbacks[i..][0] == c && Fallbacks[i..][1..] == Fallbacks[i + 1..];
        if Honoured(aw, ah, c.0, c.1) {
          r := Some(c);
          return;
        }
        i := i + 1;
      }
    }

    /** The resolution start settles on for a requested (w, h). */
    static method Resolve(w: int, h: int, dev: Device) returns (r: (int, int))
      ensures r == Adopted(w, h, dev)
    {
      var (aw, ah) := dev.reports(w, h);
      r := (w, h);
      if !Honoured(aw, ah, w, h) {
        var fallback := SearchFallbacks(dev);
        if fallback.Some? {
          r := fallback.value;
        }
      }
    }

    method Start(dev: Device) returns (ok: bool)
      requires Valid()
      modifies this, source
      ensures Valid()
      ensures (State(), ok) == Started(old(State()), deviceId, dev)
    {
      cap := Some(deviceId);
      if !dev.opens {
        source.UpdateError(Some("Failed to open camera"));
        return false;
      }
      var r := Resolve(source.frameWidth, source.frameHeight, dev);
      source.frameWidth, source.frameHeight := r.0, r.1;
      source.isRunning := true;
      source.UpdateError(None);
      ok := true;
    }

    method Stop()
      modifies this, source
      ensures State() == Stopped(old(State()))
    {
      if cap.Some? {
        source.isRunning := false;
        cap := None;
        source.UpdateError(None);
      }
    }

    /** read_frame, given what the device returns (None when `ret` is false
        or no frame came back). */
    method ReadFrame(read: Option<Frame>, dev: Device) returns (frame: Option<Frame>)
      requires Valid()
      modifies this, source
      ensures Valid()
      ensures (State(), frame) == Read(old(State()), deviceId, reconnectAttempts, dev, read)
    {
      if !source.isRunning || cap.None? {
        return None;
      }
      if read.None? {
        HandleReadError(dev);
        return None;
      }
      var f := Fit(read.value, source.frameWidth as nat, source.frameHeight as nat);
      if Size(f) == 0 {
        return None;
      }
      source.lastFrame := Some(f);
      currentAttempt := 0;
      frame := Some(f);
    }

    method HandleReadError(dev: Device)
      requires Valid()
      modifies this, source
      ensures Valid()
      ensures State() == ReadFailed(old(State()), deviceId, reconnectAttempts, dev)
    {
      currentAttempt := currentAttempt + 1;
      source.UpdateError(Some(AttemptMessage(currentAttempt, reconnectAttempts)));
      if currentAttempt >= reconnectAttempts {
        Stop();
        return;
      }
      Stop();
      var _ := Start(dev);
    }

    /** set_resolution: refused; the geometry stays fixed. */
    method SetResolution(width: int, height: int) returns (ok: bool)
      ensures !ok
    {
      ok := false;
    }

    /** set_fps: the rate is stored and reported as accepted. */
    method SetFps(fps: int) returns (ok: bool)
      modifies source
      ensures ok && source.State() == old(source.State()).(fps := fps)
    {
      ok := source.SetFps(fps);
    }
  }
}
