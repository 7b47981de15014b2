/** A phone attached over USB that shows up as a video device. Starting adopts
    the device's native resolution and then asks for the configured one,
    keeping it only when the device honours it. A failed read reconnects as
    the other sources do, except that failures closer together than the
    reconnect timeout are ignored: only one reconnect per timeout is
    counted.

    The configuration, the clock and the device are parameters. */
module MobileCameras {
  import opened Common
  import opened CameraSources

  /** The mobile camera settings: reconnect limit, desired resolution,
      device buffer size and the minimum time between reconnects. */
  datatype MobileConfig = MobileConfig(
    reconnectAttempts: nat,
    width: int,
    height: int,
    bufferSize: int,
    reconnectTimeout: real)

  /** What the device does: whether it opens, the native resolution it
      reports, and the resolution it reports after being asked for (w, h). */
  datatype Device = Device(opens: bool, native: (real, real), reports: (int, int) -> (real, real))

  /** The dictionary get_status returns: the base status with the resolution
      rendered as "WxH", plus the device and the attempt count as
      "attempt/limit". */
  datatype MobileStatus = MobileStatus(
    running: bool,
    resolution: string,
    fps: int,
    error: Option<string>,
    name: string,
    deviceId: string,
    reconnectAttempts: string)

  /** The fields of a mobile camera, as a value. */
  datatype MobileState = MobileState(src: SourceState, cap: Option<string>, attempt: nat, lastReconnect: real)

  /** The resolution start settles on: the native one (truncated), replaced
      by the configured one when it differs and the device honours it to
      within one pixel. */
  function Configured(cfg: MobileConfig, dev: Device): (r: (int, int))
    ensures var native := (Trunc(dev.native.0), Trunc(dev.native.1));
      r == native || r == (cfg.width, cfg.height)
    ensures (cfg.width, cfg.height) != (Trunc(dev.native.0), Trunc(dev.native.1)) ==>
      var (aw, ah) := dev.reports(cfg.width, cfg.height);
      (r == (cfg.width, cfg.height) <==> Honoured(aw, ah, cfg.width, cfg.height))
    ensures dev.native.0 >= 1.0 && dev.native.1 >= 1.0 && cfg.width > 0 && cfg.height > 0 ==> r.0 > 0 && r.1 > 0
  {
    var native := (Trunc(dev.native.0), Trunc(dev.native.1));
    if (cfg.width, cfg.height) != native then
      var (aw, ah) := dev.reports(cfg.width, cfg.height);
      if Honoured(aw, ah, cfg.width, cfg.height) then (cfg.width, cfg.height) else native
    else native
  }

  /** stop: with a capture, the camera stops, the capture is dropped and the
      error cleared; without one nothing happens. */
  function Stopped(s: MobileState): (r: MobileState)
    ensures s.cap.None? ==> r == s
    ensures s.cap.Some? ==> !r.src.isRunning && r.cap.None? && r.src.lastError.None?
    ensures r.attempt == s.attempt && r.lastReconnect == s.lastReconnect
    ensures r.src.frameWidth == s.src.frameWidth && r.src.frameHeight == s.src.frameHeight
  {
    if s.cap.Some? then s.(src := s.src.(isRunning := false, lastError := None), cap := None) else s
  }

  /** start: a capture is opened on the device; when it does not open the
      error names the device; otherwise the configured resolution is stored
      and the camera runs with no error. */
  function Started(s: MobileState, deviceId: string, cfg: MobileConfig, dev: Device): (r: (MobileState, bool))
    ensures r.1 == dev.opens && r.0.cap == Some(deviceId)
    ensures r.0.attempt == s.attempt && r.0.lastReconnect == s.lastReconnect
    ensures !dev.opens ==>
      && r.0.src.lastError == Some("Failed to open mobile camera " + deviceId)
      && r.0.src.isRunning == s.src.isRunning
      && (r.0.src.frameWidth, r.0.src.frameHeight) == (s.src.frameWidth, s.src.frameHeight)
    ensures dev.opens ==>
      && r.0.src.isRunning && r.0.src.lastError.None?
      && (r.0.src.frameWidth, r.0.src.frameHeight) == Configured(cfg, dev)
  {
    var s1 := s.(cap := Some(deviceId));
    if !dev.opens then
      (s1.(src := s1.src.(lastError := Some("Failed to open mobile camera " + deviceId))), false)
    else
      var (w, h) := Configured(cfg, dev);
      (s1.(src := s1.src.(frameWidth := w, frameHeight := h, isRunning := true, lastError := None)), true)
  }

  /** _handle_read_error at time `now`: within the reconnect timeout of the
      last reconnect nothing changes; otherwise one more attempt is counted,
      the reconnect time set to now, and the camera stopped at the limit or
      stopped and started again below it. */
  function ReadFailed(s: MobileState, now: real, deviceId: string, cfg: MobileConfig, dev: Device): (r: MobileState)
    ensures now - s.lastReconnect < cfg.reconnectTimeout ==> r == s
    ensures now - s.lastReconnect >= cfg.reconnectTimeout ==>
      && r.attempt == s.attempt + 1 && r.lastReconnect == now
      && (s.attempt + 1 >= cfg.reconnectAttempts && s.cap.Some? ==>
            !r.src.isRunning && r.cap.None? && r.src.lastError.None?)
      && (s.attempt + 1 < cfg.reconnectAttempts ==>
            r == Started(Stopped(s.(attempt := s.attempt + 1, lastReconnect := now)), deviceId, cfg, dev).0)
  {
    if now - s.lastReconnect < cfg.reconnectTimeout then s
    else
      var n := s.attempt + 1;
      var s1 := s.(attempt := n, lastReconnect := now,
                   src := s.src.(lastError := Some(AttemptMessage(n, cfg.reconnectAttempts))));
      if n >= cfg.reconnectAttempts then Stopped(s1)
      else Started(Stopped(s1), deviceId, cfg, dev).0
  }

  /** cv2.resize with an explicit target size: it raises when a side of the
      target is not positive. read_frame calls it only when the frame's shape
      differs from the stored resolution. */
  predicate ResizeRaises(f: Frame, width: int, height: int)
  {
    (f.height as int, f.width as int) != (height, width) && (width <= 0 || height <= 0)
  }

  /** read_frame at time `now`, given what the device returns (None for a
      failed read): a good frame is resized to the stored resolution when its
      own differs, kept as the last frame, and resets the attempt count. The
      resize raises, before anything is stored, when the stored resolution has
      a side that is not positive, which happens when the device reports a
      native size of 0 and refuses the configured one. */
  function Read(s: MobileState, now: real, deviceId: string, cfg: MobileConfig, dev: Device, read: Option<Frame>)
    : (r: Result<(MobileState, Option<Frame>)>)
    ensures !s.src.isRunning || s.cap.None? ==> r == Ok((s, None))
    ensures s.src.isRunning && s.cap.Some? && read.None? ==> r == Ok((ReadFailed(s, now, deviceId, cfg, dev), None))
    ensures s.src.isRunning && s.cap.Some? && read.Some? ==>
      && (r.Err? <==> ResizeRaises(read.value, s.src.frameWidth, s.src.frameHeight))
      && (r.Err? ==> r.error == CvError)
      && (r.Ok? && r.value.1.Some? ==>
            && r.value.1.value.width == s.src.frameWidth && r.value.1.value.height == s.src.frameHeight
            && r.value.1.value.token == read.value.token
            && r.value.0 == s.(src := s.src.(lastFrame := r.value.1), attempt := 0))
      && (r.Ok? && r.value.1.None? ==> r.value.0 == s)
  {
    if !s.src.isRunning || s.cap.None? then Ok((s, None))
    else if read.None? then Ok((ReadFailed(s, now, deviceId, cfg, dev), None))
    else if ResizeRaises(read.value, s.src.frameWidth, s.src.frameHeight) then Err(CvError)
    else
      var g := Fit(read.value, s.src.frameWidth as nat, s.src.frameHeight as nat);
      if Size(g) == 0 then Ok((s, None))
      else Ok((s.(src := s.src.(lastFrame := Some(g)), attempt := 0), Some(g)))
  }

  /** A device that reports a native size of 0x0 and refuses the configured
      resolution leaves the stored resolution at 0x0, so the first good read
      of a non-empty frame after starting raises in the resize. */
  lemma ZeroNativeReadRaises(s: MobileState, now: real, deviceId: string, cfg: MobileConfig, dev: Device, f: Frame)
    requires dev.opens && dev.native == (0.0, 0.0)
    requires var (aw, ah) := dev.reports(cfg.width, cfg.height); !Honoured(aw, ah, cfg.width, cfg.height)
    requires f.width > 0
    ensures var s1 := Started(s, deviceId, cfg, dev).0;
      s1.src.isRunning && (s1.src.frameWidth, s1.src.frameHeight) == (0, 0)
      && Read(s1, now, deviceId, cfg, dev, Some(f)) == Err(CvError)
  {
    assert Configured(cfg, dev) == (0, 0);
  }

  /** Once a failure has been counted at t1, further failures before t1 plus
      the reconnect timeout leave the camera as it is: a burst of bad reads
      costs one attempt, not one each. */
  lemma BurstCountsOnce(s: MobileState, t1: real, t2: real, deviceId: string, cfg: MobileConfig, dev: Device)
    requires s.src.isRunning && s.cap.Some? && dev.opens
    requires s.attempt + 1 < cfg.reconnectAttempts
    requires t1 - s.lastReconnect >= cfg.reconnectTimeout && t2 - t1 < cfg.reconnectTimeout
    ensures Read(s, t1, deviceId, cfg, dev, None).Ok?
    ensures var r1 := Read(s, t1, deviceId, cfg, dev, None).value.0;
      && r1.attempt == s.attempt + 1 && r1.src.isRunning
      && Read(r1, t2, deviceId, cfg, dev, None) == Ok((r1, None))
  {
    var r1 := Read(s, t1, deviceId, cfg, dev, None).value.0;
    assert r1 == ReadFailed(s, t1, deviceId, cfg, dev);
    assert r1.lastReconnect == t1;
  }

  /** The source's MobileCamera. */
  class MobileCamera {
    const source: CameraSource
    const deviceId: string
    const config: MobileConfig
    var cap: Option<string>
    var currentAttempt: nat
    var lastReconnectTime: real

    function State(): MobileState
      reads this, source
    {
      MobileState(source.State(), cap, currentAttempt, lastReconnectTime)
    }

    /** A stopped camera with the configured resolution, the default rate,
        no attempts used and no reconnect yet (time 0). */
    constructor (deviceId: string, config: MobileConfig, defaultFps: int)
      ensures fresh(source)
      ensures this.deviceId == deviceId && this.config == config
      ensures State() == MobileState(Initial.(frameWidth := config.width, frameHeight := config.height,
                                              fps := defaultFps, name := "Mobile Camera (" + deviceId + ")"),
                                     None, 0, 0.0)
    {
      var src := new CameraSource();
      src.name := "Mobile Camera (" + deviceId + ")";
      src.frameWidth := config.width;
      src.frameHeight := config.height;
      src.fps := defaultFps;
      source := src;
      this.deviceId := deviceId;
      this.config := config;
      cap := None;
      currentAttempt := 0;
      lastReconnectTime := 0.0;
    }

    method Start(dev: Device) returns (ok: bool)
      modifies this, source
      ensures (State(), ok) == Started(old(State()), deviceId, config, dev)
    {
      cap := Some(deviceId);
      if !dev.opens {
        source.UpdateError(Some("Failed to open mobile camera " + deviceId));
        return false;
      }
      source.frameWidth := Trunc(dev.native.0);
      source.frameHeight := Trunc(dev.native.1);
      ConfigureCamera(dev);
      source.isRunning := true;
      source.UpdateError(None);
      ok := true;
    }

    /** _configure_camera: ask for the configured resolution when it differs
        from the stored one, and keep it only if the device honours it. */
    method ConfigureCamera(dev: Device)
      requires source.frameWidth == Trunc(dev.native.0) && source.frameHeight == Trunc(dev.native.1)
      modifies source`frameWidth, source`frameHeight
      ensures (source.frameWidth, source.frameHeight) == Configured(config, dev)
    {
      if config.width != source.frameWidth || config.height != source.frameHeight {
        var (aw, ah) := dev.reports(config.width, config.height);
        if Honoured(aw, ah, config.width, config.height) {
          source.frameWidth := config.width;
          source.frameHeight := config.height;
        }
      }
    }

    method Stop()
      modifies this, source
      ensures State() == Stopped(old(State()))
    {
      if cap.Some? {
        source.isRunning := false;
        cap := None;
        source.UpdateError(None);
      }
    }

    /** read_frame: the frame read, or the exception the resize raises, in
        which case nothing has changed. */
    method ReadFrame(read: Option<Frame>, now: real, dev: Device) returns (r: Result<Option<Frame>>)
      modifies this, source
      ensures var o := Read(old(State()), now, deviceId, config, dev, read);
        && (r.Err? <==> o.Err?)
        && (r.Err? ==> r.error == o.error && State() == old(State()))
        && (r.Ok? ==> (State(), r.value) == o.value)
    {
      if !source.isRunning || cap.None? {
        return Ok(None);
      }
      if read.None? {
        HandleReadError(now, dev);
        return Ok(None);
      }
      if ResizeRaises(read.value, source.frameWidth, source.frameHeight) {
        return Err(CvError);
      }
      var f := Fit(read.value, source.frameWidth as nat, source.frameHeight as nat);
      if Size(f) == 0 {
        return Ok(None);
      }
      source.lastFrame := Some(f);
      currentAttempt := 0;
      r := Ok(Some(f));
    }

    method HandleReadError(now: real, dev: Device)
      modifies this, source
      ensures State() == ReadFailed(old(State()), now, deviceId, config, dev)
    {
      if now - lastReconnectTime < config.reconnectTimeout {
        return;
      }
      currentAttempt := currentAttempt + 1;
      lastReconnectTime := now;
      source.UpdateError(Some(AttemptMessage(currentAttempt, config.reconnectAttempts)));
      if currentAttempt >= config.reconnectAttempts {
        Stop();
        return;
      }
      Stop();
      var _ := Start(dev);
    }

    /** get_status: the base status with the resolution as "WxH", the device,
        and the attempts as "attempt/limit". */
    method GetStatus() returns (st: MobileStatus)
      ensures st.running == source.isRunning && st.fps == source.fps
      ensures st.error == source.lastError && st.name == source.name && st.deviceId == deviceId
      ensures st.resolution == IntToString(source.frameWidth) + "x" + IntToString(source.frameHeight)
      ensures st.reconnectAttempts == NatToString(currentAttempt) + "/" + NatToString(config.reconnectAttempts)
    {
      var base := source.GetStatus();
      st := MobileStatus(base.running,
                         IntToString(source.frameWidth) + "x" + IntToString(source.frameHeight),
                         base.fps, base.error, base.name, deviceId,
                         NatToString(currentAttempt) + "/" + NatToString(config.reconnectAttempts));
    }
  }
}
