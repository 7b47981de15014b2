/** Horizontal position of a face relative to the frame centre, as a percentage
    (-100 at the left edge, +100 at the right edge), smoothed per face over a
    trailing window of observations. */
module PositionTracking {
  import opened Common

  /** Which half of the frame the smoothed position falls in. */
  datatype Side = Left | Right

  /** The dictionary get_face_position returns. */
  datatype PositionInfo = PositionInfo(
    side: Side,
    relativePosition: real,
    distanceFromCenter: nat,
    centerX: int,
    rawPosition: real)

  /** The horizontal centre of a box, x + w // 2. */
  function CenterX(b: Box): (cx: int)
    ensures b.w >= 0 ==> b.x <= cx <= b.x + b.w
  {
    b.x + FloorDiv(b.w, 2)
  }

  /** _calculate_relative_position: the offset from the centre as a percentage
      of half the frame width; negative on the left. */
  function RelativePosition(centerX: int, center: int, width: nat): (r: real)
    requires width > 0
    ensures r < 0.0 <==> centerX < center
    ensures r == 0.0 <==> centerX == center
  {
    ((centerX - center) as real / (width as real / 2.0)) * 100.0
  }

  /** A percentage of `half` stays within [-100, 100] exactly when the
      offset stays within one `half` of zero. */
  lemma PercentRange(d: real, half: real)
    requires half > 0.0
    ensures -100.0 <= d / half * 100.0 <= 100.0 <==> -half <= d <= half
  {
    var q := d / half;
    assert q * half == d;
    if q > 1.0 {
      assert q * half > half;
    } else if q < -1.0 {
      assert q * half < -half;
    } else {
      assert -half <= q * half <= half;
    }
  }

  /** For an even frame width the raw position lies in [-100, 100] exactly when
      the centre of the face lies inside the frame. */
  lemma RelativePositionRange(centerX: int, width: nat)
    requires width > 0 && width % 2 == 0
    ensures -100.0 <= RelativePosition(centerX, width / 2, width) <= 100.0
        <==> 0 <= centerX <= width
  {
    var half := (width / 2) as real;
    assert width as real / 2.0 == half;
    var d := (centerX - width / 2) as real;
    PercentRange(d, half);
  }

  /** The label of a smoothed position. */
  function SideOf(smoothed: real): (s: Side)
    ensures s == Left <==> smoothed < 0.0
  {
    if smoothed < 0.0 then Left else Right
  }

  /** When every value in the window equals the new raw value, the smoothed
      position is that raw value. */
  lemma ConstantInputIsUnsmoothed(h: seq<real>, v: real, window: nat)
    requires 1 <= window && |h| <= window && AllEqual(h, v)
    ensures Mean(BoundedAppend(h, v, window)) == v
  {
    BoundedAppendKeepsNewest(h, v, window);
    var t := h + [v];
    var r := LastN(t, window);
    assert AllEqual(r, v) by {
      forall i | 0 <= i < |r|
        ensures r[i] == v
      {
        assert r[i] == t[|t| - |r| + i];
      }
    }
    MeanConstant(r, v);
  }

  /** Once at least `n` elements have been appended, the newest `n` are the
      newest `n` of the appended run. */
  lemma LastNOfRun(h: seq<real>, xs: seq<real>, n: nat)
    requires |xs| >= n
    ensures LastN(h + xs, n) == xs[|xs| - n..]
  {
    var t := h + xs;
    if |t| > n {
      assert t[|t| - n..] == xs[|xs| - n..] by {
        forall i | |t| - n <= i < |t|
          ensures t[i] == xs[i - |h|]
        {
        }
      }
    }
  }

  /** Whatever came before, after `window` observations of the same value the
      smoothed position is that value: the window has forgotten the rest. */
  lemma ConstantRunConverges(h: seq<real>, xs: seq<real>, v: real, window: nat)
    requires 1 <= window && |h| <= window
    requires |xs| >= window && AllEqual(xs, v)
    ensures |AppendAll(h, xs, window)| == window
    ensures Mean(AppendAll(h, xs, window)) == v
  {
    AppendAllKeepsNewest(h, xs, window);
    LastNOfRun(h, xs, window);
    var r := xs[|xs| - window..];
    assert AllEqual(r, v) by {
      forall i | 0 <= i < |r|
        ensures r[i] == v
      {
        assert r[i] == xs[|xs| - window + i];
      }
    }
    MeanConstant(r, v);
  }

  /** The source's PositionTracker. */
  class PositionTracker {
    const smoothingWindow: nat
    var frameWidth: Option<nat>
    var frameCenter: Option<int>
    /** position_history, keyed by the box the id string is built from. */
    var history: map<Box, seq<real>>

    ghost predicate Valid()
      reads this
    {
      && 1 <= smoothingWindow
      && (frameWidth.Some? <==> frameCenter.Some?)
      && (frameWidth.Some? ==> frameCenter.value == frameWidth.value / 2)
      && WindowsFit(history, smoothingWindow)
    }

    constructor (smoothingWindow: nat)
      requires 1 <= smoothingWindow
      ensures Valid()
      ensures this.smoothingWindow == smoothingWindow
      ensures frameWidth.None? && frameCenter.None? && history == map[]
    {
      this.smoothingWindow := smoothingWindow;
      frameWidth := None;
      frameCenter := None;
      history := map[];
    }

    /** update_frame_dimensions: width from the frame, centre at width // 2. */
    method UpdateFrameDimensions(frame: Frame)
      requires Valid()
      modifies this`frameWidth, this`frameCenter
      ensures Valid()
      ensures frameWidth == Some(frame.width) && frameCenter == Some(frame.width / 2)
    {
      frameWidth := Some(frame.width);
      frameCenter := Some(frame.width / 2);
    }

    /** get_face_position: a ValueError before the frame dimensions are known
        and a ZeroDivisionError on a zero-width frame, neither touching the
        history; otherwise the raw position joins the box's window and the
        smoothed position is the window's mean. */
    method GetFacePosition(b: Box) returns (res: Result<PositionInfo>)
      requires Valid()
      modifies this`history
      ensures Valid()
      ensures old(frameCenter).None? ==> res == Err(ValueError) && history == old(history)
      ensures frameWidth == Some(0) ==> res == Err(ZeroDivisionError) && history == old(history)
      ensures frameWidth.Some? && frameWidth.value > 0 ==>
        var raw := RelativePosition(CenterX(b), frameCenter.value, frameWidth.value);
        && history == Observe(old(history), b, raw, smoothingWindow)
        && res.Ok?
        && res.value.rawPosition == raw
        && res.value.relativePosition == Mean(history[b])
        && res.value.side == SideOf(Mean(history[b]))
        && res.value.centerX == CenterX(b)
        && res.value.distanceFromCenter == Abs(CenterX(b) - frameCenter.value)
    {
      if frameCenter.None? {
        return Err(ValueError);
      }
      var centerX := CenterX(b);
      if frameWidth.value == 0 {
        return Err(ZeroDivisionError);
      }
      var center := frameCenter.value;
      var raw := RelativePosition(centerX, center, frameWidth.value);
      var h := Record(b, raw);
      var smoothed := Mean(h);
      res := Ok(PositionInfo(SideOf(smoothed), smoothed, Abs(centerX - center), centerX, raw));
    }

    /** The history update of get_face_position: `value` joins the window of
        `b`, the oldest value dropping out once the window is full. */
    method Record(b: Box, value: real) returns (h: seq<real>)
      requires Valid()
      modifies this`history
      ensures h == BoundedAppend(Prior(old(history), b), value, smoothingWindow)
      ensures history == old(history)[b := h]
      ensures Valid()
    {
      h := BoundedAppend(Prior(history, b), value, smoothingWindow);
      history := history[b := h];
    }

    /** cleanup_stale_faces: the histories of boxes not among `current` are
        deleted; the others are kept as they are. */
    method CleanupStaleFaces(current: seq<Box>)
      requires Valid()
      modifies this`history
      ensures Valid()
      ensures history == RestrictKeys(old(history), BoxIds(current))
    {
      history := DeleteStale(history, BoxIds(current));
    }
  }
}
