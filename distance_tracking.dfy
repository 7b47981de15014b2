/** Camera-to-face distance from the apparent face width (pinhole model with an
    empirical correction factor), smoothed per face over a trailing window. */
module DistanceTracking {
  import opened Common

  /** The dictionary get_distance returns. */
  datatype DistanceInfo = DistanceInfo(distanceCm: real, distanceM: real, smoothed: bool)

  /** The correction factor 1/1.7 applied to every raw estimate. */
  const Correction: real := 1.0 / 1.7

  /** The focal length calibrate_focal_length derives from a face of known
      width seen `facePixels` wide at `knownDistance` cm. */
  function Focal(knownDistance: real, facePixels: int, knownFaceWidth: real): real
    requires knownFaceWidth != 0.0
  {
    (facePixels as real * knownDistance) / knownFaceWidth
  }

  /** estimate_distance once the focal length is known: the pinhole distance
      scaled by the correction factor. */
  function Estimate(knownFaceWidth: real, focal: real, facePixels: int): real
    requires facePixels != 0
  {
    (knownFaceWidth * focal) / (facePixels as real) * Correction
  }

  /** Calibrating at distance D with a face W pixels wide and then estimating
      for a face W pixels wide gives back D, divided by 1.7. */
  lemma CalibrationRoundTrip(knownDistance: real, facePixels: int, knownFaceWidth: real)
    requires facePixels != 0 && knownFaceWidth != 0.0
    ensures Estimate(knownFaceWidth, Focal(knownDistance, facePixels, knownFaceWidth), facePixels)
         == knownDistance / 1.7
  {
    var w := facePixels as real;
    var f := Focal(knownDistance, facePixels, knownFaceWidth);
    assert knownFaceWidth * f == w * knownDistance;
    assert (knownFaceWidth * f) / w == knownDistance;
  }

  /** The estimate is inversely proportional to the face width in pixels. */
  lemma EstimateInverse(knownFaceWidth: real, focal: real, facePixels: int)
    requires facePixels != 0
    ensures Estimate(knownFaceWidth, focal, facePixels) * (facePixels as real)
         == knownFaceWidth * focal * Correction
  {
    var w := facePixels as real;
    var q := (knownFaceWidth * focal) / w;
    assert q * w == knownFaceWidth * focal;
    calc {
      Estimate(knownFaceWidth, focal, facePixels) * w;
      (q * Correction) * w;
      (q * w) * Correction;
      knownFaceWidth * focal * Correction;
    }
  }

  /** The source's DistanceTracker. */
  class DistanceTracker {
    const knownFaceWidth: real
    const smoothingWindow: nat
    var focalLength: Option<real>
    /** distance_history, keyed by the box the id string is built from. */
    var history: map<Box, seq<real>>

    ghost predicate Valid()
      reads this
    {
      1 <= smoothingWindow && WindowsFit(history, smoothingWindow)
    }

    constructor (knownFaceWidth: real, smoothingWindow: nat)
      requires 1 <= smoothingWindow
      ensures Valid()
      ensures this.knownFaceWidth == knownFaceWidth && this.smoothingWindow == smoothingWindow
      ensures focalLength.None? && history == map[]
    {
      this.knownFaceWidth := knownFaceWidth;
      this.smoothingWindow := smoothingWindow;
      focalLength := None;
      history := map[];
    }

    /** calibrate_focal_length: the focal length follows from the known distance
        and pixel width; the frame width plays no part. A zero known face width
        raises ZeroDivisionError and leaves the focal length as it was. */
    method CalibrateFocalLength(knownDistance: real, facePixels: int, frameWidth: int) returns (res: Result<()>)
      modifies this`focalLength
      ensures knownFaceWidth == 0.0 ==> res == Err(ZeroDivisionError) && focalLength == old(focalLength)
      ensures knownFaceWidth != 0.0 ==>
        res.Ok? && focalLength == Some(Focal(knownDistance, facePixels, knownFaceWidth))
    {
      if knownFaceWidth == 0.0 {
        return Err(ZeroDivisionError);
      }
      focalLength := Some((facePixels as real * knownDistance) / knownFaceWidth);
      return Ok(());
    }

    /** estimate_distance: an uncalibrated tracker first fixes its focal length
        at 1.5 times the frame width, once and for all; a zero pixel width then
        raises ZeroDivisionError (the focal length stays fixed). */
    method EstimateDistance(facePixels: int, frameWidth: int) returns (res: Result<real>)
      modifies this`focalLength
      ensures old(focalLength).Some? ==> focalLength == old(focalLength)
      ensures old(focalLength).None? ==> focalLength == Some(frameWidth as real * 1.5)
      ensures facePixels == 0 <==> res.Err?
      ensures res.Err? ==> res.error == ZeroDivisionError
      ensures res.Ok? ==> res.value == Estimate(knownFaceWidth, focalLength.value, facePixels)
    {
      if focalLength.None? {
        focalLength := Some(frameWidth as real * 1.5);
      }
      if facePixels == 0 {
        return Err(ZeroDivisionError);
      }
      var raw := (knownFaceWidth * focalLength.value) / (facePixels as real);
      return Ok(raw * Correction);
    }

    /** get_distance: the estimate for the box's width joins the box's window
        and the reported distance is the window's mean, in centimetres and in
        metres; it counts as smoothed once the window holds two values, that
        is, when the box was already tracked and the window is wider than one.
        A failed estimate leaves the histories untouched. */
    method GetDistance(b: Box, frameWidth: int) returns (res: Result<DistanceInfo>)
      requires Valid()
      modifies this`focalLength, this`history
      ensures Valid()
      ensures old(focalLength).Some? ==> focalLength == old(focalLength)
      ensures old(focalLength).None? ==> focalLength == Some(frameWidth as real * 1.5)
      ensures b.w == 0 ==> res == Err(ZeroDivisionError) && history == old(history)
      ensures b.w != 0 ==>
        var raw := Estimate(knownFaceWidth, focalLength.value, b.w);
        && history == Observe(old(history), b, raw, smoothingWindow)
        && res.Ok?
        && res.value.distanceCm == Mean(history[b])
        && res.value.distanceM == res.value.distanceCm / 100.0
        && (res.value.smoothed <==> b in old(history) && 2 <= smoothingWindow)
    {
      var raw := EstimateDistance(b.w, frameWidth);
      if raw.Err? {
        return Err(raw.error);
      }
      var h := Record(b, raw.value);
      var smoothed := Mean(h);
      res := Ok(DistanceInfo(smoothed, smoothed / 100.0, |h| > 1));
    }

    /** The history update of get_distance: `value` joins the window of `b`,
        the oldest value dropping out once the window is full. */
    method Record(b: Box, value: real) returns (h: seq<real>)
      requires Valid()
      modifies this`history
      ensures h == BoundedAppend(Prior(old(history), b), value, smoothingWindow)
      ensures history == old(history)[b := h]
      ensures Valid()
    {
      h := BoundedAppend(Prior(history, b), value, smoothingWindow);
      history := history[b := h];
    }

    /** cleanup_stale_faces: the histories of boxes not among `current` are
        deleted; the others are kept as they are. */
    method CleanupStaleFaces(current: seq<Box>)
      requires Valid()
      modifies this`history
      ensures Valid()
      ensures history == RestrictKeys(old(history), BoxIds(current))
    {
      history := DeleteStale(history, BoxIds(current));
    }
  }
}
