/** The single-face tracker wrapper: counts frames, decides on which frames the
    expensive detector runs, (re)initialises the OpenCV tracker, and records
    size-filtered detections in original-frame coordinates.

    The OpenCV tracker is a handle (`Option<nat>`; None when its creation
    failed); creating one, updating it on a frame and downscaling a frame are
    calls into OpenCV whose outcomes are arguments here. */
module FaceTracking {
  import opened Common

  /** DETECTION_CONFIG['detection_interval'], ['min_face_size'] and
      ['max_face_size']. */
  const DetectionInterval: nat := 5
  const MinFaceSize: int := 20
  const MaxFaceSize: int := 400

  /** The entry process_detected_face stores: the box in original-frame
      coordinates and the frame it was seen on. */
  datatype TrackedFace = TrackedFace(bbox: Box, lastSeen: nat)

  /** What the OpenCV tracker reports for one frame. */
  datatype TrackerReport = TrackerReport(success: bool, box: Box)

  /** The detection size filter: both sides within [MinFaceSize, MaxFaceSize]. */
  predicate SizeAccepted(w: int, h: int)
  {
    MinFaceSize <= w <= MaxFaceSize && MinFaceSize <= h <= MaxFaceSize
  }

  /** `[int(v / scale) for v in (x, y, w, h)]`. */
  function ScaleBack(b: Box, scale: real): (r: Box)
    requires scale > 0.0
    ensures scale == 1.0 ==> r == b
  {
    Box(Trunc(b.x as real / scale), Trunc(b.y as real / scale),
        Trunc(b.w as real / scale), Trunc(b.h as real / scale))
  }

  /** should_detect for a frame count and tracking flag. */
  predicate ShouldDetectAt(frameCount: nat, trackingInitialized: bool)
  {
    frameCount % DetectionInterval == 0 || !trackingInitialized
  }

  /** While tracking holds, detection runs on exactly one frame of every
      DetectionInterval consecutive frames: after frame `count`, the next
      detection frame is `count + (5 - count % 5)`. */
  lemma NextDetection(count: nat, j: nat)
    requires 1 <= j <= DetectionInterval
    ensures ShouldDetectAt(count + j, true) <==> j == DetectionInterval - count % DetectionInterval
  {
    var q := count / 5;
    var r := count % 5;
    assert count + j == 5 * q + (r + j);
    if r + j < 5 {
      assert (count + j) % 5 == r + j;
    } else if r + j == 5 {
      assert count + j == 5 * (q + 1);
    } else {
      assert count + j == 5 * (q + 1) + (r + j - 5);
      assert (count + j) % 5 == r + j - 5;
    }
  }

  /** The source's FaceTracker. */
  class FaceTracker {
    var tracker: Option<nat>
    var trackingInitialized: bool
    var trackingBox: Option<Box>
    var trackedFaces: map<Box, TrackedFace>
    var lastDetectedBoxes: seq<Box>
    var frameCount: nat

    /** A tracker is created only when tracking is enabled; `created` is what
        that creation produced. */
    constructor (enableTracking: bool, created: Option<nat>)
      ensures tracker == (if enableTracking then created else None)
      ensures !trackingInitialized && trackingBox.None?
      ensures trackedFaces == map[] && lastDetectedBoxes == [] && frameCount == 0
    {
      tracker := if enableTracking then created else None;
      trackingInitialized := false;
      trackingBox := None;
      trackedFaces := map[];
      lastDetectedBoxes := [];
      frameCount := 0;
    }

    /** reset_tracker: a freshly created tracker (`created`), not initialised,
        with no tracking box. */
    method ResetTracker(created: Option<nat>)
      modifies this`tracker, this`trackingInitialized, this`trackingBox
      ensures tracker == created && !trackingInitialized && trackingBox.None?
    {
      tracker := created;
      trackingInitialized := false;
      trackingBox := None;
    }

    /** update: count the frame; when tracking is initialised and a tracker
        exists, ask it for the face (`report`, obtained on the frame downscaled
        by `scale`) and scale a successful box back to the original frame.
        Otherwise tracking fails. */
    method Update(report: TrackerReport, scale: real) returns (success: bool, box: Option<Box>)
      requires scale > 0.0
      modifies this`frameCount
      ensures frameCount == old(frameCount) + 1
      ensures success <==> trackingInitialized && tracker.Some? && report.success
      ensures success ==> box == Some(ScaleBack(report.box, scale))
      ensures !success ==> box.None?
    {
      frameCount := frameCount + 1;
      success := false;
      box := None;
      if trackingInitialized && tracker.Some? {
        success := report.success;
        if success {
          box := Some(ScaleBack(report.box, scale));
        }
      }
    }

    /** initialize_tracking: without a tracker nothing happens; otherwise the
        tracker is replaced by a fresh one (`created`) and tracking becomes
        initialised exactly when that creation succeeded. `initBox` is the
        (x, y, w, h) box the new tracker is initialised with: the face's
        corners truncated, then turned into a size. */
    method InitializeTracking(face: Corners, created: Option<nat>) returns (ok: bool, initBox: Option<Box>)
      modifies this`tracker, this`trackingInitialized, this`trackingBox
      ensures old(tracker).None? ==>
        (!ok && tracker == old(tracker) &&
         trackingInitialized == old(trackingInitialized) && trackingBox == old(trackingBox))
      ensures old(tracker).Some? ==>
        (tracker == created && trackingBox.None? && (ok <==> created.Some?) && trackingInitialized == ok)
      ensures ok ==> initBox == Some(CornersToBox(face))
      ensures !ok ==> initBox.None?
    {
      if tracker.None? {
        return false, None;
      }
      var b := CornersToBox(face);
      ResetTracker(created);
      if tracker.Some? {
        trackingInitialized := true;
        return true, Some(b);
      }
      return false, None;
    }

    /** should_detect. */
    function ShouldDetect(): (detect: bool)
      reads this
      ensures detect <==> frameCount % DetectionInterval == 0 || !trackingInitialized
    {
      ShouldDetectAt(frameCount, trackingInitialized)
    }

    /** process_detected_face: a detection whose width or height lies outside
        the accepted sizes is dropped; otherwise its box, scaled back to the
        original frame, is recorded under its detection-frame id with the
        current frame count, and returned. */
    method ProcessDetectedFace(face: Corners, scale: real) returns (r: Option<Box>)
      requires scale > 0.0
      modifies this`trackedFaces
      ensures var b := CornersToBox(face);
        && (r.None? <==> !SizeAccepted(b.w, b.h))
        && (r.None? ==> trackedFaces == old(trackedFaces))
        && (r.Some? ==>
              (r.value == ScaleBack(b, scale) &&
               trackedFaces == old(trackedFaces)[b := TrackedFace(r.value, frameCount)]))
    {
      var b := CornersToBox(face);
      if !SizeAccepted(b.w, b.h) {
        return None;
      }
      var orig := ScaleBack(b, scale);
      trackedFaces := trackedFaces[b := TrackedFace(orig, frameCount)];
      return Some(orig);
    }
  }
}
