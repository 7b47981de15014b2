/** The face detector: finds faces with a Haar cascade (first inside the regions
    predicted by one motion predictor per tracked face, then on the whole
    frame), keeps the candidates in which an eye is found, keeps exactly one
    predictor per kept face, and annotates frames with position, distance and
    numbered unknown faces.

    The cascades are functions from a region of the frame (x, y, w, h; the
    whole frame is (0, 0, width, height)) to what they find there: face boxes
    relative to the region, or a number of eyes. The Kalman filter's reported
    position variance and posterior mean, the Euclidean norm and the clock are
    arguments. The detector holds its predictors as values (see
    Motion.Predictor); the MotionPredictor class's methods produce exactly
    these values. */
module Detection {
  import opened Common
  import opened Motion
  import opened PositionTracking
  import opened DistanceTracking

  /** The filter reports a non-negative position variance after every
      prediction. The covariance it comes from is not modelled, so the
      variance is some function of the predictor. */
  ghost predicate VarianceOracle(variance: Predictor -> real)
  {
    forall p :: variance(p) >= 0.0
  }

  /** `norm` returns the Euclidean norm of its arguments. */
  ghost predicate NormOracle(norm: (real, real) -> real)
  {
    forall a, b :: IsNorm(norm(a, b), a, b)
  }

  /** Every predictor has recorded a position and holds at most MaxHistory. */
  predicate Ready(preds: map<Box, Predictor>)
  {
    forall id :: id in preds ==> preds[id].history != [] && |preds[id].history| <= MaxHistory
  }

  /** The detector's bookkeeping: `order` lists the keys of the predictor map
      once each, in insertion order, and every predictor is ready. */
  ghost predicate Registered(order: seq<Box>, preds: map<Box, Predictor>)
  {
    && Distinct(order)
    && (forall id :: id in order <==> id in preds)
    && Ready(preds)
  }

  // ----- Region search -----

  /** A box found inside `region`, in whole-frame coordinates. */
  function Shift(h: Box, region: Box): Box
  {
    Box(region.x + h.x, region.y + h.y, h.w, h.h)
  }

  /** All boxes of `hits`, found inside `region`, in whole-frame coordinates. */
  function ShiftAll(hits: seq<Box>, region: Box): (r: seq<Box>)
    ensures |r| == |hits|
    ensures forall i :: 0 <= i < |hits| ==> r[i] == Shift(hits[i], region)
  {
    if hits == [] then [] else [Shift(hits[0], region)] + ShiftAll(hits[1..], region)
  }

  /** One predictor's turn in the region search: it predicts (inside
      get_search_region); if its confidence then exceeds 0.5 the cascade runs
      inside its search region and the finds are moved to frame coordinates. */
  function SearchStep(p: Predictor, variance: Predictor -> real, norm: (real, real) -> real,
                      cascade: Box -> seq<Box>, frameWidth: int, frameHeight: int): (r: (Predictor, seq<Box>))
    requires |p.history| <= MaxHistory && VarianceOracle(variance)
    ensures r.0 == Predicted(p, variance(p))
    ensures r.0.confidence <= 0.5 ==> r.1 == []
  {
    var q := Predicted(p, variance(p));
    var region := RegionOf(q, norm(q.state.vx, q.state.vy), frameWidth, frameHeight);
    (q, if q.confidence > 0.5 then ShiftAll(cascade(region), region) else [])
  }

  /** The region search over the predictors `ids`, in that order: the
      predictors after it, and the boxes found. */
  function SearchAll(ids: seq<Box>, preds: map<Box, Predictor>, variance: Predictor -> real,
                     norm: (real, real) -> real, cascade: Box -> seq<Box>,
                     frameWidth: int, frameHeight: int): (r: (map<Box, Predictor>, seq<Box>))
    requires forall id :: id in ids ==> id in preds
    requires Ready(preds) && VarianceOracle(variance)
    ensures r.0.Keys == preds.Keys && Ready(r.0)
  {
    if ids == [] then (preds, [])
    else
      assert forall id :: id in ids[..|ids| - 1] ==> id in ids;
      var prev := SearchAll(ids[..|ids| - 1], preds, variance, norm, cascade, frameWidth, frameHeight);
      var id := ids[|ids| - 1];
      var step := SearchStep(prev.0[id], variance, norm, cascade, frameWidth, frameHeight);
      (prev.0[id := step.0], prev.1 + step.1)
  }

  /** One more predictor, for the loop of the region search. */
  lemma SearchPrefixStep(ids: seq<Box>, preds: map<Box, Predictor>, variance: Predictor -> real,
                         norm: (real, real) -> real, cascade: Box -> seq<Box>,
                         frameWidth: int, frameHeight: int, k: nat)
    requires k < |ids| && (forall id :: id in ids ==> id in preds)
    requires Ready(preds) && VarianceOracle(variance)
    ensures forall id :: id in ids[..k] ==> id in preds
    ensures forall id :: id in ids[..k + 1] ==> id in preds
    ensures var prev := SearchAll(ids[..k], preds, variance, norm, cascade, frameWidth, frameHeight);
      var step := SearchStep(prev.0[ids[k]], variance, norm, cascade, frameWidth, frameHeight);
      SearchAll(ids[..k + 1], preds, variance, norm, cascade, frameWidth, frameHeight) == (prev.0[ids[k] := step.0], prev.1 + step.1)
  {
    assert ids[..k + 1][..k] == ids[..k];
    assert forall id :: id in ids[..k + 1] ==> id in ids;
  }

  /** The predictor `p` finds `b`: after predicting, its confidence exceeds
      0.5 and the cascade finds, inside its search region, `b` moved back by
      the region's origin. */
  ghost predicate FoundBy(b: Box, p: Predictor, variance: Predictor -> real, norm: (real, real) -> real,
                          cascade: Box -> seq<Box>, frameWidth: int, frameHeight: int)
    requires |p.history| <= MaxHistory && VarianceOracle(variance)
  {
    var q := Predicted(p, variance(p));
    var region := RegionOf(q, norm(q.state.vx, q.state.vy), frameWidth, frameHeight);
    q.confidence > 0.5 && exists h :: h in cascade(region) && b == Shift(h, region)
  }

  lemma SearchStepFinds(p: Predictor, variance: Predictor -> real, norm: (real, real) -> real,
                        cascade: Box -> seq<Box>, frameWidth: int, frameHeight: int, b: Box)
    requires |p.history| <= MaxHistory && VarianceOracle(variance)
    ensures b in SearchStep(p, variance, norm, cascade, frameWidth, frameHeight).1
        <==> FoundBy(b, p, variance, norm, cascade, frameWidth, frameHeight)
  {
    var q := Predicted(p, variance(p));
    var region := RegionOf(q, norm(q.state.vx, q.state.vy), frameWidth, frameHeight);
    var found := SearchStep(p, variance, norm, cascade, frameWidth, frameHeight).1;
    if b in found {
      var k :| 0 <= k < |found| && found[k] == b;
      assert cascade(region)[k] in cascade(region);
    }
    if FoundBy(b, p, variance, norm, cascade, frameWidth, frameHeight) {
      var h :| h in cascade(region) && b == Shift(h, region);
      var k :| 0 <= k < |cascade(region)| && cascade(region)[k] == h;
      assert found[k] == b;
    }
  }

  /** Over distinct ids, the region search predicts exactly the predictors of
      `ids`, each once from its value before the search, and finds exactly the
      boxes one of them finds. */
  lemma {:induction false} SearchAllEffect(ids: seq<Box>, preds: map<Box, Predictor>, variance: Predictor -> real,
                                           norm: (real, real) -> real, cascade: Box -> seq<Box>,
                                           frameWidth: int, frameHeight: int)
    requires forall id :: id in ids ==> id in preds
    requires Ready(preds) && VarianceOracle(variance) && Distinct(ids)
    ensures var r := SearchAll(ids, preds, variance, norm, cascade, frameWidth, frameHeight);
      && (forall id :: id in preds ==>
            r.0[id] == if id in ids then Predicted(preds[id], variance(preds[id])) else preds[id])
      && (forall b :: b in r.1 <==>
            exists id :: id in ids && FoundBy(b, preds[id], variance, norm, cascade, frameWidth, frameHeight))
  {
    if ids != [] {
      var init := ids[..|ids| - 1];
      var last := ids[|ids| - 1];
      assert forall x :: x in ids <==> x in init || x == last;
      assert last !in init by {
        forall j | 0 <= j < |init|
          ensures init[j] != last
        {
          assert init[j] == ids[j];
        }
      }
      SearchAllEffect(init, preds, variance, norm, cascade, frameWidth, frameHeight);
      forall b
        ensures b in SearchStep(preds[last], variance, norm, cascade, frameWidth, frameHeight).1
            <==> FoundBy(b, preds[last], variance, norm, cascade, frameWidth, frameHeight)
      {
        SearchStepFinds(preds[last], variance, norm, cascade, frameWidth, frameHeight, b);
      }
    }
  }

  /** A predictor searches its region exactly when the variance its filter
      reports after predicting is below 1. */
  lemma SearchThreshold(p: Predictor, variance: real)
    requires |p.history| <= MaxHistory && variance >= 0.0
    ensures Predicted(p, variance).confidence > 0.5 <==> variance < 1.0
  {
    var c := PredictedConfidence(variance);
    assert c * (1.0 + variance) == 1.0;
    if variance < 1.0 {
      assert c * 2.0 > c * (1.0 + variance);
    } else {
      assert c * 2.0 <= c * (1.0 + variance);
    }
  }

  // ----- Eye verification and predictor bookkeeping -----

  /** The candidates in which the eye cascade finds at least one eye, in
      order. */
  function EyeVerified(candidates: seq<Box>, eyes: Box -> nat): (r: seq<Box>)
    ensures forall b :: b in r <==> b in candidates && eyes(b) >= 1
  {
    if candidates == [] then []
    else
      var prefix := EyeVerified(candidates[..|candidates| - 1], eyes);
      var b := candidates[|candidates| - 1];
      assert forall x :: x in candidates <==> x in candidates[..|candidates| - 1] || x == b;
      if eyes(b) >= 1 then prefix + [b] else prefix
  }

  /** The centre (x + w // 2, y + h // 2) a predictor is fed for a face. */
  function CenterOf(b: Box): Point
  {
    Point((b.x + FloorDiv(b.w, 2)) as real, (b.y + FloorDiv(b.h, 2)) as real)
  }

  /** The predictor map, its insertion order and the faces verified so far. */
  datatype Tracking = Tracking(preds: map<Box, Predictor>, order: seq<Box>, verified: seq<Box>)

  /** The predictor a verified face `b` ends with: its existing predictor
      updated with the face's centre (the error being the distance from the
      last predicted position), or a new one with time step `dt` initialised
      at the centre. */
  function Tracked(preds: map<Box, Predictor>, b: Box, dt: real,
                   posterior: (Predictor, Point) -> KState, norm: (real, real) -> real): (q: Predictor)
    requires Ready(preds) && NormOracle(norm)
    ensures q.history != [] && |q.history| <= MaxHistory
  {
    var c := CenterOf(b);
    if b in preds then
      var p := preds[b];
      var last := p.history[|p.history| - 1];
      Updated(p, posterior(p, c), norm(last.x - c.x, last.y - c.y))
    else
      Initialized(Fresh(dt), c.x, c.y)
  }

  /** One candidate of the verification loop of detect_faces. */
  function TrackStep(t: Tracking, b: Box, eyes: Box -> nat, dt: real,
                     posterior: (Predictor, Point) -> KState, norm: (real, real) -> real): (r: Tracking)
    requires Ready(t.preds) && NormOracle(norm)
    ensures Ready(r.preds)
  {
    if eyes(b) == 0 then t
    else
      Tracking(t.preds[b := Tracked(t.preds, b, dt, posterior, norm)],
               if b in t.preds then t.order else t.order + [b],
               t.verified + [b])
  }

  /** The verification loop of detect_faces over `candidates`. */
  function TrackAll(candidates: seq<Box>, t: Tracking, eyes: Box -> nat, dt: real,
                    posterior: (Predictor, Point) -> KState, norm: (real, real) -> real): (r: Tracking)
    requires Ready(t.preds) && NormOracle(norm)
    ensures Ready(r.preds)
    ensures forall id :: id in r.preds ==> id in t.preds || (id in candidates && eyes(id) >= 1)
    ensures t.preds.Keys <= r.preds.Keys
  {
    if candidates == [] then t
    else
      assert forall x :: x in candidates[..|candidates| - 1] ==> x in candidates;
      var prev := TrackAll(candidates[..|candidates| - 1], t, eyes, dt, posterior, norm);
      TrackStep(prev, candidates[|candidates| - 1], eyes, dt, posterior, norm)
  }

  /** The loop returns exactly the eye-verified candidates, keeps a predictor
      for each of them besides the ones it had, and keeps the insertion order
      in step with the map. */
  lemma {:induction false} TrackAllBookkeeping(candidates: seq<Box>, t: Tracking, eyes: Box -> nat, dt: real,
                                               posterior: (Predictor, Point) -> KState, norm: (real, real) -> real)
    requires Ready(t.preds) && NormOracle(norm)
    ensures var r := TrackAll(candidates, t, eyes, dt, posterior, norm);
      && r.verified == t.verified + EyeVerified(candidates, eyes)
      && r.preds.Keys == t.preds.Keys + BoxIds(EyeVerified(candidates, eyes))
      && (Registered(t.order, t.preds) ==> Registered(r.order, r.preds))
  {
    if candidates != [] {
      var init := candidates[..|candidates| - 1];
      TrackAllBookkeeping(init, t, eyes, dt, posterior, norm);
      var prev := TrackAll(init, t, eyes, dt, posterior, norm);
      var b := candidates[|candidates| - 1];
      if eyes(b) >= 1 && b !in prev.preds && Registered(prev.order, prev.preds) {
        var o := prev.order + [b];
        forall i, j | 0 <= i < j < |o|
          ensures o[i] != o[j]
        {
          if j == |o| - 1 {
            assert o[i] in prev.order;
          }
        }
      }
    }
  }

  /** The predictor a face gets depends only on that face's own entry. */
  lemma TrackedOwnEntry(m1: map<Box, Predictor>, m2: map<Box, Predictor>, b: Box, dt: real,
                        posterior: (Predictor, Point) -> KState, norm: (real, real) -> real)
    requires Ready(m1) && Ready(m2) && NormOracle(norm)
    requires (b in m1 <==> b in m2) && (b in m1 ==> m1[b] == m2[b])
    ensures Tracked(m1, b, dt, posterior, norm) == Tracked(m2, b, dt, posterior, norm)
  {
  }

  /** Over distinct candidates, each verified face ends with the predictor
      Tracked gives it (an update of its existing predictor, or a fresh
      predictor at its centre) and every other predictor is left as it was. */
  lemma {:induction false} TrackAllEffect(candidates: seq<Box>, t: Tracking, eyes: Box -> nat, dt: real,
                                          posterior: (Predictor, Point) -> KState, norm: (real, real) -> real)
    requires Ready(t.preds) && NormOracle(norm) && Distinct(candidates)
    ensures var r := TrackAll(candidates, t, eyes, dt, posterior, norm);
      forall id :: id in r.preds ==>
        r.preds[id] == if id in candidates && eyes(id) >= 1 then Tracked(t.preds, id, dt, posterior, norm)
                       else t.preds[id]
  {
    if candidates != [] {
      var init := candidates[..|candidates| - 1];
      var b := candidates[|candidates| - 1];
      assert forall x :: x in candidates <==> x in init || x == b;
      assert b !in init by {
        forall j | 0 <= j < |init|
          ensures init[j] != b
        {
          assert init[j] == candidates[j];
        }
      }
      TrackAllEffect(init, t, eyes, dt, posterior, norm);
      var prev := TrackAll(init, t, eyes, dt, posterior, norm);
      assert t.preds.Keys <= prev.preds.Keys;
      if eyes(b) >= 1 {
        TrackedOwnEntry(prev.preds, t.preds, b, dt, posterior, norm);
      }
    }
  }

  /** After the stale predictors are deleted, the detector keeps exactly one
      predictor per returned face, in insertion order. */
  lemma CleanupKeepsReturned(t: Tracking, faces: seq<Box>)
    requires Registered(t.order, t.preds) && BoxIds(faces) <= t.preds.Keys
    ensures RestrictKeys(t.preds, BoxIds(faces)).Keys == BoxIds(faces)
    ensures Registered(KeepIn(t.order, BoxIds(faces)), RestrictKeys(t.preds, BoxIds(faces)))
  {
  }

  /** What detect_faces produces for a frame: the faces, and the detector's
      predictors and their insertion order afterwards. */
  datatype Detected = Detected(faces: seq<Box>, preds: map<Box, Predictor>, order: seq<Box>)

  /** detect_faces on a frame `frameWidth` by `frameHeight` taken `dt` seconds
      after the previous one: the region search over the predictors in
      insertion order, then the cascade on the whole frame; the candidates
      (region finds first) in which an eye is found are returned, each updating
      its predictor or getting a new one; the predictors of faces not returned
      are deleted. The detector then holds exactly one predictor per returned
      face. */
  function Detect(preds: map<Box, Predictor>, order: seq<Box>, frameWidth: nat, frameHeight: nat, dt: real,
                  cascade: Box -> seq<Box>, eyes: Box -> nat, variance: Predictor -> real,
                  norm: (real, real) -> real, posterior: (Predictor, Point) -> KState): (r: Detected)
    requires Registered(order, preds) && VarianceOracle(variance) && NormOracle(norm)
    ensures Registered(r.order, r.preds)
    ensures r.preds.Keys == BoxIds(r.faces)
  {
    var s := SearchAll(order, preds, variance, norm, cascade, frameWidth, frameHeight);
    var candidates := s.1 + cascade(Box(0, 0, frameWidth, frameHeight));
    var t := TrackAll(candidates, Tracking(s.0, order, []), eyes, dt, posterior, norm);
    TrackAllBookkeeping(candidates, Tracking(s.0, order, []), eyes, dt, posterior, norm);
    CleanupKeepsReturned(t, t.verified);
    Detected(t.verified, RestrictKeys(t.preds, BoxIds(t.verified)), KeepIn(t.order, BoxIds(t.verified)))
  }

  /** What a frame's detection returns and keeps: exactly the candidates in
      which an eye is found, a candidate being a box the cascade finds on the
      whole frame or one a predictor finds in its search region; and, when no
      box is found twice, the predictor of each returned face is the one
      Tracked gives it from the predictors after the region search. */
  lemma DetectOutcome(preds: map<Box, Predictor>, order: seq<Box>, frameWidth: nat, frameHeight: nat, dt: real,
                      cascade: Box -> seq<Box>, eyes: Box -> nat, variance: Predictor -> real,
                      norm: (real, real) -> real, posterior: (Predictor, Point) -> KState)
    requires Registered(order, preds) && VarianceOracle(variance) && NormOracle(norm)
    ensures var d := Detect(preds, order, frameWidth, frameHeight, dt, cascade, eyes, variance, norm, posterior);
      var s := SearchAll(order, preds, variance, norm, cascade, frameWidth, frameHeight);
      var candidates := s.1 + cascade(Box(0, 0, frameWidth, frameHeight));
      && d.faces == EyeVerified(candidates, eyes)
      && (forall b :: b in d.faces <==>
            eyes(b) >= 1 &&
            (b in cascade(Box(0, 0, frameWidth, frameHeight)) ||
             exists id :: id in order && FoundBy(b, preds[id], variance, norm, cascade, frameWidth, frameHeight)))
      && (Distinct(candidates) ==>
            forall b :: b in d.preds ==> d.preds[b] == Tracked(s.0, b, dt, posterior, norm))
  {
    var s := SearchAll(order, preds, variance, norm, cascade, frameWidth, frameHeight);
    var candidates := s.1 + cascade(Box(0, 0, frameWidth, frameHeight));
    SearchAllEffect(order, preds, variance, norm, cascade, frameWidth, frameHeight);
    TrackAllBookkeeping(candidates, Tracking(s.0, order, []), eyes, dt, posterior, norm);
    if Distinct(candidates) {
      TrackAllEffect(candidates, Tracking(s.0, order, []), eyes, dt, posterior, norm);
    }
  }

  // ----- draw_faces -----

  /** One element of faces_with_info: its length, and the bbox, name and
      confidence it carries where it has them (a bbox of any length). */
  datatype FaceInfo = FaceInfo(arity: nat, bbox: seq<int>, name: string, confidence: real)

  /** An entry draw_faces processes: a triple whose bbox has four values. */
  predicate WellFormed(e: FaceInfo)
  {
    e.arity == 3 && |e.bbox| == 4
  }

  function BoxOf(bbox: seq<int>): Box
    requires |bbox| == 4
  {
    Box(bbox[0], bbox[1], bbox[2], bbox[3])
  }

  /** The boxes the cleanup at the end of draw_faces keeps: those of every
      entry that has a first element holding four values. */
  function CleanupBoxes(entries: seq<FaceInfo>): (r: seq<Box>)
    ensures forall b :: b in r <==>
      exists e :: e in entries && e.arity >= 1 && |e.bbox| == 4 && b == BoxOf(e.bbox)
  {
    if entries == [] then []
    else
      var prefix := CleanupBoxes(entries[..|entries| - 1]);
      var e := entries[|entries| - 1];
      assert forall x :: x in entries <==> x in entries[..|entries| - 1] || x == e;
      if e.arity >= 1 && |e.bbox| == 4 then prefix + [BoxOf(e.bbox)] else prefix
  }

  /** What the annotation loop of draw_faces works with: the frame width, the
      two trackers' settings, and whether landmarks are drawn (and for which
      boxes drawing them raises, an empty face region making OpenCV fail). */
  datatype Scene = Scene(frameWidth: nat, positionWindow: nat, knownFaceWidth: real, distanceWindow: nat,
                         showLandmarks: bool, landmarksFail: Box -> bool)

  /** The state the annotation loop changes: the position histories, the
      distance tracker's focal length and histories, and the unknown faces'
      corners. */
  datatype Annotation = Annotation(positions: map<Box, seq<real>>, focal: Option<real>,
                                   distances: map<Box, seq<real>>, unknowns: seq<(int, int)>)

  ghost predicate Fits(a: Annotation, sc: Scene)
  {
    && 1 <= sc.positionWindow && 1 <= sc.distanceWindow
    && WindowsFit(a.positions, sc.positionWindow) && WindowsFit(a.distances, sc.distanceWindow)
  }

  /** An entry that counts as an unknown face: processed, both trackers
      succeed on it, landmarks do not fail, and its name is "Unknown". */
  predicate CountsAsUnknown(e: FaceInfo, sc: Scene)
  {
    && WellFormed(e) && sc.frameWidth > 0 && BoxOf(e.bbox).w != 0
    && !(sc.showLandmarks && sc.landmarksFail(BoxOf(e.bbox)))
    && e.name == "Unknown"
  }

  /** get_face_position then get_distance on the box `b` of a frame of
      non-zero width: the raw position joins the box's position window, the
      focal length is fixed at 1.5 times the frame width unless already known,
      and unless the box has zero width (get_distance then raises) the distance
      estimate joins the box's distance window. */
  function Observed(a: Annotation, b: Box, sc: Scene): (r: Annotation)
    requires Fits(a, sc) && sc.frameWidth > 0
    ensures Fits(r, sc) && r.unknowns == a.unknowns
    ensures b in r.positions && (b in r.distances <==> b in a.distances || b.w != 0)
    ensures r.focal.Some? && (a.focal.Some? ==> r.focal == a.focal)
  {
    var positions := Observe(a.positions, b, RelativePosition(CenterX(b), sc.frameWidth / 2, sc.frameWidth),
                             sc.positionWindow);
    var focal := if a.focal.Some? then a.focal else Some(sc.frameWidth as real * 1.5);
    Annotation(positions, focal,
               if b.w == 0 then a.distances
               else Observe(a.distances, b, Estimate(sc.knownFaceWidth, focal.value, b.w), sc.distanceWindow),
               a.unknowns)
  }

  /** One entry of the annotation loop. A malformed entry is skipped, and so
      is every entry of a zero-width frame (get_face_position raises); a
      processed entry is observed, and its corner is recorded when it counts
      as an unknown face. */
  function AnnotateOne(a: Annotation, e: FaceInfo, sc: Scene): (r: Annotation)
    requires Fits(a, sc)
    ensures Fits(r, sc)
  {
    if !WellFormed(e) || sc.frameWidth == 0 then a
    else
      var b := BoxOf(e.bbox);
      var o := Observed(a, b, sc);
      if CountsAsUnknown(e, sc) then o.(unknowns := a.unknowns + [(b.x, b.y)]) else o
  }

  /** The annotation loop of draw_faces over `entries`. */
  function Annotate(entries: seq<FaceInfo>, a: Annotation, sc: Scene): (r: Annotation)
    requires Fits(a, sc)
    ensures Fits(r, sc)
  {
    if entries == [] then a
    else AnnotateOne(Annotate(entries[..|entries| - 1], a, sc), entries[|entries| - 1], sc)
  }

  /** The annotation loop records the corners of exactly the entries that
      count as unknown faces, and gives a history to exactly the boxes of the
      processed entries (none when the frame has zero width). */
  lemma {:induction false} AnnotateEffect(entries: seq<FaceInfo>, a: Annotation, sc: Scene)
    requires Fits(a, sc)
    ensures var r := Annotate(entries, a, sc);
      && (forall u :: u in r.unknowns <==>
            (u in a.unknowns ||
             exists e :: e in entries && CountsAsUnknown(e, sc) && u == (BoxOf(e.bbox).x, BoxOf(e.bbox).y)))
      && (forall b :: b in r.positions <==>
            (b in a.positions ||
             (sc.frameWidth > 0 && exists e :: e in entries && WellFormed(e) && b == BoxOf(e.bbox))))
  {
    if entries != [] {
      var init := entries[..|entries| - 1];
      var e := entries[|entries| - 1];
      assert forall x :: x in entries <==> x in init || x == e;
      AnnotateEffect(init, a, sc);
    }
  }

  /** `s` is ordered by x coordinate. */
  predicate SortedByX(s: seq<(int, int)>)
  {
    forall i, j :: 0 <= i < j < |s| ==> s[i].0 <= s[j].0
  }

  /** `p` placed after every element whose x coordinate is at most its own. */
  function InsertByX(p: (int, int), s: seq<(int, int)>): (r: seq<(int, int)>)
    ensures multiset(r) == multiset(s) + multiset{p}
  {
    if s == [] then [p]
    else if s[0].0 > p.0 then [p] + s
    else
      assert s == [s[0]] + s[1..];
      [s[0]] + InsertByX(p, s[1..])
  }

  lemma {:induction false} InsertByXSorted(p: (int, int), s: seq<(int, int)>)
    requires SortedByX(s)
    ensures SortedByX(InsertByX(p, s))
  {
    if s != [] && s[0].0 <= p.0 {
      var tail := s[1..];
      assert SortedByX(tail);
      InsertByXSorted(p, tail);
      var r := InsertByX(p, tail);
      var whole := [s[0]] + r;
      forall k | 0 <= k < |r|
        ensures s[0].0 <= r[k].0
      {
        assert r[k] in multiset(r);
        if r[k] != p {
          assert r[k] in multiset(tail);
          var m :| 0 <= m < |tail| && tail[m] == r[k];
          assert tail[m] == s[m + 1];
        }
      }
      forall i, j | 0 <= i < j < |whole|
        ensures whole[i].0 <= whole[j].0
      {
        if i == 0 {
          assert whole[j] == r[j - 1];
        } else {
          assert whole[i] == r[i - 1] && whole[j] == r[j - 1];
        }
      }
    }
  }

  /** `list.sort(key=lambda pos: pos[0])`: a stable sort by x. */
  function SortByX(s: seq<(int, int)>): (r: seq<(int, int)>)
    ensures SortedByX(r) && multiset(r) == multiset(s)
  {
    if s == [] then []
    else
      assert s == s[..|s| - 1] + [s[|s| - 1]];
      var sorted := SortByX(s[..|s| - 1]);
      InsertByXSorted(s[|s| - 1], sorted);
      InsertByX(s[|s| - 1], sorted)
  }

  /** The elements of `s` with x coordinate `x`, in order. */
  function WithX(s: seq<(int, int)>, x: int): seq<(int, int)>
  {
    if s == [] then []
    else WithX(s[..|s| - 1], x) + (if s[|s| - 1].0 == x then [s[|s| - 1]] else [])
  }

  lemma {:induction false} WithXConcat(s: seq<(int, int)>, t: seq<(int, int)>, x: int)
    ensures WithX(s + t, x) == WithX(s, x) + WithX(t, x)
  {
    if t != [] {
      assert (s + t)[..|s + t| - 1] == s + t[..|t| - 1];
      WithXConcat(s, t[..|t| - 1], x);
    } else {
      assert s + t == s;
    }
  }

  /** No element of a sequence ordered by x, starting above `x`, has x
      coordinate `x`. */
  lemma {:induction false} WithXNone(s: seq<(int, int)>, x: int)
    requires SortedByX(s) && s != [] && s[0].0 > x
    ensures WithX(s, x) == []
  {
    if |s| > 1 {
      var init := s[..|s| - 1];
      assert SortedByX(init);
      WithXNone(init, x);
      assert s[|s| - 1].0 >= s[0].0;
    } else {
      assert s[..|s| - 1] == [];
    }
  }

  /** `p` inserted in front of elements all above its x coordinate. */
  lemma WithXInsertFront(p: (int, int), s: seq<(int, int)>, x: int)
    requires SortedByX(s) && s != [] && s[0].0 > p.0
    ensures WithX([p] + s, x) == WithX(s, x) + (if p.0 == x then [p] else [])
  {
    WithXConcat([p], s, x);
    assert WithX([p], x) == WithX([], x) + (if p.0 == x then [p] else []);
    if p.0 == x {
      WithXNone(s, x);
    }
  }

  /** `p` inserted behind the first element, given where it lands in the
      rest. */
  lemma WithXInsertBehind(p: (int, int), s: seq<(int, int)>, x: int)
    requires s != [] && s[0].0 <= p.0
    requires WithX(InsertByX(p, s[1..]), x) == WithX(s[1..], x) + (if p.0 == x then [p] else [])
    ensures WithX(InsertByX(p, s), x) == WithX(s, x) + (if p.0 == x then [p] else [])
  {
    var tag := if p.0 == x then [p] else [];
    var head, tail := [s[0]], s[1..];
    var r := InsertByX(p, tail);
    assert InsertByX(p, s) == head + r;
    assert head + tail == s;
    var h, w := WithX(head, x), WithX(tail, x);
    calc {
      WithX(InsertByX(p, s), x);
      { WithXConcat(head, r, x); }
      h + WithX(r, x);
      h + (w + tag);
      (h + w) + tag;
      { WithXConcat(head, tail, x); }
      WithX(s, x) + tag;
    }
  }

  lemma {:induction false} WithXInsert(p: (int, int), s: seq<(int, int)>, x: int)
    requires SortedByX(s)
    ensures WithX(InsertByX(p, s), x) == WithX(s, x) + (if p.0 == x then [p] else [])
  {
    if s == [] {
      assert WithX([p], x) == WithX([], x) + (if p.0 == x then [p] else []);
    } else if s[0].0 > p.0 {
      WithXInsertFront(p, s, x);
    } else {
      assert SortedByX(s[1..]);
      WithXInsert(p, s[1..], x);
      WithXInsertBehind(p, s, x);
    }
  }

  /** The sort is stable: faces with the same x coordinate keep their order. */
  lemma {:induction false} SortByXStable(s: seq<(int, int)>, x: int)
    ensures WithX(SortByX(s), x) == WithX(s, x)
  {
    if s != [] {
      SortByXStable(s[..|s| - 1], x);
      WithXInsert(s[|s| - 1], SortByX(s[..|s| - 1]), x);
    }
  }

  /** The labels drawn on the unknown faces: "Unknown #1", "Unknown #2", ...
      in the order given. */
  function UnknownLabels(sorted: seq<(int, int)>): (labels: seq<(string, (int, int))>)
    ensures |labels| == |sorted|
    ensures forall i :: 0 <= i < |sorted| ==> labels[i].1 == sorted[i]
  {
    seq(|sorted|, i requires 0 <= i < |sorted| => ("Unknown #" + NatToString(i + 1), sorted[i]))
  }

  /** The unknown faces are numbered from left to right: the labelled
      positions are the unknown faces, ordered by x, and the i-th of them
      reads "Unknown #" followed by i + 1. */
  lemma UnknownNumbering(unknowns: seq<(int, int)>)
    ensures var labels := UnknownLabels(SortByX(unknowns));
      && |labels| == |unknowns|
      && (forall i, j :: 0 <= i < j < |labels| ==> labels[i].1.0 <= labels[j].1.0)
      && multiset(SortByX(unknowns)) == multiset(unknowns)
      && (forall i :: 0 <= i < |labels| ==> labels[i].0 == "Unknown #" + NatToString(i + 1))
  {
    assert |SortByX(unknowns)| == |multiset(SortByX(unknowns))| == |multiset(unknowns)| == |unknowns|;
  }

  /** One entry of the prediction-drawing loop of draw_faces: a tracked face
      predicts, and predicts once more (inside get_search_region) when its
      confidence then exceeds 0.5. */
  function PredictOne(preds: map<Box, Predictor>, e: FaceInfo, variance: Predictor -> real): (r: map<Box, Predictor>)
    requires Ready(preds) && VarianceOracle(variance)
    ensures r.Keys == preds.Keys && Ready(r)
  {
    if !WellFormed(e) || BoxOf(e.bbox) !in preds then preds
    else
      var id := BoxOf(e.bbox);
      var q := Predicted(preds[id], variance(preds[id]));
      preds[id := if q.confidence > 0.5 then Predicted(q, variance(q)) else q]
  }

  /** The prediction-drawing loop over `entries`. */
  function ShowPredictions(entries: seq<FaceInfo>, preds: map<Box, Predictor>, variance: Predictor -> real): (r: map<Box, Predictor>)
    requires Ready(preds) && VarianceOracle(variance)
    ensures r.Keys == preds.Keys && Ready(r)
  {
    if entries == [] then preds
    else PredictOne(ShowPredictions(entries[..|entries| - 1], preds, variance), entries[|entries| - 1], variance)
  }

  /** Drawing predictions leaves the predictor of a face no well-formed entry
      names as it was. */
  lemma {:induction false} ShowPredictionsUntouched(entries: seq<FaceInfo>, preds: map<Box, Predictor>,
                                                    variance: Predictor -> real, id: Box)
    requires Ready(preds) && VarianceOracle(variance) && id in preds
    requires forall e :: e in entries && WellFormed(e) ==> BoxOf(e.bbox) != id
    ensures ShowPredictions(entries, preds, variance)[id] == preds[id]
  {
    if entries != [] {
      var init := entries[..|entries| - 1];
      assert forall e :: e in init ==> e in entries;
      ShowPredictionsUntouched(init, preds, variance, id);
    }
  }

  /** The source's FaceDetector. The database handle is not part of this
      model; the cascades, clock and filter outputs are arguments. */
  class FaceDetector {
    const positionTracker: PositionTracker
    const distanceTracker: DistanceTracker
    /** motion_predictors, with its insertion order kept in `order`. */
    var motionPredictors: map<Box, Predictor>
    var order: seq<Box>
    var lastFrameTime: real
    var currentUnknownFaces: seq<(int, int)>

    ghost predicate Valid()
      reads this, positionTracker, distanceTracker
    {
      positionTracker.Valid() && distanceTracker.Valid() && Registered(order, motionPredictors)
    }

    /** A detector with fresh position (window 5) and distance (15 cm face,
        window 5) trackers, no predictors, and the clock reading `now`. */
    constructor (now: real)
      ensures Valid()
      ensures fresh(positionTracker) && fresh(distanceTracker)
      ensures motionPredictors == map[] && order == [] && currentUnknownFaces == []
      ensures lastFrameTime == now
      ensures positionTracker.smoothingWindow == 5 && positionTracker.history == map[]
      ensures positionTracker.frameWidth.None?
      ensures distanceTracker.knownFaceWidth == 15.0 && distanceTracker.smoothingWindow == 5
      ensures distanceTracker.history == map[] && distanceTracker.focalLength.None?
    {
      positionTracker := new PositionTracker(5);
      distanceTracker := new DistanceTracker(15.0, 5);
      motionPredictors := map[];
      order := [];
      lastFrameTime := now;
      currentUnknownFaces := [];
    }

    /** detect_faces. No frame: no faces, nothing changes. Otherwise the clock
        advances to `now`; the region search runs over the predictors in
        insertion order, the cascade runs on the whole frame, the candidates
        (region finds first) are kept when an eye is found in them, each kept
        face updates or creates its predictor, and the predictors of faces not
        returned are deleted. */
    method DetectFaces(frame: Option<Frame>, now: real, cascade: Box -> seq<Box>, eyes: Box -> nat,
                       variance: Predictor -> real, norm: (real, real) -> real,
                       posterior: (Predictor, Point) -> KState) returns (faces: seq<Box>)
      requires Valid() && VarianceOracle(variance) && NormOracle(norm)
      modifies this`motionPredictors, this`order, this`lastFrameTime
      ensures Valid()
      ensures frame.None? ==>
        faces == [] && motionPredictors == old(motionPredictors) && order == old(order)
        && lastFrameTime == old(lastFrameTime)
      ensures frame.Some? ==>
        && lastFrameTime == now
        && Detected(faces, motionPredictors, order)
           == Detect(old(motionPredictors), old(order), frame.value.width, frame.value.height,
                     now - old(lastFrameTime), cascade, eyes, variance, norm, posterior)
    {
      if frame.None? {
        return [];
      }
      var dt := now - lastFrameTime;
      lastFrameTime := now;
      var width, height := frame.value.width, frame.value.height;
      ghost var d := Detect(motionPredictors, order, width, height, dt, cascade, eyes, variance, norm, posterior);
      var hits := SearchRegions(width, height, cascade, variance, norm);
      var full := cascade(Box(0, 0, width, height));
      faces := TrackVerified(hits + full, dt, eyes, posterior, norm);
      motionPredictors := DeleteStale(motionPredictors, BoxIds(faces));
      order := KeepIn(order, BoxIds(faces));
      assert Detected(faces, motionPredictors, order) == d;
    }

    /** The first loop of detect_faces: every predictor, in insertion order,
        computes its search region (which makes it predict); the cascade runs
        inside the region of each predictor whose confidence then exceeds 0.5,
        and its finds are moved to frame coordinates. */
    method SearchRegions(frameWidth: int, frameHeight: int, cascade: Box -> seq<Box>,
                         variance: Predictor -> real, norm: (real, real) -> real) returns (hits: seq<Box>)
      requires Registered(order, motionPredictors) && VarianceOracle(variance)
      modifies this`motionPredictors
      ensures Registered(order, motionPredictors)
      ensures (motionPredictors, hits)
           == SearchAll(order, old(motionPredictors), variance, norm, cascade, frameWidth, frameHeight)
    {
      var preds := motionPredictors;
      ghost var preds0 := motionPredictors;
      var ids := order;
      assert forall id :: id in ids ==> id in preds0;
      hits := [];
      var i := 0;
      while i < |ids|
        invariant 0 <= i <= |ids|
        invariant forall id :: id in ids[..i] ==> id in preds0
        invariant (preds, hits) == SearchAll(ids[..i], preds0, variance, norm, cascade, frameWidth, frameHeight)
      {
        var id := ids[i];
        SearchPrefixStep(ids, preds0, variance, norm, cascade, frameWidth, frameHeight, i);
        var step := SearchStep(preds[id], variance, norm, cascade, frameWidth, frameHeight);
        preds := preds[id := step.0];
        hits := hits + step.1;
        i := i + 1;
      }
      assert ids[..i] == ids;
      motionPredictors := preds;
    }

    /** The second loop of detect_faces: each candidate in which an eye is
        found is returned and updates its predictor, or gets a new one. */
    method TrackVerified(candidates: seq<Box>, dt: real, eyes: Box -> nat,
                         posterior: (Predictor, Point) -> KState, norm: (real, real) -> real)
      returns (verified: seq<Box>)
      requires Ready(motionPredictors) && NormOracle(norm)
      modifies this`motionPredictors, this`order
      ensures Tracking(motionPredictors, order, verified)
           == TrackAll(candidates, Tracking(old(motionPredictors), old(order), []), eyes, dt, posterior, norm)
    {
      ghost var t0 := Tracking(motionPredictors, order, []);
      var preds, ids := motionPredictors, order;
      verified := [];
      var i := 0;
      while i < |candidates|
        invariant 0 <= i <= |candidates|
        invariant Tracking(preds, ids, verified) == TrackAll(candidates[..i], t0, eyes, dt, posterior, norm)
      {
        var b := candidates[i];
        assert candidates[..i + 1][..i] == candidates[..i];
        assert TrackAll(candidates[..i + 1], t0, eyes, dt, posterior, norm)
            == TrackStep(Tracking(preds, ids, verified), b, eyes, dt, posterior, norm);
        if eyes(b) >= 1 {
          verified := verified + [b];
          if b !in preds {
            ids := ids + [b];
          }
          preds := preds[b := Tracked(preds, b, dt, posterior, norm)];
        }
        i := i + 1;
      }
      assert candidates[..i] == candidates;
      motionPredictors, order := preds, ids;
    }

    /** draw_faces on a frame. Returns the labels drawn on the unknown faces.
        The position tracker takes the frame's width; each entry is annotated;
        both trackers then forget every box not among the entries' bboxes; the
        unknown faces are numbered from left to right and the list is emptied;
        with `showPredictions` the tracked faces' predictors advance. */
    method DrawFaces(frame: Frame, entries: seq<FaceInfo>, showLandmarks: bool, landmarksFail: Box -> bool,
                     showPredictions: bool, variance: Predictor -> real)
      returns (labels: seq<(string, (int, int))>)
      requires Valid() && VarianceOracle(variance)
      modifies positionTracker`frameWidth, positionTracker`frameCenter, positionTracker`history
      modifies distanceTracker`focalLength, distanceTracker`history
      modifies this`currentUnknownFaces, this`motionPredictors
      ensures Valid()
      ensures
        var sc := Scene(frame.width, positionTracker.smoothingWindow, distanceTracker.knownFaceWidth,
                        distanceTracker.smoothingWindow, showLandmarks, landmarksFail);
        var a := Annotate(entries, Annotation(old(positionTracker.history), old(distanceTracker.focalLength),
                                              old(distanceTracker.history), []), sc);
        var kept := BoxIds(CleanupBoxes(entries));
        && positionTracker.frameWidth == Some(frame.width)
        && positionTracker.history == RestrictKeys(a.positions, kept)
        && distanceTracker.focalLength == a.focal
        && distanceTracker.history == RestrictKeys(a.distances, kept)
        && labels == UnknownLabels(SortByX(a.unknowns))
        && currentUnknownFaces == []
        && motionPredictors == if showPredictions then ShowPredictions(entries, old(motionPredictors), variance)
                               else old(motionPredictors)
    {
      positionTracker.UpdateFrameDimensions(frame);
      currentUnknownFaces := [];
      ghost var sc := Scene(frame.width, positionTracker.smoothingWindow, distanceTracker.knownFaceWidth,
                            distanceTracker.smoothingWindow, showLandmarks, landmarksFail);
      AnnotateEntries(entries, sc, showLandmarks, landmarksFail);
      var coords := CollectBoxes(entries);
      positionTracker.CleanupStaleFaces(coords);
      distanceTracker.CleanupStaleFaces(coords);
      currentUnknownFaces := SortByX(currentUnknownFaces);
      labels := UnknownLabels(currentUnknownFaces);
      currentUnknownFaces := [];
      if showPredictions {
        motionPredictors := AdvancePredictors(motionPredictors, entries, variance);
      }
    }

    /** The annotation loop of draw_faces, from an empty list of unknown
        faces. */
    method AnnotateEntries(entries: seq<FaceInfo>, ghost sc: Scene, showLandmarks: bool, landmarksFail: Box -> bool)
      requires sc.showLandmarks == showLandmarks && sc.landmarksFail == landmarksFail
      requires positionTracker.Valid() && distanceTracker.Valid() && currentUnknownFaces == []
      requires positionTracker.frameWidth == Some(sc.frameWidth) && positionTracker.frameCenter == Some(sc.frameWidth / 2)
      requires sc.positionWindow == positionTracker.smoothingWindow
      requires sc.knownFaceWidth == distanceTracker.knownFaceWidth && sc.distanceWindow == distanceTracker.smoothingWindow
      modifies positionTracker`history, distanceTracker`focalLength, distanceTracker`history, this`currentUnknownFaces
      ensures positionTracker.Valid() && distanceTracker.Valid()
      ensures Annotation(positionTracker.history, distanceTracker.focalLength, distanceTracker.history, currentUnknownFaces)
           == Annotate(entries, Annotation(old(positionTracker.history), old(distanceTracker.focalLength),
                                           old(distanceTracker.history), []), sc)
    {
      ghost var a0 := Annotation(positionTracker.history, distanceTracker.focalLength, distanceTracker.history, []);
      var i := 0;
      while i < |entries|
        invariant 0 <= i <= |entries|
        invariant positionTracker.Valid() && distanceTracker.Valid()
        invariant Annotation(positionTracker.history, distanceTracker.focalLength, distanceTracker.history,
                             currentUnknownFaces) == Annotate(entries[..i], a0, sc)
      {
        assert entries[..i + 1][..i] == entries[..i];
        AnnotateAt(entries[i], Annotate(entries[..i], a0, sc), sc, showLandmarks, landmarksFail);
        i := i + 1;
      }
      assert entries[..i] == entries;
    }

    /** One entry of the annotation loop of draw_faces: a malformed entry is
        skipped; otherwise position and distance are observed, then (when
        landmarks are drawn) the landmark pass runs, then a face named
        "Unknown" has its corner recorded. An exception at any step ends the
        entry. */
    method AnnotateAt(e: FaceInfo, ghost a: Annotation, ghost sc: Scene, showLandmarks: bool, landmarksFail: Box -> bool)
      requires positionTracker.Valid() && distanceTracker.Valid() && Fits(a, sc)
      requires sc.showLandmarks == showLandmarks && sc.landmarksFail == landmarksFail
      requires positionTracker.frameWidth == Some(sc.frameWidth) && positionTracker.frameCenter == Some(sc.frameWidth / 2)
      requires sc.positionWindow == positionTracker.smoothingWindow
      requires sc.knownFaceWidth == distanceTracker.knownFaceWidth && sc.distanceWindow == distanceTracker.smoothingWindow
      requires a == Annotation(positionTracker.history, distanceTracker.focalLength, distanceTracker.history,
                               currentUnknownFaces)
      modifies positionTracker`history, distanceTracker`focalLength, distanceTracker`history, this`currentUnknownFaces
      ensures positionTracker.Valid() && distanceTracker.Valid()
      ensures Annotation(positionTracker.history, distanceTracker.focalLength, distanceTracker.history,
                         currentUnknownFaces) == AnnotateOne(a, e, sc)
    {
      if e.arity != 3 || |e.bbox| != 4 {
        return;
      }
      var b := BoxOf(e.bbox);
      var observed := ObserveFace(b, a, sc);
      if !observed {
        return;
      }
      if showLandmarks && landmarksFail(b) {
        return;
      }
      if e.name == "Unknown" {
        currentUnknownFaces := currentUnknownFaces + [(b.x, b.y)];
      }
    }

    /** get_face_position then get_distance on `b`; true when neither
        raised. */
    method ObserveFace(b: Box, ghost a: Annotation, ghost sc: Scene) returns (observed: bool)
      requires positionTracker.Valid() && distanceTracker.Valid() && Fits(a, sc)
      requires positionTracker.frameWidth == Some(sc.frameWidth) && positionTracker.frameCenter == Some(sc.frameWidth / 2)
      requires sc.positionWindow == positionTracker.smoothingWindow
      requires sc.knownFaceWidth == distanceTracker.knownFaceWidth && sc.distanceWindow == distanceTracker.smoothingWindow
      requires a.positions == positionTracker.history && a.focal == distanceTracker.focalLength
      requires a.distances == distanceTracker.history
      modifies positionTracker`history, distanceTracker`focalLength, distanceTracker`history
      ensures positionTracker.Valid() && distanceTracker.Valid()
      ensures sc.frameWidth == 0 ==>
        !observed && positionTracker.history == a.positions && distanceTracker.focalLength == a.focal
        && distanceTracker.history == a.distances
      ensures sc.frameWidth > 0 ==>
        && Annotation(positionTracker.history, distanceTracker.focalLength, distanceTracker.history, a.unknowns)
           == Observed(a, b, sc)
        && (observed <==> b.w != 0)
    {
      var positioned := ObservePosition(b, a, sc);
      if !positioned {
        return false;
      }
      observed := ObserveDistance(b, positionTracker.frameWidth.value, a, sc);
    }

    /** get_face_position on `b`: for a frame of non-zero width the raw
        position joins the box's window; a zero-width frame raises and
        changes nothing. */
    method ObservePosition(b: Box, ghost a: Annotation, ghost sc: Scene) returns (ok: bool)
      requires positionTracker.Valid()
      requires positionTracker.frameWidth == Some(sc.frameWidth) && positionTracker.frameCenter == Some(sc.frameWidth / 2)
      requires sc.positionWindow == positionTracker.smoothingWindow && a.positions == positionTracker.history
      modifies positionTracker`history
      ensures positionTracker.Valid()
      ensures ok <==> sc.frameWidth > 0
      ensures !ok ==> positionTracker.history == a.positions
      ensures ok ==>
        positionTracker.history ==
        Observe(a.positions, b, RelativePosition(CenterX(b), sc.frameWidth / 2, sc.frameWidth), sc.positionWindow)
    {
      var position := positionTracker.GetFacePosition(b);
      ok := position.Ok?;
    }

    /** get_distance on `b` in a frame `width` wide: the focal length is
        fixed unless known, and unless the box has zero width (which
        raises) the estimate joins the box's window. */
    method ObserveDistance(b: Box, width: nat, ghost a: Annotation, ghost sc: Scene) returns (ok: bool)
      requires distanceTracker.Valid()
      requires sc.knownFaceWidth == distanceTracker.knownFaceWidth && sc.distanceWindow == distanceTracker.smoothingWindow
      requires a.focal == distanceTracker.focalLength && a.distances == distanceTracker.history
      modifies distanceTracker`focalLength, distanceTracker`history
      ensures distanceTracker.Valid()
      ensures ok <==> b.w != 0
      ensures distanceTracker.focalLength == if a.focal.Some? then a.focal else Some(width as real * 1.5)
      ensures distanceTracker.history ==
        if b.w == 0 then a.distances
        else Observe(a.distances, b, Estimate(sc.knownFaceWidth, distanceTracker.focalLength.value, b.w), sc.distanceWindow)
    {
      var distance := distanceTracker.GetDistance(b, width);
      ok := distance.Ok?;
    }

    /** The prediction-drawing loop of draw_faces. */
    static method AdvancePredictors(preds: map<Box, Predictor>, entries: seq<FaceInfo>, variance: Predictor -> real)
      returns (r: map<Box, Predictor>)
      requires Ready(preds) && VarianceOracle(variance)
      ensures r == ShowPredictions(entries, preds, variance)
    {
      r := preds;
      var i := 0;
      while i < |entries|
        invariant 0 <= i <= |entries|
        invariant r == ShowPredictions(entries[..i], preds, variance)
      {
        assert entries[..i + 1][..i] == entries[..i];
        r := PredictOne(r, entries[i], variance);
        i := i + 1;
      }
      assert entries[..i] == entries;
    }

    /** The loop collecting the boxes the trackers keep. */
    method CollectBoxes(entries: seq<FaceInfo>) returns (coords: seq<Box>)
      ensures coords == CleanupBoxes(entries)
    {
      coords := [];
      var i := 0;
      while i < |entries|
        invariant 0 <= i <= |entries| && coords == CleanupBoxes(entries[..i])
      {
        assert entries[..i + 1][..i] == entries[..i];
        var e := entries[i];
        if e.arity >= 1 && |e.bbox| == 4 {
          coords := coords + [BoxOf(e.bbox)];
        }
        i := i + 1;
      }
      assert entries[..i] == entries;
    }
  }
}
