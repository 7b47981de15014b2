/** Motion prediction for a tracked face: a constant-acceleration state
    (position, velocity, acceleration in x and y) advanced by a fixed time step,
    a bounded history of predicted positions, a confidence score, and the
    search rectangle derived from them for the next frame.

    The Kalman covariance and gain arithmetic belongs to the filtering library;
    its results enter as arguments: the position variance after a prediction,
    the posterior state after a measurement update, and the Euclidean norms the
    source takes with numpy. */
module Motion {
  import opened Common

  /** The filter's mean state vector (x, y, vx, vy, ax, ay). */
  datatype KState = KState(x: real, y: real, vx: real, vy: real, ax: real, ay: real)

  /** A predicted or measured position. */
  datatype Point = Point(x: real, y: real)

  /** The mean transition: constant acceleration over a step of `dt`. */
  function Transition(s: KState, dt: real): KState
  {
    KState(
      s.x + s.vx * dt + 0.5 * s.ax * dt * dt,
      s.y + s.vy * dt + 0.5 * s.ay * dt * dt,
      s.vx + s.ax * dt,
      s.vy + s.ay * dt,
      s.ax,
      s.ay)
  }

  /** The transition matrix F the filter is configured with, row by row. */
  function TransitionMatrix(dt: real): (f: seq<seq<real>>)
    ensures |f| == 6 && forall i :: 0 <= i < 6 ==> |f[i]| == 6
  {
    [ [1.0, 0.0, dt, 0.0, 0.5 * dt * dt, 0.0],
      [0.0, 1.0, 0.0, dt, 0.0, 0.5 * dt * dt],
      [0.0, 0.0, 1.0, 0.0, dt, 0.0],
      [0.0, 0.0, 0.0, 1.0, 0.0, dt],
      [0.0, 0.0, 0.0, 0.0, 1.0, 0.0],
      [0.0, 0.0, 0.0, 0.0, 0.0, 1.0] ]
  }

  function ToVector(s: KState): (v: seq<real>)
    ensures |v| == 6
  {
    [s.x, s.y, s.vx, s.vy, s.ax, s.ay]
  }

  /** The dot product of two rows of six reals. */
  function Dot6(a: seq<real>, b: seq<real>): real
    requires |a| == 6 && |b| == 6
  {
    a[0] * b[0] + a[1] * b[1] + a[2] * b[2] + a[3] * b[3] + a[4] * b[4] + a[5] * b[5]
  }

  /** F x: the matrix applied to the state vector. */
  function Apply(f: seq<seq<real>>, v: seq<real>): (r: seq<real>)
    requires |f| == 6 && |v| == 6 && forall i :: 0 <= i < 6 ==> |f[i]| == 6
    ensures |r| == 6
  {
    seq(6, i requires 0 <= i < 6 => Dot6(f[i], v))
  }

  /** The configured matrix computes exactly the constant-acceleration
      equations. */
  lemma TransitionIsMatrix(s: KState, dt: real)
    ensures Apply(TransitionMatrix(dt), ToVector(s)) == ToVector(Transition(s, dt))
  {
    var f := TransitionMatrix(dt);
    var v := ToVector(s);
    var r := Apply(f, v);
    var t := ToVector(Transition(s, dt));
    assert r[0] == t[0];
    assert r[1] == t[1];
    assert r[2] == t[2];
    assert r[3] == t[3];
    assert r[4] == t[4];
    assert r[5] == t[5];
  }

  /** Two steps of the transition are one step of the summed length: the model
      is exactly constant acceleration. */
  lemma TransitionComposes(s: KState, a: real, b: real)
    ensures Transition(Transition(s, a), b) == Transition(s, a + b)
  {
    var m := Transition(s, a);
    assert m.vx * b == s.vx * b + s.ax * a * b;
    assert m.vy * b == s.vy * b + s.ay * a * b;
    assert 0.5 * s.ax * (a + b) * (a + b) == 0.5 * s.ax * a * a + s.ax * a * b + 0.5 * s.ax * b * b;
    assert 0.5 * s.ay * (a + b) * (a + b) == 0.5 * s.ay * a * a + s.ay * a * b + 0.5 * s.ay * b * b;
    assert s.vx * (a + b) == s.vx * a + s.vx * b;
    assert s.vy * (a + b) == s.vy * a + s.vy * b;
    assert s.ax * (a + b) == s.ax * a + s.ax * b;
    assert s.ay * (a + b) == s.ay * a + s.ay * b;
  }

  /** `n` is the Euclidean norm of the vector (a, b). */
  predicate IsNorm(n: real, a: real, b: real)
  {
    n >= 0.0 && n * n == a * a + b * b
  }

  /** The confidence after a prediction whose position variance (the trace of
      the position block of the covariance) is `variance`. */
  function PredictedConfidence(variance: real): (c: real)
    requires variance >= 0.0
  {
    1.0 / (1.0 + variance)
  }

  /** A prediction's confidence lies in (0, 1], equals 1 only for zero
      variance, and drops below the 0.1 floor of `update` exactly when the
      variance exceeds 9: prediction applies no floor. */
  lemma PredictedConfidenceRange(variance: real)
    requires variance >= 0.0
    ensures 0.0 < PredictedConfidence(variance) <= 1.0
    ensures PredictedConfidence(variance) == 1.0 <==> variance == 0.0
    ensures PredictedConfidence(variance) < 0.1 <==> variance > 9.0
  {
    var c := PredictedConfidence(variance);
    assert c * (1.0 + variance) == 1.0;
    if variance > 9.0 {
      assert c * 10.0 < c * (1.0 + variance);
    } else {
      assert c * (1.0 + variance) <= c * 10.0;
    }
    if variance > 0.0 {
      assert c * 1.0 < c * (1.0 + variance);
    }
  }

  /** The clamp `update` applies: max(0.1, min(1.0, c)). */
  function Clamp(c: real): (r: real)
    ensures 0.1 <= r <= 1.0
    ensures 0.1 <= c <= 1.0 ==> r == c
    ensures c < 0.1 ==> r == 0.1
    ensures c > 1.0 ==> r == 1.0
  {
    RMax(0.1, RMin(1.0, c))
  }

  /** The confidence after a measurement whose distance from the last
      predicted position is `error`. */
  function UpdatedConfidence(confidence: real, error: real): real
    requires error >= 0.0
  {
    Clamp(confidence * (1.0 / (1.0 + error)))
  }

  /** From a confidence in [0.1, 1], a measurement never raises it, leaves it
      as it was exactly when it lands on the prediction (or it is already at
      the floor), and never takes it below the floor. */
  lemma UpdateNeverRaises(confidence: real, error: real)
    requires 0.1 <= confidence <= 1.0 && error >= 0.0
    ensures 0.1 <= UpdatedConfidence(confidence, error) <= confidence
    ensures error == 0.0 ==> UpdatedConfidence(confidence, error) == confidence
    ensures confidence > 0.1 && error > 0.0 ==> UpdatedConfidence(confidence, error) < confidence
  {
    var k := 1.0 / (1.0 + error);
    assert k * (1.0 + error) == 1.0;
    assert 0.0 < k <= 1.0;
    assert confidence * k <= confidence;
    if error > 0.0 {
      assert k < 1.0;
      assert confidence * k < confidence;
    }
  }

  /** The side of the square search window: 100 pixels, widened with the
      speed and the lack of confidence, truncated to an integer. */
  function WindowSize(speed: real, confidence: real): (size: int)
    ensures speed >= 0.0 && confidence <= 1.0 ==> size >= 100
  {
    assert speed >= 0.0 && confidence <= 1.0 ==> speed * (1.0 - confidence) >= 0.0;
    Trunc(100.0 * (1.0 + speed * (1.0 - confidence)))
  }

  /** The search rectangle around the predicted position `p`: a window of
      WindowSize centred on `p`, moved inside the frame at the top and left
      and cut at the right and bottom edges. */
  function SearchRegion(p: Point, speed: real, confidence: real, frameWidth: int, frameHeight: int): (r: Box)
    ensures r.x >= 0 && r.y >= 0
    ensures r.x + r.w <= frameWidth && r.y + r.h <= frameHeight
    ensures r.w <= WindowSize(speed, confidence) && r.h <= WindowSize(speed, confidence)
    ensures r.w == WindowSize(speed, confidence) || r.x + r.w == frameWidth
    ensures r.h == WindowSize(speed, confidence) || r.y + r.h == frameHeight
  {
    var size := WindowSize(speed, confidence);
    var x := Max(0, Trunc(p.x - size as real / 2.0));
    var y := Max(0, Trunc(p.y - size as real / 2.0));
    Box(x, y, Min(size, frameWidth - x), Min(size, frameHeight - y))
  }

  /** With a non-negative speed and a confidence of at most 1, the region has
      a non-negative width exactly when its left edge lies inside the frame
      (and likewise for the height): a prediction far beyond the right or
      bottom edge yields a region of negative extent. */
  lemma SearchRegionExtent(p: Point, speed: real, confidence: real, frameWidth: int, frameHeight: int)
    requires speed >= 0.0 && confidence <= 1.0
    ensures var r := SearchRegion(p, speed, confidence, frameWidth, frameHeight);
      && (r.w >= 0 <==> r.x <= frameWidth)
      && (r.h >= 0 <==> r.y <= frameHeight)
  {
  }

  /** What a MotionPredictor holds: its time step, mean state, confidence and
      the bounded history of predicted positions. */
  datatype Predictor = Predictor(dt: real, state: KState, confidence: real, history: seq<Point>)

  /** The number of predicted positions a predictor keeps. */
  const MaxHistory: nat := 10

  /** A freshly constructed predictor: zero state, full confidence, no
      history. */
  function Fresh(dt: real): Predictor
  {
    Predictor(dt, KState(0.0, 0.0, 0.0, 0.0, 0.0, 0.0), 1.0, [])
  }

  /** initialize: at rest at (x, y), that position as the only history
      entry, full confidence. */
  function Initialized(p: Predictor, x: real, y: real): (q: Predictor)
    ensures q.dt == p.dt && q.history == [Point(x, y)]
  {
    p.(state := KState(x, y, 0.0, 0.0, 0.0, 0.0), confidence := 1.0, history := [Point(x, y)])
  }

  /** predict: one transition step, the predicted position recorded (the
      oldest dropped once MaxHistory are held), and the confidence set from
      the position variance the filter reports after the step. */
  function Predicted(p: Predictor, variance: real): (q: Predictor)
    requires variance >= 0.0 && |p.history| <= MaxHistory
    ensures q.dt == p.dt && q.state == Transition(p.state, p.dt)
    ensures q.history != [] && |q.history| <= MaxHistory
    ensures q.history[|q.history| - 1] == Point(q.state.x, q.state.y)
    ensures 0.0 < q.confidence <= 1.0
  {
    var s := Transition(p.state, p.dt);
    PredictedConfidenceRange(variance);
    p.(state := s, confidence := PredictedConfidence(variance),
       history := BoundedAppend(p.history, Point(s.x, s.y), MaxHistory))
  }

  /** update, once a prediction has been recorded: the posterior state, and
      the confidence scaled down by the distance `error` between the last
      predicted position and the measurement, then clamped. */
  function Updated(p: Predictor, posterior: KState, error: real): (q: Predictor)
    requires error >= 0.0
    ensures q.dt == p.dt && q.history == p.history && q.state == posterior
    ensures 0.1 <= q.confidence <= 1.0
  {
    p.(state := posterior, confidence := UpdatedConfidence(p.confidence, error))
  }

  /** get_search_region's rectangle for a predictor that has just predicted,
      given the norm `speed` of its velocity. */
  function RegionOf(p: Predictor, speed: real, frameWidth: int, frameHeight: int): (r: Box)
    ensures r.x >= 0 && r.y >= 0 && r.x + r.w <= frameWidth && r.y + r.h <= frameHeight
  {
    SearchRegion(Point(p.state.x, p.state.y), speed, p.confidence, frameWidth, frameHeight)
  }

  /** The source's MotionPredictor. */
  class MotionPredictor {
    const dt: real
    const maxHistory: nat
    var state: KState
    var confidence: real
    var history: seq<Point>

    ghost predicate Valid()
      reads this
    {
      maxHistory == MaxHistory && |history| <= maxHistory
    }

    /** The predictor's value. */
    function Value(): Predictor
      reads this
    {
      Predictor(dt, state, confidence, history)
    }

    /** A fresh filter: zero state, full confidence, no history. */
    constructor (dt: real)
      ensures Valid() && Value() == Fresh(dt)
    {
      this.dt := dt;
      maxHistory := 10;
      state := KState(0.0, 0.0, 0.0, 0.0, 0.0, 0.0);
      confidence := 1.0;
      history := [];
    }

    /** initialize: at rest at (x, y), that position as the only history
        entry, full confidence. */
    method Initialize(x: real, y: real)
      requires Valid()
      modifies this`state, this`history, this`confidence
      ensures Valid() && Value() == Initialized(old(Value()), x, y)
    {
      state := KState(x, y, 0.0, 0.0, 0.0, 0.0);
      history := [Point(x, y)];
      confidence := 1.0;
    }

    /** predict: advance the state by one step, record the predicted position
        (dropping the oldest once ten are held) and set the confidence from
        the position variance the filter reports after the step. */
    method Predict(variance: real) returns (p: Point)
      requires Valid() && variance >= 0.0
      modifies this`state, this`history, this`confidence
      ensures Valid() && Value() == Predicted(old(Value()), variance)
      ensures p == Point(state.x, state.y)
    {
      state := Transition(state, dt);
      p := Point(state.x, state.y);
      history := history + [p];
      if |history| > maxHistory {
        history := history[1..];
      }
      confidence := 1.0 / (1.0 + variance);
    }

    /** update: the filter moves to its posterior state; then the confidence
        is scaled by 1/(1 + error), where error is the distance from the last
        predicted position to the measurement, and clamped to [0.1, 1]. With
        no history the lookup raises IndexError after the state has moved. */
    method Update(x: real, y: real, posterior: KState, error: real) returns (res: Result<()>)
      requires Valid()
      requires history != [] ==>
        IsNorm(error, history[|history| - 1].x - x, history[|history| - 1].y - y)
      modifies this`state, this`confidence
      ensures Valid()
      ensures old(history) == [] ==> res == Err(IndexError) && Value() == old(Value()).(state := posterior)
      ensures old(history) != [] ==> res == Ok(()) && Value() == Updated(old(Value()), posterior, error)
    {
      state := posterior;
      if history == [] {
        return Err(IndexError);
      }
      confidence := confidence * (1.0 / (1.0 + error));
      confidence := RMax(0.1, RMin(1.0, confidence));
      return Ok(());
    }

    function GetVelocity(): (v: Point)
      reads this
      ensures v == Point(state.vx, state.vy)
    {
      Point(state.vx, state.vy)
    }

    function GetAcceleration(): (a: Point)
      reads this
      ensures a == Point(state.ax, state.ay)
    {
      Point(state.ax, state.ay)
    }

    function GetConfidence(): (c: real)
      reads this
      ensures c == confidence
    {
      confidence
    }

    /** get_search_region: predicts first (so the state, history and
        confidence all advance), then builds the rectangle from the predicted
        position, the new velocity's norm `speed` and the new confidence. */
    method GetSearchRegion(frameWidth: int, frameHeight: int, variance: real, speed: real) returns (r: Box)
      requires Valid() && variance >= 0.0
      requires IsNorm(speed, Transition(state, dt).vx, Transition(state, dt).vy)
      modifies this`state, this`history, this`confidence
      ensures Valid() && Value() == Predicted(old(Value()), variance)
      ensures r == RegionOf(Value(), speed, frameWidth, frameHeight)
    {
      var p := Predict(variance);
      r := SearchRegion(p, speed, confidence, frameWidth, frameHeight);
    }
  }
}
