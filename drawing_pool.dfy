/** The drawing pool: drawing requests pass a rate gate (at most one per
    1/60 s) and a validity check before they are queued; a worker draws the
    faces onto a copy of the request's frame, pushes the drawing into a
    three-frame circular buffer and reports the buffer's OLDEST frame
    under the request's frame number.

    The worker threads are modelled as one explicit worker step at a time.
    The wall clock, the tick clock and the face drawing itself are
    parameters. */
module DrawingPool {
  import opened Common
  import opened FrameBuffer
  import Detection

  /** A drawing request. `facesInfo` is None when the source's faces_info
      is not a list. */
  datatype DrawRequest = DrawRequest(frame: Option<Frame>, frameId: int,
                                     facesInfo: Option<seq<Detection.FaceInfo>>, showLandmarks: bool)

  /** What a worker reports: the frame to display, the request's frame
      number and the time drawing took. */
  datatype DrawResult = DrawResult(frame: Frame, frameId: int, processingTime: real)

  /** The checks process_frame makes after the rate gate: a request, with a
      non-empty frame and a non-empty list of faces. */
  predicate Acceptable(request: Option<DrawRequest>)
  {
    && request.Some?
    && IsUsable(request.value.frame)
    && request.value.facesInfo.Some? && request.value.facesInfo.value != []
  }

  /** The source's DrawingPool. */
  class DrawingPool {
    const numWorkers: nat
    var inputQueue: seq<DrawRequest>
    var resultQueue: seq<DrawResult>
    /** The number of worker threads held in `workers`. */
    var workers: nat
    var active: bool
    var lastDrawTime: real
    const drawInterval: real
    const frameBuffer: CircularFrameBuffer

    ghost predicate Valid()
      reads this, frameBuffer
    {
      frameBuffer.Valid() && drawInterval > 0.0
    }

    /** A pool with the given buffer size, never drawn (last draw at time
        0), paced at 60 drawings per second. */
    constructor (numWorkers: nat, bufferSize: int)
      ensures Valid()
      ensures this.numWorkers == numWorkers && workers == numWorkers && active
      ensures inputQueue == [] && resultQueue == []
      ensures lastDrawTime == 0.0 && drawInterval == 1.0 / 60.0
      ensures fresh(frameBuffer) && frameBuffer.bufferSize == Max(2, bufferSize)
      ensures frameBuffer.frames == [] && !frameBuffer.frameReady
      ensures frameBuffer.lastFrameTime == 0.0 && frameBuffer.frameInterval == 1.0 / 30.0
    {
      this.numWorkers := numWorkers;
      inputQueue := [];
      resultQueue := [];
      workers := numWorkers;
      active := true;
      lastDrawTime := 0.0;
      drawInterval := 1.0 / 60.0;
      frameBuffer := new CircularFrameBuffer(bufferSize);
    }

    /** process_frame at wall-clock time `now`: a request arriving sooner
        than the draw interval after the last accepted one, or failing the
        checks, is dropped and changes nothing; an accepted request is
        queued once and its time becomes the last draw time. */
    method ProcessFrame(request: Option<DrawRequest>, now: real) returns (accepted: bool)
      requires Valid()
      modifies this`inputQueue, this`lastDrawTime
      ensures Valid()
      ensures accepted <==> now - old(lastDrawTime) >= drawInterval && Acceptable(request)
      ensures accepted ==> inputQueue == old(inputQueue) + [request.value] && lastDrawTime == now
      ensures !accepted ==> inputQueue == old(inputQueue) && lastDrawTime == old(lastDrawTime)
    {
      if now - lastDrawTime < drawInterval {
        return false;
      }
      if request.None? || request.value.frame.None? || Size(request.value.frame.value) == 0 {
        return false;
      }
      if request.value.facesInfo.None? || request.value.facesInfo.value == [] {
        return false;
      }
      lastDrawTime := now;
      inputQueue := inputQueue + [request.value];
      return true;
    }

    /** get_result: the oldest result, removed from the queue, or nothing
        when the queue is empty. */
    method GetResult() returns (r: Option<DrawResult>)
      requires Valid()
      modifies this`resultQueue
      ensures Valid()
      ensures old(resultQueue) == [] ==> r.None? && resultQueue == []
      ensures old(resultQueue) != [] ==> r == Some(old(resultQueue)[0]) && resultQueue == old(resultQueue)[1..]
    {
      if resultQueue == [] {
        return None;
      }
      r := Some(resultQueue[0]);
      resultQueue := resultQueue[1..];
    }

    /** One iteration of a worker's loop at wall-clock time `now`, given the
        drawing (`draw` yields None when draw_faces raises or returns None)
        and the measured time. An inactive pool ends the loop and an empty
        queue changes nothing. Otherwise the oldest request is taken; a
        request without a usable frame, or whose drawing fails, is dropped.
        A drawing is offered to the frame buffer (which may refuse it under
        its own rate gate) and then, when the buffer holds a frame, one
        result carrying the buffer's oldest frame and the request's frame
        number is queued. */
    method WorkerStep(draw: (Frame, DrawRequest) -> Option<Frame>, now: real, processingTime: real)
      returns (continues: bool)
      requires Valid()
      modifies this`inputQueue, this`resultQueue, frameBuffer
      ensures Valid()
      ensures continues == active
      ensures frameBuffer.frameInterval == old(frameBuffer.frameInterval)
      ensures !active || old(inputQueue) == [] ==>
        inputQueue == old(inputQueue) && resultQueue == old(resultQueue) && unchanged(frameBuffer)
      ensures active && old(inputQueue) != [] ==>
        var request := old(inputQueue)[0];
        && inputQueue == old(inputQueue)[1..]
        && (!IsUsable(request.frame) || draw(request.frame.value, request).None? ==>
              resultQueue == old(resultQueue) && unchanged(frameBuffer))
        && (IsUsable(request.frame) && draw(request.frame.value, request).Some? ==>
              var drawn := draw(request.frame.value, request).value;
              var accepted := !IsEmpty(drawn) && now - old(frameBuffer.lastFrameTime) >= frameBuffer.frameInterval;
              && frameBuffer.frames ==
                   (if accepted then BoundedAppend(old(frameBuffer.frames), drawn, frameBuffer.bufferSize)
                    else old(frameBuffer.frames))
              && frameBuffer.lastFrameTime == (if accepted then now else old(frameBuffer.lastFrameTime))
              && frameBuffer.frameReady == (accepted || old(frameBuffer.frameReady))
              && resultQueue == old(resultQueue) +
                   (if frameBuffer.frames == [] then []
                    else [DrawResult(frameBuffer.frames[0], request.frameId, processingTime)]))
    {
      continues := active;
      if !active || inputQueue == [] {
        return;
      }
      var request := inputQueue[0];
      inputQueue := inputQueue[1..];
      if request.frame.None? || Size(request.frame.value) == 0 {
        return;
      }
      var frame := draw(request.frame.value, request);
      if frame.None? {
        return;
      }
      var _ := frameBuffer.PushFrame(frame, now);
      var display := frameBuffer.PeekFrame();
      if display.Some? {
        resultQueue := resultQueue + [DrawResult(display.value, request.frameId, processingTime)];
      }
    }

    /** shutdown: the pool goes inactive, both queues and the frame buffer
        are emptied and the workers are let go. */
    method Shutdown()
      requires Valid()
      modifies this`active, this`inputQueue, this`resultQueue, this`workers, frameBuffer
      ensures Valid()
      ensures !active && inputQueue == [] && resultQueue == [] && workers == 0
      ensures frameBuffer.frames == [] && !frameBuffer.frameReady
    {
      active := false;
      while inputQueue != []
        invariant !active && unchanged(frameBuffer)
        decreases |inputQueue|
      {
        inputQueue := inputQueue[1..];
      }
      while resultQueue != []
        invariant !active && inputQueue == [] && unchanged(frameBuffer)
        decreases |resultQueue|
      {
        resultQueue := resultQueue[1..];
      }
      frameBuffer.Clear();
      workers := 0;
    }
  }

  /** A drawing handled while the buffer already holds a frame is reported
      with that older frame, not with itself: the result shows a stale
      picture under the new request's frame number. */
  method StaleDisplay(old0: Frame, request: DrawRequest, drawn: Frame)
    returns (r: Option<DrawResult>)
    requires Acceptable(Some(request)) && !IsEmpty(old0) && !IsEmpty(drawn) && old0 != drawn
    ensures r == Some(DrawResult(old0, request.frameId, 0.0)) && r.value.frame != drawn
  {
    var pool := new DrawingPool(1, 3);
    var _ := pool.frameBuffer.PushFrame(Some(old0), 1.0);
    assert pool.frameBuffer.frames == [old0];
    var _ := pool.ProcessFrame(Some(request), 1.0);
    var _ := pool.WorkerStep((f, q) => Some(drawn), 2.0, 0.0);
    assert pool.frameBuffer.frames == [old0, drawn];
    r := pool.GetResult();
  }
}
