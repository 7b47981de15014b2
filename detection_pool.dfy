/** The face-detection pool: frames are numbered 0, 1, 2, ... as they are
    submitted and queued with their number; a worker takes the oldest job,
    runs the detector on it and queues a result tagged with the job's number,
    or drops the job when the detector fails.

    The worker threads are modelled as one explicit worker step at a time,
    and the detector and the tick clock are parameters. */
module DetectionPool {
  import opened Common

  /** A face as the detector reports it; its contents are not inspected. */
  type DetectedFace = nat

  /** A queued job: the frame's number and a copy of the frame. */
  datatype Job = Job(frameId: int, frame: Frame)

  /** What a worker reports for one job: the faces found, the job's frame
      number and the time detection took. */
  datatype DetectionResult = DetectionResult(faces: seq<DetectedFace>, frameId: int, processingTime: real)

  /** The frame numbers of the jobs, and of the results, in queue order. */
  function JobIds(jobs: seq<Job>): (ids: seq<int>)
    ensures |ids| == |jobs| && forall k :: 0 <= k < |jobs| ==> ids[k] == jobs[k].frameId
  {
    seq(|jobs|, k requires 0 <= k < |jobs| => jobs[k].frameId)
  }

  function ResultIds(results: seq<DetectionResult>): (ids: seq<int>)
    ensures |ids| == |results| && forall k :: 0 <= k < |results| ==> ids[k] == results[k].frameId
  {
    seq(|results|, k requires 0 <= k < |results| => results[k].frameId)
  }

  /** Strictly increasing, hence free of repeats. */
  predicate Increasing(s: seq<int>)
  {
    forall i, j :: 0 <= i < j < |s| ==> s[i] < s[j]
  }

  /** The source's FaceDetectionPool. */
  class FaceDetectionPool {
    const numWorkers: nat
    var inputQueue: seq<Job>
    var resultQueue: seq<DetectionResult>
    /** The number of worker threads held in `workers`. */
    var workers: nat
    var active: bool
    var frameCounter: nat

    /** Frame numbers are handed out once each: the results and then the
        pending jobs carry increasing numbers, all below the counter. */
    ghost predicate Valid()
      reads this
    {
      && Increasing(ResultIds(resultQueue) + JobIds(inputQueue))
      && (forall k :: 0 <= k < |inputQueue| ==> 0 <= inputQueue[k].frameId < frameCounter)
      && (forall k :: 0 <= k < |resultQueue| ==> 0 <= resultQueue[k].frameId < frameCounter)
    }

    constructor (numWorkers: nat)
      ensures Valid()
      ensures this.numWorkers == numWorkers && workers == numWorkers
      ensures inputQueue == [] && resultQueue == [] && active && frameCounter == 0
    {
      this.numWorkers := numWorkers;
      inputQueue := [];
      resultQueue := [];
      workers := numWorkers;
      active := true;
      frameCounter := 0;
    }

    /** process_frame: no frame gets -1 and nothing is queued; a frame gets
        the next number, and one job with that number and the frame joins
        the queue. */
    method ProcessFrame(frame: Option<Frame>) returns (frameId: int)
      requires Valid()
      modifies this`frameCounter, this`inputQueue
      ensures Valid()
      ensures frame.None? ==> frameId == -1 && frameCounter == old(frameCounter) && inputQueue == old(inputQueue)
      ensures frame.Some? ==>
        && frameId == old(frameCounter) && frameCounter == old(frameCounter) + 1
        && inputQueue == old(inputQueue) + [Job(frameId, frame.value)]
    {
      if frame.None? {
        return -1;
      }
      frameId := frameCounter;
      frameCounter := frameCounter + 1;
      ghost var before := ResultIds(resultQueue) + JobIds(inputQueue);
      inputQueue := inputQueue + [Job(frameId, frame.value)];
      assert ResultIds(resultQueue) + JobIds(inputQueue) == before + [frameId];
    }

    /** get_result: the oldest result, removed from the queue, or nothing
        when the queue is empty. */
    method GetResult() returns (r: Option<DetectionResult>)
      requires Valid()
      modifies this`resultQueue
      ensures Valid()
      ensures old(resultQueue) == [] ==> r.None? && resultQueue == []
      ensures old(resultQueue) != [] ==> r == Some(old(resultQueue)[0]) && resultQueue == old(resultQueue)[1..]
    {
      if resultQueue == [] {
        return None;
      }
      r := Some(resultQueue[0]);
      ghost var before := ResultIds(resultQueue) + JobIds(inputQueue);
      resultQueue := resultQueue[1..];
      assert ResultIds(resultQueue) + JobIds(inputQueue) == before[1..];
    }

    /** One iteration of a worker's loop, given the detector (None when it
        raises) and the measured time. An inactive pool ends the loop; an
        empty queue times out and changes nothing; otherwise the oldest job
        is taken and, when detection succeeds, one result with the job's
        number joins the result queue; a failing job is dropped. */
    method WorkerStep(detect: Frame -> Option<seq<DetectedFace>>, processingTime: real) returns (continues: bool)
      requires Valid()
      modifies this`inputQueue, this`resultQueue
      ensures Valid()
      ensures continues == active
      ensures !active || old(inputQueue) == [] ==> inputQueue == old(inputQueue) && resultQueue == old(resultQueue)
      ensures active && old(inputQueue) != [] ==>
        var job := old(inputQueue)[0];
        && inputQueue == old(inputQueue)[1..]
        && resultQueue == old(resultQueue) +
             (match detect(job.frame)
              case Some(faces) => [DetectionResult(faces, job.frameId, processingTime)]
              case None => [])
    {
      continues := active;
      if !active || inputQueue == [] {
        return;
      }
      var job := inputQueue[0];
      ghost var before := ResultIds(resultQueue) + JobIds(inputQueue);
      inputQueue := inputQueue[1..];
      var faces := detect(job.frame);
      if faces.Some? {
        resultQueue := resultQueue + [DetectionResult(faces.value, job.frameId, processingTime)];
        assert ResultIds(resultQueue) + JobIds(inputQueue) == before;
      } else {
        assert ResultIds(resultQueue) + JobIds(inputQueue) == before[..|resultQueue|] + before[|resultQueue| + 1..];
      }
    }

    /** shutdown: the pool goes inactive, both queues are emptied and the
        workers are let go. */
    method Shutdown()
      requires Valid()
      modifies this`active, this`inputQueue, this`resultQueue, this`workers
      ensures Valid()
      ensures !active && inputQueue == [] && resultQueue == [] && workers == 0
    {
      active := false;
      while inputQueue != []
        invariant !active
        decreases |inputQueue|
      {
        inputQueue := inputQueue[1..];
      }
      while resultQueue != []
        invariant !active && inputQueue == []
        decreases |resultQueue|
      {
        resultQueue := resultQueue[1..];
      }
      workers := 0;
    }
  }

  /** Three frames submitted in turn, the middle one missing, get the
      numbers 0 and 1 and -1 in between: numbering counts only frames. */
  method NumberingExample(a: Frame, b: Frame) returns (ids: seq<int>)
    ensures ids == [0, -1, 1]
  {
    var pool := new FaceDetectionPool(4);
    var first := pool.ProcessFrame(Some(a));
    var second := pool.ProcessFrame(None);
    var third := pool.ProcessFrame(Some(b));
    ids := [first, second, third];
  }
}
