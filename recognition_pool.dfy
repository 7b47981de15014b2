/** The face-recognition pool: face embeddings are queued together with the
    face's number, its frame's number and its persistent tracking id; a
    worker takes the oldest job, recognises the embedding and queues a
    result carrying the job's three ids, or drops the job when recognition
    fails.

    The worker threads are modelled as one explicit worker step at a time;
    the recogniser and the tick clock are parameters, and the performance
    logger's shared instance is passed to the worker step. */
module RecognitionPool {
  import opened Common
  import PerformanceLogging

  /** An embedding vector; its values are only handed to the recogniser. */
  type Embedding = seq<real>

  /** A queued job. */
  datatype Job = Job(embedding: Embedding, faceId: int, frameId: int, persistentId: string)

  /** What a worker reports for one job. */
  datatype RecognitionResult = RecognitionResult(
    faceId: int, frameId: int, persistentId: string,
    name: string, confidence: real, processingTime: real)

  /** The three ids a job and its result share. */
  datatype Ids = Ids(faceId: int, frameId: int, persistentId: string)

  function JobKey(j: Job): (k: Ids)
    ensures k.faceId == j.faceId && k.frameId == j.frameId && k.persistentId == j.persistentId
  {
    Ids(j.faceId, j.frameId, j.persistentId)
  }

  function ResultKey(r: RecognitionResult): (k: Ids)
    ensures k.faceId == r.faceId && k.frameId == r.frameId && k.persistentId == r.persistentId
  {
    Ids(r.faceId, r.frameId, r.persistentId)
  }

  /** The result a worker builds for a job, given the recogniser's answer. */
  function ResultFor(j: Job, answer: (string, real), processingTime: real): (r: RecognitionResult)
    ensures ResultKey(r) == JobKey(j)
    ensures r.name == answer.0 && r.confidence == answer.1 && r.processingTime == processingTime
  {
    RecognitionResult(j.faceId, j.frameId, j.persistentId, answer.0, answer.1, processingTime)
  }

  /** The source's RecognitionPool. */
  class RecognitionPool {
    const numWorkers: nat
    var inputQueue: seq<Job>
    var resultQueue: seq<RecognitionResult>
    /** The number of worker threads held in `workers`. */
    var workers: nat
    var active: bool
    /** The ids of every job ever submitted. */
    ghost var submitted: set<Ids>

    /** Results never carry ids that were not submitted: every pending job
        and every result belongs to a submitted face. */
    ghost predicate Valid()
      reads this
    {
      && (forall k :: 0 <= k < |inputQueue| ==> JobKey(inputQueue[k]) in submitted)
      && (forall k :: 0 <= k < |resultQueue| ==> ResultKey(resultQueue[k]) in submitted)
    }

    constructor (numWorkers: nat)
      ensures Valid()
      ensures this.numWorkers == numWorkers && workers == numWorkers
      ensures inputQueue == [] && resultQueue == [] && active && submitted == {}
    {
      this.numWorkers := numWorkers;
      inputQueue := [];
      resultQueue := [];
      workers := numWorkers;
      active := true;
      submitted := {};
    }

    /** process_face: a missing embedding is ignored; otherwise exactly one
        job with the embedding and the three ids joins the queue. */
    method ProcessFace(embedding: Option<Embedding>, faceId: int, frameId: int, persistentId: string)
      requires Valid()
      modifies this`inputQueue, this`submitted
      ensures Valid()
      ensures embedding.None? ==> inputQueue == old(inputQueue) && submitted == old(submitted)
      ensures embedding.Some? ==>
        && inputQueue == old(inputQueue) + [Job(embedding.value, faceId, frameId, persistentId)]
        && submitted == old(submitted) + {Ids(faceId, frameId, persistentId)}
    {
      if embedding.None? {
        return;
      }
      inputQueue := inputQueue + [Job(embedding.value, faceId, frameId, persistentId)];
      submitted := submitted + {Ids(faceId, frameId, persistentId)};
    }

    /** get_result: the oldest result, removed from the queue, or nothing
        when the queue is empty. */
    method GetResult() returns (r: Option<RecognitionResult>)
      requires Valid()
      modifies this`resultQueue
      ensures Valid()
      ensures old(resultQueue) == [] ==> r.None? && resultQueue == []
      ensures old(resultQueue) != [] ==> r == Some(old(resultQueue)[0]) && resultQueue == old(resultQueue)[1..]
    {
      if resultQueue == [] {
        return None;
      }
      r := Some(resultQueue[0]);
      resultQueue := resultQueue[1..];
    }

    /** One iteration of a worker's loop, given the recogniser (None when it
        raises), the measured time and the performance logger's instance.
        An inactive pool ends the loop; an empty queue times out and changes
        nothing; otherwise the oldest job is taken and, when recognition
        succeeds, its time is logged as a recognition time and one result
        with the job's ids joins the result queue; a failing job is dropped
        before anything is logged. */
    method WorkerStep(recognize: Embedding -> Option<(string, real)>, processingTime: real,
                      logger: PerformanceLogging.PerformanceLogger)
      returns (continues: bool)
      requires Valid() && logger.Valid()
      modifies this`inputQueue, this`resultQueue, logger`recognitionTimes
      ensures Valid() && logger.Valid()
      ensures continues == active
      ensures !active || old(inputQueue) == [] ==>
        && inputQueue == old(inputQueue) && resultQueue == old(resultQueue)
        && logger.recognitionTimes == old(logger.recognitionTimes)
      ensures active && old(inputQueue) != [] ==>
        var job := old(inputQueue)[0];
        && inputQueue == old(inputQueue)[1..]
        && resultQueue == old(resultQueue) +
             (match recognize(job.embedding)
              case Some(answer) => [ResultFor(job, answer, processingTime)]
              case None => [])
        && logger.recognitionTimes == old(logger.recognitionTimes) +
             (if recognize(job.embedding).Some? then [RAbs(processingTime)] else [])
    {
      continues := active;
      if !active || inputQueue == [] {
        return;
      }
      var job := inputQueue[0];
      inputQueue := inputQueue[1..];
      var answer := recognize(job.embedding);
      if answer.Some? {
        var _ := logger.LogRecognitionTime(Some(processingTime));
        resultQueue := resultQueue + [ResultFor(job, answer.value, processingTime)];
      }
    }

    /** shutdown: the pool goes inactive, both queues are emptied and the
        workers are let go. */
    method Shutdown()
      requires Valid()
      modifies this`active, this`inputQueue, this`resultQueue, this`workers
      ensures Valid()
      ensures !active && inputQueue == [] && resultQueue == [] && workers == 0
    {
      active := false;
      while inputQueue != []
        invariant !active
        decreases |inputQueue|
      {
        inputQueue := inputQueue[1..];
      }
      while resultQueue != []
        invariant !active && inputQueue == []
        decreases |resultQueue|
      {
        resultQueue := resultQueue[1..];
      }
      workers := 0;
    }
  }

  /** A face submitted to a fresh pool and processed by one worker step comes
      back, when recognition succeeds, as the only result and with its own
      three ids. */
  method RoundTrip(e: Embedding, faceId: int, frameId: int, persistentId: string,
                   recognize: Embedding -> Option<(string, real)>, t: real)
    returns (r: Option<RecognitionResult>)
    ensures recognize(e).Some? <==> r.Some?
    ensures r.Some? ==> r.value.faceId == faceId && r.value.frameId == frameId && r.value.persistentId == persistentId
    ensures r.Some? ==> (r.value.name, r.value.confidence) == recognize(e).value
  {
    var pool := new RecognitionPool(2);
    var logger := new PerformanceLogging.PerformanceLogger(0.0);
    pool.ProcessFace(Some(e), faceId, frameId, persistentId);
    var _ := pool.WorkerStep(recognize, t, logger);
    r := pool.GetResult();
  }
}
