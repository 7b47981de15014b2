/** The performance logger: detection and recognition times and frame-rate
    samples are collected as they come, and periodically drained into one
    CSV row each (averages and counts); old daily log directories are
    pruned.

    The files are modelled as the sequences of rows appended to them; the
    wall clock, whether an append succeeds, the directory listing and the
    date parsing of directory names are parameters. The background thread,
    the system metrics from psutil and the log rotation are not modelled. */
module PerformanceLogging {
  import opened Common

  /** A row of processing_times.csv. */
  datatype ProcessingRow = ProcessingRow(timestamp: real, avgDetectionTime: real, avgRecognitionTime: real,
                                         detectionCount: nat, recognitionCount: nat)

  /** A row of fps_log.csv. */
  datatype FpsRow = FpsRow(timestamp: real, fps: real, samplePeriod: nat)

  /** An entry of the performance log directory. */
  datatype DirEntry = DirEntry(name: string, isDir: bool)

  /** Log directories older than this many seconds are removed. */
  const RetentionSeconds: real := 30.0 * 24.0 * 60.0 * 60.0

  /** Every element is at least zero. */
  predicate NonNegative(s: seq<real>)
  {
    forall i :: 0 <= i < |s| ==> s[i] >= 0.0
  }

  lemma {:induction false} SumNonNegative(s: seq<real>)
    requires NonNegative(s)
    ensures Sum(s) >= 0.0
  {
    if s != [] {
      SumNonNegative(s[..|s| - 1]);
    }
  }

  /** The average of a drained list, 0 when it is empty. */
  function AverageOrZero(s: seq<real>): (m: real)
    requires NonNegative(s)
    ensures m >= 0.0
    ensures s == [] ==> m == 0.0
  {
    SumNonNegative(s);
    if s == [] then 0.0 else Mean(s)
  }

  /** Every element is above zero. */
  predicate Positive(s: seq<real>)
  {
    forall i :: 0 <= i < |s| ==> s[i] > 0.0
  }

  /** processing_times.csv after one _write_processing_metrics at time `now`
      that drained `detections` and `recognitions`: one more row with their
      averages (0 for an empty list) and their lengths when either held
      something and the append succeeds; the rows as they were otherwise. */
  function ProcessingWritten(rows: seq<ProcessingRow>, detections: seq<real>, recognitions: seq<real>,
                             now: real, appendSucceeds: bool): (r: seq<ProcessingRow>)
    requires NonNegative(detections) && NonNegative(recognitions)
    ensures (detections == [] && recognitions == []) || !appendSucceeds ==> r == rows
    ensures (detections != [] || recognitions != []) && appendSucceeds ==>
      && |r| == |rows| + 1 && r[..|rows|] == rows
      && var row := r[|r| - 1];
         && row.timestamp == now
         && row.detectionCount == |detections| && row.recognitionCount == |recognitions|
         && row.avgDetectionTime == AverageOrZero(detections) >= 0.0
         && row.avgRecognitionTime == AverageOrZero(recognitions) >= 0.0
  {
    if (detections != [] || recognitions != []) && appendSucceeds then
      rows + [ProcessingRow(now, AverageOrZero(detections), AverageOrZero(recognitions),
                            |detections|, |recognitions|)]
    else rows
  }

  /** fps_log.csv after one _write_fps_metrics at time `now` that drained
      `samples`: one more row with their mean, which is positive, and their
      count when there were any and the append succeeds; the rows as they
      were otherwise. */
  function FpsWritten(rows: seq<FpsRow>, samples: seq<real>, now: real, appendSucceeds: bool): (r: seq<FpsRow>)
    requires Positive(samples)
    ensures samples == [] || !appendSucceeds ==> r == rows
    ensures samples != [] && appendSucceeds ==>
      && |r| == |rows| + 1 && r[..|rows|] == rows
      && r[|rows|] == FpsRow(now, Mean(samples), |samples|)
      && Mean(samples) > 0.0
  {
    if samples != [] && appendSucceeds then
      SumPositive(samples);
      rows + [FpsRow(now, Mean(samples), |samples|)]
    else rows
  }

  /** The source's PerformanceLogger. */
  class PerformanceLogger {
    var detectionTimes: seq<real>
    var recognitionTimes: seq<real>
    var fpsSamples: seq<real>
    var lastFrameTime: real
    var active: bool
    var processingRows: seq<ProcessingRow>
    var fpsRows: seq<FpsRow>

    /** Times are stored as magnitudes and frame rates are positive. */
    ghost predicate Valid()
      reads this
    {
      && NonNegative(detectionTimes) && NonNegative(recognitionTimes)
      && Positive(fpsSamples)
    }

    /** A logger started at wall-clock time `now`, with nothing collected. */
    constructor (now: real)
      ensures Valid()
      ensures detectionTimes == [] && recognitionTimes == [] && fpsSamples == []
      ensures lastFrameTime == now && active && processingRows == [] && fpsRows == []
    {
      detectionTimes := [];
      recognitionTimes := [];
      fpsSamples := [];
      lastFrameTime := now;
      active := true;
      processingRows := [];
      fpsRows := [];
    }

    /** log_detection_time: a missing time raises ValueError and nothing is
        stored; otherwise its magnitude becomes the last detection time. */
    method LogDetectionTime(processingTime: Option<real>) returns (r: Result<()>)
      requires Valid()
      modifies this`detectionTimes
      ensures Valid()
      ensures processingTime.None? ==> r == Err(ValueError) && detectionTimes == old(detectionTimes)
      ensures processingTime.Some? ==> r.Ok? && detectionTimes == old(detectionTimes) + [RAbs(processingTime.value)]
    {
      if processingTime.None? {
        return Err(ValueError);
      }
      var t := processingTime.value;
      if t < 0.0 {
        t := RAbs(t);
      }
      detectionTimes := detectionTimes + [t];
      return Ok(());
    }

    /** log_recognition_time: as log_detection_time, for recognition. */
    method LogRecognitionTime(processingTime: Option<real>) returns (r: Result<()>)
      requires Valid()
      modifies this`recognitionTimes
      ensures Valid()
      ensures processingTime.None? ==> r == Err(ValueError) && recognitionTimes == old(recognitionTimes)
      ensures processingTime.Some? ==> r.Ok? && recognitionTimes == old(recognitionTimes) + [RAbs(processingTime.value)]
    {
      if processingTime.None? {
        return Err(ValueError);
      }
      var t := processingTime.value;
      if t < 0.0 {
        t := RAbs(t);
      }
      recognitionTimes := recognitionTimes + [t];
      return Ok(());
    }

    /** log_frame_processed at wall-clock time `now`: when time has advanced
        the instantaneous rate 1/dt is sampled; the frame time always moves
        to `now`. */
    method LogFrameProcessed(now: real)
      requires Valid()
      modifies this`fpsSamples, this`lastFrameTime
      ensures Valid()
      ensures now - old(lastFrameTime) > 0.0 ==> fpsSamples == old(fpsSamples) + [1.0 / (now - old(lastFrameTime))]
      ensures now - old(lastFrameTime) <= 0.0 ==> fpsSamples == old(fpsSamples)
      ensures lastFrameTime == now
    {
      var timeDiff := now - lastFrameTime;
      if timeDiff > 0.0 {
        fpsSamples := fpsSamples + [1.0 / timeDiff];
      }
      lastFrameTime := now;
    }

    /** _write_processing_metrics at time `now`: both time lists are
        drained, and the rows are those ProcessingWritten gives. The drained
        times are gone whether or not the append succeeds. */
    method WriteProcessingMetrics(now: real, appendSucceeds: bool)
      requires Valid()
      modifies this`detectionTimes, this`recognitionTimes, this`processingRows
      ensures Valid()
      ensures detectionTimes == [] && recognitionTimes == []
      ensures processingRows ==
        ProcessingWritten(old(processingRows), old(detectionTimes), old(recognitionTimes), now, appendSucceeds)
    {
      var detections := detectionTimes;
      var recognitions := recognitionTimes;
      detectionTimes := [];
      recognitionTimes := [];
      if (detections != [] || recognitions != []) && appendSucceeds {
        var row := ProcessingRow(now, AverageOrZero(detections), AverageOrZero(recognitions),
                                 |detections|, |recognitions|);
        processingRows := processingRows + [row];
      }
    }

    /** _write_fps_metrics at time `now`: the samples are drained, and the
        rows are those FpsWritten gives. */
    method WriteFpsMetrics(now: real, appendSucceeds: bool)
      requires Valid()
      modifies this`fpsSamples, this`fpsRows
      ensures Valid()
      ensures fpsSamples == []
      ensures fpsRows == FpsWritten(old(fpsRows), old(fpsSamples), now, appendSucceeds)
    {
      var samples := fpsSamples;
      fpsSamples := [];
      if samples != [] && appendSucceeds {
        SumPositive(samples);
        fpsRows := fpsRows + [FpsRow(now, Mean(samples), |samples|)];
      }
    }

    /** shutdown at time `now`: the logger stops, and what was collected is
        drained into one final processing row and one final frame-rate row,
        given whether each append succeeds. The last frame time stays. */
    method Shutdown(now: real, processingAppendSucceeds: bool, fpsAppendSucceeds: bool)
      requires Valid()
      modifies this`active, this`detectionTimes, this`recognitionTimes, this`processingRows,
               this`fpsSamples, this`fpsRows
      ensures Valid()
      ensures !active && detectionTimes == [] && recognitionTimes == [] && fpsSamples == []
      ensures processingRows == ProcessingWritten(old(processingRows), old(detectionTimes), old(recognitionTimes),
                                                  now, processingAppendSucceeds)
      ensures fpsRows == FpsWritten(old(fpsRows), old(fpsSamples), now, fpsAppendSucceeds)
    {
      active := false;
      WriteProcessingMetrics(now, processingAppendSucceeds);
      WriteFpsMetrics(now, fpsAppendSucceeds);
    }
  }

  lemma {:induction false} SumPositive(s: seq<real>)
    requires s != [] && Positive(s)
    ensures Sum(s) > 0.0
  {
    if |s| > 1 {
      SumPositive(s[..|s| - 1]);
    }
  }

  /** Whether _cleanup_old_logs removes an entry, given the parse of its
      name as a YYYY-MM-DD date (a timestamp, or None when the name is not
      a date): only directories other than "latest" whose date lies more
      than 30 days before `now`. */
  predicate Expired(e: DirEntry, now: real, parseDate: string -> Option<real>)
  {
    e.isDir && e.name != "latest" && parseDate(e.name).Some? && parseDate(e.name).value < now - RetentionSeconds
  }

  /** _cleanup_old_logs over the directory listing: the names removed, in
      listing order, are exactly those of the expired entries; "latest",
      files and names that are not dates are never removed. */
  method CleanupOldLogs(entries: seq<DirEntry>, now: real, parseDate: string -> Option<real>)
    returns (removed: seq<string>)
    ensures forall n :: n in removed <==> exists i :: 0 <= i < |entries| && entries[i].name == n && Expired(entries[i], now, parseDate)
    ensures "latest" !in removed
    ensures forall i :: 0 <= i < |entries| && parseDate(entries[i].name).None? ==> entries[i].name !in removed
  {
    removed := [];
    var cutoff := now - RetentionSeconds;
    for i := 0 to |entries|
      invariant forall n :: n in removed <==> exists k :: 0 <= k < i && entries[k].name == n && Expired(entries[k], now, parseDate)
    {
      var item := entries[i];
      if item.isDir && item.name != "latest" {
        var date := parseDate(item.name);
        if date.Some? && date.value < cutoff {
          removed := removed + [item.name];
        }
      }
    }
  }
}
