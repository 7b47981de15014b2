/** The display-side frame buffer: a deque with a fixed maximum length that drops
    its oldest frame when full, guarded by a minimum interval between accepted
    pushes. The wall clock is the `now` argument of PushFrame. */
module FrameBuffer {
  import opened Common

  /** The source's CircularFrameBuffer. */
  class CircularFrameBuffer {
    const bufferSize: nat
    var frames: seq<Frame>
    /** The frame_ready event flag. */
    var frameReady: bool
    var lastFrameTime: real
    var frameInterval: real

    ghost predicate Valid()
      reads this
    {
      2 <= bufferSize && |frames| <= bufferSize && (frames != [] ==> frameReady)
    }

    /** A buffer of max(2, bufferSize) frames, empty, paced at 30 frames per
        second, whose last accepted push is at time 0. */
    constructor (bufferSize: int)
      ensures Valid()
      ensures this.bufferSize == Max(2, bufferSize)
      ensures frames == [] && !frameReady
      ensures lastFrameTime == 0.0 && frameInterval == 1.0 / 30.0
    {
      this.bufferSize := Max(2, bufferSize);
      frames := [];
      frameReady := false;
      lastFrameTime := 0.0;
      frameInterval := 1.0 / 30.0;
    }

    /** push_frame at wall-clock time `now`: a missing or empty frame, or one
        arriving sooner than frame_interval after the last accepted push, is
        refused and changes nothing; otherwise the frame is appended (evicting
        the oldest when full), the time recorded and the flag set. */
    method PushFrame(frame: Option<Frame>, now: real) returns (ok: bool)
      requires Valid()
      modifies this
      ensures Valid()
      ensures ok <==> IsUsable(frame) && now - old(lastFrameTime) >= old(frameInterval)
      ensures ok ==> (frames == BoundedAppend(old(frames), frame.value, bufferSize)
                      && lastFrameTime == now && frameReady)
      ensures !ok ==> frames == old(frames) && lastFrameTime == old(lastFrameTime) && frameReady == old(frameReady)
      ensures frameInterval == old(frameInterval)
    {
      if frame.None? || Size(frame.value) == 0 {
        return false;
      }
      var timeSinceLast := now - lastFrameTime;
      if timeSinceLast < frameInterval {
        return false;
      }
      frames := BoundedAppend(frames, frame.value, bufferSize);
      lastFrameTime := now;
      frameReady := true;
      return true;
    }

    /** peek_frame (and get_frame, which is the same): the oldest frame, not
        removed; None when empty. */
    function PeekFrame(): (f: Option<Frame>)
      reads this
      ensures frames == [] <==> f.None?
      ensures f.Some? ==> f.value == frames[0]
    {
      if frames == [] then None else Some(frames[0])
    }

    /** pop_frame: remove and return the oldest frame; None when empty. */
    method PopFrame() returns (f: Option<Frame>)
      requires Valid()
      modifies this`frames
      ensures Valid()
      ensures old(frames) == [] ==> f.None? && frames == []
      ensures old(frames) != [] ==> f == Some(old(frames)[0]) && frames == old(frames)[1..]
    {
      if frames == [] {
        return None;
      }
      f := Some(frames[0]);
      frames := frames[1..];
    }

    /** clear: no frames and the flag lowered. */
    method Clear()
      requires Valid()
      modifies this`frames, this`frameReady
      ensures Valid()
      ensures frames == [] && !frameReady
    {
      frames := [];
      frameReady := false;
    }

    function IsEmpty(): (empty: bool)
      reads this
      ensures empty <==> |frames| == 0
    {
      |frames| == 0
    }

    /** is_full: the frame count has reached the capacity. */
    function IsFull(): (full: bool)
      reads this
      requires Valid()
      ensures full <==> |frames| == bufferSize
    {
      |frames| >= bufferSize
    }

    /** get_stats: frame count, capacity and current frame interval. */
    function GetStats(): (stats: (int, int, real))
      reads this
      requires Valid()
      ensures stats.0 <= stats.1 && stats.1 >= 2
      ensures stats == (|frames|, bufferSize, frameInterval)
    {
      (|frames|, bufferSize, frameInterval)
    }

    /** set_fps: a positive rate sets the interval to its reciprocal; any
        other value is ignored. */
    method SetFps(fps: real)
      modifies this`frameInterval
      ensures fps > 0.0 ==> frameInterval == 1.0 / fps && frameInterval > 0.0
      ensures fps <= 0.0 ==> frameInterval == old(frameInterval)
    {
      if fps <= 0.0 {
        return;
      }
      frameInterval := 1.0 / fps;
    }

    /** wait_for_frame in a sequential setting: nothing can raise the flag
        while the caller waits, so the answer is the flag as it stands. A
        buffer holding frames always answers true; an emptied buffer can still
        answer true, since popping does not lower the flag. */
    function WaitForFrame(): (ready: bool)
      reads this
      requires Valid()
      ensures frames != [] ==> ready
      ensures ready == frameReady
    {
      frameReady
    }
  }
}
