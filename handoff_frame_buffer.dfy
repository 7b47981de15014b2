/** The frame buffer handed between capture and processing threads: a FIFO
    queue that refuses new frames when full (the newest frame is dropped) and
    remembers the last frame it accepted. */
module HandoffFrameBuffer {
  import opened Common

  /** queue.Queue(maxsize).full(): a queue built with maxsize <= 0 is never
      full. */
  predicate QueueFull(maxSize: int, size: nat)
  {
    0 < maxSize <= size
  }

  /** Non-blocking puts of `xs` in turn, starting from `q`: a put on a full
      queue is refused and the frame is lost. */
  function PutAll(q: seq<Frame>, xs: seq<Frame>, maxSize: int): seq<Frame>
  {
    if xs == [] then q
    else
      var prev := PutAll(q, xs[..|xs| - 1], maxSize);
      if QueueFull(maxSize, |prev|) then prev else prev + [xs[|xs| - 1]]
  }

  /** With a positive bound, a run of puts keeps the oldest frames offered:
      exactly those that fit, in order; every later frame is dropped. */
  lemma {:induction false} PutAllDropsNewest(q: seq<Frame>, xs: seq<Frame>, maxSize: int)
    requires 0 < maxSize && |q| <= maxSize
    ensures PutAll(q, xs, maxSize) == q + xs[..Min(|xs|, maxSize - |q|)]
  {
    if xs != [] {
      var init := xs[..|xs| - 1];
      PutAllDropsNewest(q, init, maxSize);
      var k := Min(|init|, maxSize - |q|);
      assert init[..k] == xs[..k];
      if k < maxSize - |q| {
        assert xs[..k] + [xs[|xs| - 1]] == xs[..k + 1];
      }
    }
  }

  /** Without a positive bound every put is accepted. */
  lemma {:induction false} PutAllUnbounded(q: seq<Frame>, xs: seq<Frame>, maxSize: int)
    requires maxSize <= 0
    ensures PutAll(q, xs, maxSize) == q + xs
  {
    if xs != [] {
      PutAllUnbounded(q, xs[..|xs| - 1], maxSize);
      assert xs == xs[..|xs| - 1] + [xs[|xs| - 1]];
    }
  }

  /** The source's ThreadSafeFrameBuffer. */
  class ThreadSafeFrameBuffer {
    const maxSize: int
    var queue: seq<Frame>
    /** The last frame accepted by PutFrame (_current_frame). */
    var current: Option<Frame>

    ghost predicate Valid()
      reads this
    {
      0 < maxSize ==> |queue| <= maxSize
    }

    constructor (maxSize: int)
      ensures Valid()
      ensures this.maxSize == maxSize && queue == [] && current == None
    {
      this.maxSize := maxSize;
      queue := [];
      current := None;
    }

    /** put_frame: None is refused; a full queue refuses the frame (nothing
        changes); otherwise the frame joins the tail and becomes current. */
    method PutFrame(frame: Option<Frame>) returns (ok: bool)
      requires Valid()
      modifies this
      ensures Valid()
      ensures ok <==> frame.Some? && !QueueFull(maxSize, |old(queue)|)
      ensures ok ==> queue == old(queue) + [frame.value] && current == frame
      ensures !ok ==> queue == old(queue) && current == old(current)
    {
      if frame.None? {
        return false;
      }
      if QueueFull(maxSize, |queue|) {
        return false;
      }
      queue := queue + [frame.value];
      current := frame;
      return true;
    }

    /** get_frame: FIFO removal of the head; None when empty. The current
        frame is kept even after it has been dequeued. */
    method GetFrame() returns (f: Option<Frame>)
      requires Valid()
      modifies this`queue
      ensures Valid()
      ensures old(queue) == [] ==> f.None? && queue == []
      ensures old(queue) != [] ==> f == Some(old(queue)[0]) && queue == old(queue)[1..]
    {
      if queue == [] {
        return None;
      }
      f := Some(queue[0]);
      queue := queue[1..];
    }

    /** get_current_frame: the last accepted frame, or None. */
    function GetCurrentFrame(): (f: Option<Frame>)
      reads this
      ensures f == current
    {
      current
    }

    /** clear: drain the queue one frame at a time, then forget the current
        frame. */
    method Clear()
      requires Valid()
      modifies this
      ensures Valid()
      ensures queue == [] && current == None
    {
      while queue != []
        invariant Valid()
        decreases |queue|
      {
        var _ := GetFrame();
      }
      current := None;
    }

    function Size(): (n: nat)
      reads this
      ensures n == |queue|
    {
      |queue|
    }

    function IsEmpty(): (empty: bool)
      reads this
      ensures empty <==> queue == []
    {
      |queue| == 0
    }

    /** is_full: full exactly when the bound is positive and reached; an
        unbounded queue is never full. */
    function IsFull(): (full: bool)
      reads this
      requires Valid()
      ensures full <==> 0 < maxSize && |queue| >= maxSize
      ensures full ==> |queue| == maxSize
      ensures maxSize <= 0 ==> !full
    {
      QueueFull(maxSize, |queue|)
    }
  }
}
