/** The registry of running cameras: which cameras are registered and have a
    reader, the latest usable frame of each, and the mosaic of those frames
    laid out on a grid.

    The cameras themselves are opaque handles here; whether one starts, what
    its reader reads and what status it reports are parameters. The reader
    threads are modelled one loop iteration at a time. */
module CameraManagement {
  import opened Common

  /** An opaque reference to a camera object. */
  type CameraHandle = nat

  /** One frame placed on the grid: its cell, the pixel offset of the cell,
      and the frame as drawn there. */
  datatype Cell = Cell(row: int, col: int, top: int, left: int, frame: Frame)

  /** The mosaic get_grid_frames returns: an empty array when there are no
      frames, otherwise the grid shape, the cell size and the placed frames. */
  datatype Grid = NoFrames | Grid(rows: int, cols: int, cellWidth: nat, cellHeight: nat, cells: seq<Cell>)

  /** The smallest c with c * c >= n: the integer ceiling of the square root. */
  function CeilSqrt(n: nat): (c: nat)
    ensures c * c >= n
    ensures c == 0 || (c - 1) * (c - 1) < n
  {
    CeilSqrtFrom(n, 0)
  }

  function CeilSqrtFrom(n: nat, c: nat): (r: nat)
    requires c == 0 || (c - 1) * (c - 1) < n
    ensures r * r >= n && (r == 0 || (r - 1) * (r - 1) < n)
    decreases n - c
  {
    if c * c >= n then c
    else
      assert c < n by {
        if c > 0 { MulMonotone(1, c, c); }
      }
      CeilSqrtFrom(n, c + 1)
  }

  /** ceil(a / b) for positive b. */
  function CeilDiv(a: nat, b: nat): (q: nat)
    requires b > 0
    ensures q * b >= a && (q == 0 || (q - 1) * b < a)
  {
    if a % b == 0 then a / b else a / b + 1
  }

  /** The grid chosen for n frames: ceil(sqrt n) columns and as many rows as
      it takes to hold n. */
  function AutoGrid(n: nat): (r: (nat, nat))
    requires n > 0
    ensures r.1 > 0 && r.0 > 0
    ensures r.0 * r.1 >= n
  {
    var cols := CeilSqrt(n);
    (CeilDiv(n, cols), cols)
  }

  lemma MulMonotone(a: nat, b: nat, c: nat)
    requires a <= b
    ensures a * c <= b * c
  {
    assert b * c == a * c + (b - a) * c;
  }

  /** An index below rows * cols lies in one of the rows. */
  lemma DivBelow(k: nat, cols: nat, rows: nat)
    requires cols > 0 && k < rows * cols
    ensures k / cols < rows
  {
    var i := k / cols;
    assert k == i * cols + k % cols;
    if i >= rows {
      MulMonotone(rows, i, cols);
    }
  }

  /** With the automatic grid every index below n lands on a cell inside it. */
  lemma AutoGridHoldsAll(n: nat, idx: nat)
    requires 0 < n && idx < n
    ensures var (rows, cols) := AutoGrid(n);
      && 0 <= idx / cols < rows && 0 <= idx % cols < cols
  {
    var g := AutoGrid(n);
    assert idx < g.0 * g.1;
    DivBelow(idx, g.1, g.0);
    assert 0 <= idx % g.1 < g.1;
  }

  /** Two different indices land on different cells. */
  lemma CellsDistinct(a: nat, b: nat, cols: nat)
    requires cols > 0 && a != b
    ensures (a / cols, a % cols) != (b / cols, b % cols)
  {
    assert a == (a / cols) * cols + a % cols;
    assert b == (b / cols) * cols + b % cols;
  }

  /** The cells the loop of get_grid_frames fills for `frames`, each sized to
      the first frame's w x h: frame k goes to (k div cols, k mod cols) when
      that cell is inside the grid, and is dropped otherwise. */
  function Layout(frames: seq<Frame>, rows: int, cols: int, w: nat, h: nat): (cells: seq<Cell>)
    requires cols > 0
    ensures |cells| <= |frames|
    ensures forall c :: c in cells ==> 0 <= c.row < rows && 0 <= c.col < cols
    ensures forall c :: c in cells ==> c.top == c.row * h && c.left == c.col * w
    ensures forall c :: c in cells ==> c.frame.width == w && c.frame.height == h
  {
    if frames == [] then []
    else
      var k := |frames| - 1;
      var prefix := Layout(frames[..k], rows, cols, w, h);
      var i, j := k / cols, k % cols;
      if i < rows && j < cols then prefix + [Cell(i, j, i * h, j * w, Fit(frames[k], w, h))] else prefix
  }

  /** On a grid big enough for all of them, every frame gets the cell its
      index names, in order. */
  lemma {:induction false} LayoutPlacesAll(frames: seq<Frame>, rows: nat, cols: nat, w: nat, h: nat)
    requires cols > 0 && |frames| <= rows * cols
    ensures var cells := Layout(frames, rows, cols, w, h);
      && |cells| == |frames|
      && forall k :: 0 <= k < |cells| ==>
           cells[k].row == k / cols && cells[k].col == k % cols && cells[k].frame == Fit(frames[k], w, h)
    decreases |frames|
  {
    if frames != [] {
      var k := |frames| - 1;
      LayoutPlacesAll(frames[..k], rows, cols, w, h);
      DivBelow(k, cols, rows);
      assert frames[..k] + [frames[k]] == frames;
    }
  }

  /** A sequence with no elements is empty. */
  lemma NothingListed<T>(s: seq<T>)
    requires forall x :: x !in s
    ensures s == []
  {
    if s != [] {
      HeadListed(s);
      assert false;
    }
  }

  lemma HeadListed<T>(s: seq<T>)
    requires s != []
    ensures s[0] in s
  {
  }

  /** The source's CameraManager. */
  class CameraManager {
    var cameras: map<string, CameraHandle>
    /** The ids that have a reader thread. */
    var threads: set<string>
    /** frame_buffer, with its keys in insertion order beside it. */
    var frames: map<string, Frame>
    var frameOrder: seq<string>
    var active: bool

    /** Every registered camera has a reader and only registered cameras do;
        frames are kept only for registered cameras, and the order lists each
        stored id once. */
    ghost predicate Valid()
      reads this
    {
      && threads == cameras.Keys
      && frames.Keys <= cameras.Keys
      && Distinct(frameOrder)
      && (forall id :: id in frameOrder <==> id in frames)
    }

    constructor ()
      ensures Valid()
      ensures cameras == map[] && threads == {} && frames == map[] && frameOrder == [] && active
    {
      cameras := map[];
      threads := {};
      frames := map[];
      frameOrder := [];
      active := true;
    }

    /** add_camera, given whether the camera's start succeeds: a known id is
        refused with no change; otherwise the camera is registered with a
        reader exactly when it starts. */
    method AddCamera(id: string, camera: CameraHandle, starts: bool) returns (ok: bool)
      requires Valid()
      modifies this`cameras, this`threads
      ensures Valid()
      ensures id in old(cameras) ==> !ok && cameras == old(cameras) && threads == old(threads)
      ensures id !in old(cameras) ==> ok == starts
      ensures ok ==> cameras == old(cameras)[id := camera] && threads == old(threads) + {id}
      ensures !ok ==> cameras == old(cameras) && threads == old(threads)
    {
      if id in cameras {
        return false;
      }
      cameras := cameras[id := camera];
      if starts {
        threads := threads + {id};
        return true;
      }
      cameras := cameras - {id};
      ok := false;
    }

    /** remove_camera: an unknown id is refused; otherwise the camera is
        stopped and it, its frame and its reader are all dropped, the other
        frames keeping their order. `stopped` is the handle that was stopped;
        what stopping does to the camera is the camera's own stop. */
    method RemoveCamera(id: string) returns (ok: bool, stopped: Option<CameraHandle>)
      requires Valid()
      modifies this`cameras, this`threads, this`frames, this`frameOrder
      ensures Valid()
      ensures ok <==> id in old(cameras)
      ensures ok ==> stopped == Some(old(cameras)[id])
      ensures !ok ==> stopped.None?
      ensures !ok ==> cameras == old(cameras) && frames == old(frames) && threads == old(threads)
                      && frameOrder == old(frameOrder)
      ensures ok ==> && cameras == old(cameras) - {id} && frames == old(frames) - {id}
                     && threads == old(threads) - {id}
                     && frameOrder == KeepIn(old(frameOrder), frames.Keys)
    {
      if id !in cameras {
        return false, None;
      }
      stopped := Some(cameras[id]);
      cameras := cameras - {id};
      if id in frames {
        frames := frames - {id};
        frameOrder := KeepIn(frameOrder, frames.Keys);
      } else {
        KeepInAll(frameOrder, frames.Keys);
      }
      threads := threads - {id};
      ok := true;
    }

    /** get_frame: the stored frame of a camera, or nothing when none is
        stored or the stored one is empty. */
    method GetFrame(id: string) returns (frame: Option<Frame>)
      ensures frame.Some? <==> id in frames && !IsEmpty(frames[id])
      ensures frame.Some? ==> frame.value == frames[id]
    {
      if id in frames && Size(frames[id]) > 0 {
        return Some(frames[id]);
      }
      return None;
    }

    /** get_camera_status, given how each camera reports its status. */
    method GetCameraStatus<S>(id: string, status: CameraHandle -> S) returns (r: Option<S>)
      ensures id in cameras <==> r.Some?
      ensures r.Some? ==> r.value == status(cameras[id])
    {
      if id in cameras {
        return Some(status(cameras[id]));
      }
      return None;
    }

    /** get_all_camera_status: one status per registered camera. */
    method GetAllCameraStatus<S>(status: CameraHandle -> S) returns (r: map<string, S>)
      ensures r.Keys == cameras.Keys
      ensures forall id :: id in r ==> r[id] == status(cameras[id])
    {
      r := map id | id in cameras :: status(cameras[id]);
    }

    /** One iteration of a camera's reader loop, given what the camera read:
        the loop goes on while the manager is active and the camera is
        registered; a usable frame replaces the camera's slot (a new slot
        goes last in the order), anything else leaves the slots alone. */
    method ReaderStep(id: string, read: Option<Frame>) returns (continues: bool)
      requires Valid()
      modifies this`frames, this`frameOrder
      ensures Valid()
      ensures continues <==> active && id in cameras
      ensures continues && IsUsable(read) ==>
        && frames == old(frames)[id := read.value]
        && frameOrder == (if id in old(frames) then old(frameOrder) else old(frameOrder) + [id])
      ensures !(continues && IsUsable(read)) ==> frames == old(frames) && frameOrder == old(frameOrder)
    {
      continues := active && id in cameras;
      if continues && read.Some? && Size(read.value) > 0 {
        if id !in frames {
          frameOrder := frameOrder + [id];
        }
        frames := frames[id := read.value];
      }
    }

    /** The stored frames in the order their slots were created. */
    function Ordered(): (r: seq<Frame>)
      requires Valid()
      reads this
      ensures |r| == |frameOrder|
      ensures forall k :: 0 <= k < |r| ==> r[k] == frames[frameOrder[k]]
    {
      seq(|frameOrder|, k requires 0 <= k < |frameOrder| && frameOrder[k] in frames reads this => frames[frameOrder[k]])
    }

    /** get_grid_frames: with no frames, an empty grid; otherwise a grid of
        the given shape, or ceil(sqrt n) columns by ceil(n / cols) rows, with
        cells the size of the first frame. A negative dimension is a
        ValueError from numpy, and zero columns a ZeroDivisionError. */
    method GetGridFrames(gridSize: Option<(int, int)>) returns (r: Result<Grid>)
      requires Valid()
      ensures frameOrder == [] ==> r == Ok(NoFrames)
      ensures frameOrder != [] && gridSize.None? ==>
        var (rows, cols) := AutoGrid(|frameOrder|);
        var first := frames[frameOrder[0]];
        r == Ok(Grid(rows, cols, first.width, first.height, Layout(Ordered(), rows, cols, first.width, first.height)))
      ensures frameOrder != [] && gridSize.Some? ==>
        var (rows, cols) := gridSize.value;
        if rows < 0 || cols < 0 then r == Err(ValueError)
        else if cols == 0 then r == Err(ZeroDivisionError)
        else
          var first := frames[frameOrder[0]];
          r == Ok(Grid(rows, cols, first.width, first.height, Layout(Ordered(), rows, cols, first.width, first.height)))
    {
      if frameOrder == [] {
        return Ok(NoFrames);
      }
      var rows, cols;
      if gridSize.None? {
        var n := |frameOrder|;
        cols := CeilSqrt(n);
        rows := CeilDiv(n, cols);
      } else {
        rows, cols := gridSize.value.0, gridSize.value.1;
        if rows < 0 || cols < 0 {
          return Err(ValueError);
        }
        if cols == 0 {
          return Err(ZeroDivisionError);
        }
      }
      var first := frames[frameOrder[0]];
      var w, h := first.width, first.height;
      var all := Ordered();
      var cells: seq<Cell> := [];
      var idx := 0;
      while idx < |all|
        invariant 0 <= idx <= |all|
        invariant cells == Layout(all[..idx], rows, cols, w, h)
      {
        var i, j := idx / cols, idx % cols;
        if i < rows && j < cols {
          cells := cells + [Cell(i, j, i * h, j * w, Fit(all[idx], w, h))];
        }
        assert all[..idx + 1][..idx] == all[..idx];
        idx := idx + 1;
      }
      assert all[..idx] == all;
      r := Ok(Grid(rows, cols, w, h, cells));
    }

    /** stop_all as written: the manager goes inactive, then, holding the
        manager's lock, removes each camera through remove_camera, which
        takes the same non-reentrant lock again. With no camera registered
        it returns; with any camera it blocks forever before removing one.
        `completes` tells which. */
    method StopAll() returns (completes: bool)
      modifies this`active
      ensures !active
      ensures completes <==> cameras == map[]
    {
      active := false;
      completes := cameras == map[];
    }

    /** stop_all as evidently intended: the manager goes inactive and every
        camera is removed, with its frame and its reader. */
    method StopAllIntended()
      requires Valid()
      modifies this
      ensures Valid() && !active
      ensures cameras == map[] && threads == {} && frames == map[] && frameOrder == []
    {
      active := false;
      var ids := cameras.Keys;
      while ids != {}
        invariant Valid() && !active
        invariant ids == cameras.Keys
        decreases |ids|
      {
        var id :| id in ids;
        var _, _ := RemoveCamera(id);
        ids := cameras.Keys;
      }
      assert cameras == map[];
      assert frames == map[];
      NothingListed(frameOrder);
    }

    /** cleanup as written: stop_all, then empty the three dictionaries.
        Because stop_all blocks once a camera is registered, cleanup
        completes only when none is; `completes` tells which, and a blocked
        cleanup has changed nothing but the active flag. */
    method Cleanup() returns (completes: bool)
      requires Valid()
      modifies this
      ensures !active
      ensures completes <==> old(cameras) == map[]
      ensures completes ==> Valid() && cameras == map[] && threads == {} && frames == map[] && frameOrder == []
      ensures !completes ==> && cameras == old(cameras) && threads == old(threads)
                             && frames == old(frames) && frameOrder == old(frameOrder)
    {
      completes := StopAll();
      if completes {
        frames := map[];
        frameOrder := [];
        cameras := map[];
        threads := {};
      }
    }

    /** cleanup over the intended stop_all: every camera is stopped and
        removed, and the three dictionaries end up empty. */
    method CleanupIntended()
      requires Valid()
      modifies this
      ensures Valid() && !active
      ensures cameras == map[] && threads == {} && frames == map[] && frameOrder == []
    {
      StopAllIntended();
      frames := map[];
      frameOrder := [];
      cameras := map[];
      threads := {};
    }
  }

  /** A manager with one camera that started: stop_all as written does not
      complete. */
  method StopAllDeadlocks() returns (completes: bool)
    ensures !completes
  {
    var m := new CameraManager();
    var added := m.AddCamera("0", 0, true);
    assert added;
    completes := m.StopAll();
  }
}
