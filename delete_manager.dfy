/** The delete manager: users are soft-deleted together with their face
    samples, their images optionally moved to a per-user archive directory,
    and restored later, the images moved back; every success is written to
    the audit log and the session is committed only when at least one user
    succeeded.

    The file system is the set of paths of the files that exist; it is
    handed to an operation and the operation returns the new one. A move
    replaces a file already at its destination. The archive directory's
    timestamp and the clock are parameters read once per call. */
module DeleteManagement {
  import opened Common
  import opened Database

  /** os.path.basename: the part of a path after its last '/'. */
  function Basename(p: string): (b: string)
    ensures '/' !in b && |b| <= |p|
    decreases |p|
  {
    if p == [] then []
    else if p[|p| - 1] == '/' then []
    else Basename(p[..|p| - 1]) + [p[|p| - 1]]
  }

  /** os.path.join of two parts: an absolute second part replaces the
      first; otherwise a '/' is put between them unless the first part is
      empty or already ends with one. */
  function PathJoin(a: string, b: string): (p: string)
    ensures a != [] ==> p != []
  {
    if b != [] && b[0] == '/' then b
    else if a == [] || a[|a| - 1] == '/' then a + b
    else a + "/" + b
  }

  /** Where archived images go: faces/archived. */
  const ArchiveRoot: string := "faces/archived"

  /** _create_archive_path: the user's archive directory for the given
      timestamp (formatted as %Y%m%d_%H%M%S). */
  function ArchiveDir(root: string, userId: int, stamp: string): (d: string)
    ensures d != []
  {
    PathJoin(PathJoin(root, "user_" + IntToString(userId)), stamp)
  }

  /** The path an image is archived under: its file name inside the
      archive directory. */
  function ArchiveTarget(dir: string, imagePath: string): string
  {
    PathJoin(dir, Basename(imagePath))
  }

  /** Two images with different file names are archived to different
      paths. */
  lemma TargetsDiffer(dir: string, p: string, q: string)
    requires Basename(p) != Basename(q)
    ensures ArchiveTarget(dir, p) != ArchiveTarget(dir, q)
  {
    var b, c := Basename(p), Basename(q);
    var prefix := if dir == [] || dir[|dir| - 1] == '/' then dir else dir + "/";
    assert ArchiveTarget(dir, p) == prefix + b by {
      if b != [] { assert b[0] in b; }
    }
    assert ArchiveTarget(dir, q) == prefix + c by {
      if c != [] { assert c[0] in c; }
    }
    assert (prefix + b)[|prefix|..] == b;
    assert (prefix + c)[|prefix|..] == c;
  }

  // Moving files

  /** A move of the file at `src` to `dst`, made only when `active`. */
  datatype Move = Move(active: bool, src: string, dst: string)

  /** shutil.move when the move is active and its source exists: the file
      leaves its source and appears at its destination; otherwise nothing
      happens. */
  function Moved(files: set<string>, m: Move): (r: set<string>)
    ensures m.active && m.src in files ==> m.dst in r && (m.src != m.dst ==> m.src !in r)
    ensures !(m.active && m.src in files) ==> r == files
    ensures forall p :: p != m.src && p != m.dst ==> (p in r <==> p in files)
  {
    if m.active && m.src in files then files - {m.src} + {m.dst} else files
  }

  /** The files after a sequence of moves made one after the other. */
  function Relocated(ms: seq<Move>, files: set<string>): set<string>
    decreases |ms|
  {
    if ms == [] then files else Moved(Relocated(ms[..|ms| - 1], files), ms[|ms| - 1])
  }

  /** Whether an active move involves the path. */
  predicate Touches(m: Move, p: string)
  {
    m.active && (p == m.src || p == m.dst)
  }

  /** No two active moves share a path and no active move ends where an
      active move starts. */
  predicate Separate(ms: seq<Move>)
  {
    forall i, j :: 0 <= i < |ms| && 0 <= j < |ms| && ms[i].active && ms[j].active ==>
      && ms[i].src != ms[j].dst
      && (i != j ==> ms[i].src != ms[j].src && ms[i].dst != ms[j].dst)
  }

  /** Separate moves act independently: each source is vacated, each
      destination holds a file exactly when its source or itself held one,
      and every other path is as it was. */
  lemma {:induction false} RelocatedEffect(ms: seq<Move>, files: set<string>)
    requires Separate(ms)
    ensures forall i :: 0 <= i < |ms| && ms[i].active ==> ms[i].src !in Relocated(ms, files)
    ensures forall i :: 0 <= i < |ms| && ms[i].active ==>
      (ms[i].dst in Relocated(ms, files) <==> ms[i].src in files || ms[i].dst in files)
    ensures forall p :: (forall i :: 0 <= i < |ms| ==> !Touches(ms[i], p)) ==>
      (p in Relocated(ms, files) <==> p in files)
    decreases |ms|
  {
    if ms != [] {
      var n := |ms| - 1;
      var pre, m := ms[..n], ms[n];
      assert Separate(pre) by {
        forall i, j | 0 <= i < |pre| && 0 <= j < |pre| && pre[i].active && pre[j].active
          ensures pre[i].src != pre[j].dst && (i != j ==> pre[i].src != pre[j].src && pre[i].dst != pre[j].dst)
        {
          assert pre[i] == ms[i] && pre[j] == ms[j];
        }
      }
      RelocatedEffect(pre, files);
      var g := Relocated(pre, files);
      assert Relocated(ms, files) == Moved(g, m);
      if m.active {
        forall i | 0 <= i < |pre|
          ensures !Touches(pre[i], m.src) && !Touches(pre[i], m.dst)
        {
          assert pre[i] == ms[i];
        }
        assert m.src in g <==> m.src in files;
        assert m.dst in g <==> m.dst in files;
        assert m.src != m.dst by { assert ms[n].src != ms[n].dst; }
      }
      forall i | 0 <= i < n && ms[i].active
        ensures ms[i].src !in Relocated(ms, files)
        ensures ms[i].dst in Relocated(ms, files) <==> ms[i].src in files || ms[i].dst in files
      {
        assert pre[i] == ms[i];
        assert !Touches(m, ms[i].src) && !Touches(m, ms[i].dst);
      }
      forall p | forall i :: 0 <= i < |ms| ==> !Touches(ms[i], p)
        ensures p in Relocated(ms, files) <==> p in files
      {
        forall i | 0 <= i < |pre|
          ensures !Touches(pre[i], p)
        {
          assert pre[i] == ms[i];
        }
        assert !Touches(ms[n], p);
      }
    }
  }

  /** A separate sequence stays separate when cut short. */
  lemma SeparatePrefix(ms: seq<Move>, k: nat)
    requires Separate(ms) && k <= |ms|
    ensures Separate(ms[..k])
  {
    forall i, j | 0 <= i < k && 0 <= j < k && ms[..k][i].active && ms[..k][j].active
      ensures ms[..k][i].src != ms[..k][j].dst
      ensures i != j ==> ms[..k][i].src != ms[..k][j].src && ms[..k][i].dst != ms[..k][j].dst
    {
      assert ms[..k][i] == ms[i] && ms[..k][j] == ms[j];
    }
  }

  /** Under separate moves, the i-th move finds its source exactly when it
      existed at the start. */
  lemma SourceAtTurn(ms: seq<Move>, files: set<string>, i: nat)
    requires Separate(ms) && i < |ms| && ms[i].active
    ensures ms[i].src in Relocated(ms[..i], files) <==> ms[i].src in files
    ensures ms[i].dst in Relocated(ms[..i], files) <==> ms[i].dst in files
  {
    SeparatePrefix(ms, i);
    RelocatedEffect(ms[..i], files);
    forall k | 0 <= k < i
      ensures !Touches(ms[..i][k], ms[i].src) && !Touches(ms[..i][k], ms[i].dst)
    {
      assert ms[..i][k] == ms[k];
    }
  }

  // Archiving and restoring the images of one user

  /** The move _archive_face_images attempts for a sample: its image to its
      file name in the archive directory. */
  function ArchiveMove(s: Sample, dir: string): Move
  {
    Move(true, s.imagePath, ArchiveTarget(dir, s.imagePath))
  }

  function ArchiveMoves(samples: seq<Sample>, dir: string): (ms: seq<Move>)
    ensures |ms| == |samples| && forall i :: 0 <= i < |samples| ==> ms[i] == ArchiveMove(samples[i], dir)
  {
    seq(|samples|, i requires 0 <= i < |samples| => ArchiveMove(samples[i], dir))
  }

  /** A sample whose image exists when its turn comes is archived: it
      records where its image went and is marked deleted. */
  function ArchivedSample(s: Sample, files: set<string>, dir: string, now: real): (r: Sample)
    ensures s.imagePath !in files ==> r == s
    ensures s.imagePath in files ==>
      r.archivedPath == Some(ArchiveTarget(dir, s.imagePath)) && r.deletedAt == Some(now)
    ensures r.(deletedAt := s.deletedAt, archivedPath := s.archivedPath) == s
  {
    if s.imagePath in files then s.(archivedPath := Some(ArchiveTarget(dir, s.imagePath))).SoftDeleted(now)
    else s
  }

  /** _archive_face_images over a user's samples, in order: the samples
      after it, and the files. */
  function ArchivedImages(samples: seq<Sample>, files: set<string>, dir: string, now: real): (r: (seq<Sample>, set<string>))
    ensures |r.0| == |samples|
    decreases |samples|
  {
    if samples == [] then ([], files)
    else
      var prior := ArchivedImages(samples[..|samples| - 1], files, dir, now);
      var s := samples[|samples| - 1];
      (prior.0 + [ArchivedSample(s, prior.1, dir, now)], Moved(prior.1, ArchiveMove(s, dir)))
  }

  /** The archive moves of a prefix are the prefix of the archive moves. */
  lemma ArchiveMovesPrefix(samples: seq<Sample>, dir: string, k: nat)
    requires k <= |samples|
    ensures ArchiveMoves(samples[..k], dir) == ArchiveMoves(samples, dir)[..k]
  {
  }

  /** Archiving leaves the files its moves leave, made one after the
      other. */
  lemma {:induction false} ArchivedFilesAsMoves(samples: seq<Sample>, files: set<string>, dir: string, now: real)
    ensures ArchivedImages(samples, files, dir, now).1 == Relocated(ArchiveMoves(samples, dir), files)
    decreases |samples|
  {
    if samples != [] {
      var n := |samples| - 1;
      ArchivedFilesAsMoves(samples[..n], files, dir, now);
      ArchiveMovesPrefix(samples, dir, n);
    }
  }

  /** Each sample is archived against the files its predecessors' moves
      left. */
  lemma {:induction false} ArchivedSampleAt(samples: seq<Sample>, files: set<string>, dir: string, now: real, i: nat)
    requires i < |samples|
    ensures ArchivedImages(samples, files, dir, now).0[i] ==
      ArchivedSample(samples[i], Relocated(ArchiveMoves(samples, dir)[..i], files), dir, now)
    decreases |samples|
  {
    var n := |samples| - 1;
    var pre := samples[..n];
    var prior := ArchivedImages(pre, files, dir, now);
    assert ArchivedImages(samples, files, dir, now).0 == prior.0 + [ArchivedSample(samples[n], prior.1, dir, now)];
    if i == n {
      ArchivedFilesAsMoves(pre, files, dir, now);
      ArchiveMovesPrefix(samples, dir, n);
    } else {
      ArchivedSampleAt(pre, files, dir, now, i);
      assert pre[i] == samples[i];
      ArchiveMovesPrefix(samples, dir, n);
      ArchiveMovesPrefix(samples, dir, i);
      ArchiveMovesPrefix(pre, dir, i);
      assert pre[..i] == samples[..i];
    }
  }

  /** The move restore_users attempts for a sample: from its (non-empty)
      archived path back to its image path. */
  function RestoreMove(s: Sample): Move
  {
    var a := s.archivedPath;
    Move(a.Some? && a.value != "", if a.Some? then a.value else "", s.imagePath)
  }

  function RestoreMoves(samples: seq<Sample>): (ms: seq<Move>)
    ensures |ms| == |samples| && forall i :: 0 <= i < |samples| ==> ms[i] == RestoreMove(samples[i])
  {
    seq(|samples|, i requires 0 <= i < |samples| => RestoreMove(samples[i]))
  }

  /** A sample on restore: its deletion mark is cleared, and when its
      archived image exists the image is moved back and the archived path
      cleared. */
  function RestoredSample(s: Sample, files: set<string>): (r: Sample)
    ensures r.deletedAt.None?
    ensures s.archivedPath.Some? && s.archivedPath.value != "" && s.archivedPath.value in files ==> r.archivedPath.None?
    ensures !(s.archivedPath.Some? && s.archivedPath.value != "" && s.archivedPath.value in files) ==>
      r.archivedPath == s.archivedPath
    ensures r.(deletedAt := s.deletedAt, archivedPath := s.archivedPath) == s
  {
    if s.archivedPath.Some? && s.archivedPath.value != "" && s.archivedPath.value in files
    then s.(archivedPath := None).Restored()
    else s.Restored()
  }

  /** The sample loop of restore_users: the samples after it, and the
      files. */
  function RestoredImages(samples: seq<Sample>, files: set<string>): (r: (seq<Sample>, set<string>))
    ensures |r.0| == |samples|
    decreases |samples|
  {
    if samples == [] then ([], files)
    else
      var prior := RestoredImages(samples[..|samples| - 1], files);
      var s := samples[|samples| - 1];
      (prior.0 + [RestoredSample(s, prior.1)], Moved(prior.1, RestoreMove(s)))
  }

  /** The restore moves of a prefix are the prefix of the restore moves. */
  lemma RestoreMovesPrefix(samples: seq<Sample>, k: nat)
    requires k <= |samples|
    ensures RestoreMoves(samples[..k]) == RestoreMoves(samples)[..k]
  {
  }

  /** Restoring leaves the files its moves leave, as archiving does. */
  lemma {:induction false} RestoredFilesAsMoves(samples: seq<Sample>, files: set<string>)
    ensures RestoredImages(samples, files).1 == Relocated(RestoreMoves(samples), files)
    decreases |samples|
  {
    if samples != [] {
      var n := |samples| - 1;
      RestoredFilesAsMoves(samples[..n], files);
      RestoreMovesPrefix(samples, n);
    }
  }

  /** Each sample is restored against the files its predecessors' moves
      left. */
  lemma {:induction false} RestoredSampleAt(samples: seq<Sample>, files: set<string>, i: nat)
    requires i < |samples|
    ensures RestoredImages(samples, files).0[i] == RestoredSample(samples[i], Relocated(RestoreMoves(samples)[..i], files))
    decreases |samples|
  {
    var n := |samples| - 1;
    var pre := samples[..n];
    var prior := RestoredImages(pre, files);
    assert RestoredImages(samples, files).0 == prior.0 + [RestoredSample(samples[n], prior.1)];
    if i == n {
      RestoredFilesAsMoves(pre, files);
      RestoreMovesPrefix(samples, n);
    } else {
      RestoredSampleAt(pre, files, i);
      assert pre[i] == samples[i];
      RestoreMovesPrefix(samples, n);
      RestoreMovesPrefix(samples, i);
      RestoreMovesPrefix(pre, i);
      assert pre[..i] == samples[..i];
    }
  }

  /** When archiving a user's images can be undone: the images have
      different file names, no archive target is one of the images or an
      existing file, and no sample has been archived before. */
  predicate Undoable(samples: seq<Sample>, dir: string, files: set<string>)
  {
    && (forall i, j :: 0 <= i < j < |samples| ==> Basename(samples[i].imagePath) != Basename(samples[j].imagePath))
    && (forall i, j :: 0 <= i < |samples| && 0 <= j < |samples| ==>
          ArchiveTarget(dir, samples[i].imagePath) != samples[j].imagePath)
    && (forall i :: 0 <= i < |samples| ==>
          ArchiveTarget(dir, samples[i].imagePath) !in files && samples[i].archivedPath.None?)
  }

  lemma UndoableSeparate(samples: seq<Sample>, dir: string, files: set<string>)
    requires Undoable(samples, dir, files)
    ensures Separate(ArchiveMoves(samples, dir))
  {
    var ms := ArchiveMoves(samples, dir);
    forall i, j | 0 <= i < |ms| && 0 <= j < |ms| && i != j
      ensures ms[i].src != ms[j].src && ms[i].dst != ms[j].dst
    {
      var lo, hi := if i < j then i else j, if i < j then j else i;
      assert Basename(samples[lo].imagePath) != Basename(samples[hi].imagePath);
      TargetsDiffer(dir, samples[i].imagePath, samples[j].imagePath);
    }
  }

  /** What archiving leaves when it can be undone: exactly the samples whose
      image existed are archived, and the files are as RelocatedEffect says
      for the archive moves. */
  lemma ArchivedWhenUndoable(samples: seq<Sample>, files: set<string>, dir: string, now: real)
    requires Undoable(samples, dir, files)
    ensures Separate(ArchiveMoves(samples, dir))
    ensures ArchivedImages(samples, files, dir, now).1 == Relocated(ArchiveMoves(samples, dir), files)
    ensures forall i :: 0 <= i < |samples| ==>
      ArchivedImages(samples, files, dir, now).0[i] == ArchivedSample(samples[i], files, dir, now)
  {
    UndoableSeparate(samples, dir, files);
    ArchivedFilesAsMoves(samples, files, dir, now);
    var ms := ArchiveMoves(samples, dir);
    forall i | 0 <= i < |samples|
      ensures ArchivedImages(samples, files, dir, now).0[i] == ArchivedSample(samples[i], files, dir, now)
    {
      ArchivedSampleAt(samples, files, dir, now, i);
      SourceAtTurn(ms, files, i);
    }
  }

  /** After archiving when it can be undone, the restore moves are the
      archive moves reversed, made exactly where an image was moved, and
      they are separate. */
  lemma RestoreMovesReverse(u: User, files: set<string>, dir: string, now: real)
    requires dir != [] && Undoable(u.samples, dir, files)
    ensures var d := Archived(u.(samples := ArchivedImages(u.samples, files, dir, now).0), now).samples;
      && |RestoreMoves(d)| == |u.samples|
      && Separate(RestoreMoves(d))
      && forall i :: 0 <= i < |u.samples| ==>
           var rs := RestoreMoves(d);
           && (rs[i].active <==> u.samples[i].imagePath in files)
           && rs[i].dst == u.samples[i].imagePath
           && (rs[i].active ==> rs[i].src == ArchiveTarget(dir, u.samples[i].imagePath))
  {
    var ss := u.samples;
    var a := ArchivedImages(ss, files, dir, now);
    var d := Archived(u.(samples := a.0), now).samples;
    var ms := ArchiveMoves(ss, dir);
    var rs := RestoreMoves(d);
    ArchivedWhenUndoable(ss, files, dir, now);
    forall i | 0 <= i < |ss|
      ensures (rs[i].active <==> ss[i].imagePath in files) && rs[i].dst == ss[i].imagePath
      ensures rs[i].active ==> rs[i].src == ArchiveTarget(dir, ss[i].imagePath)
    {
      assert d[i] == a.0[i].SoftDeleted(now);
      assert a.0[i] == ArchivedSample(ss[i], files, dir, now);
      assert rs[i] == RestoreMove(d[i]);
    }
    forall i, j | 0 <= i < |rs| && 0 <= j < |rs| && rs[i].active && rs[j].active
      ensures rs[i].src != rs[j].dst && (i != j ==> rs[i].src != rs[j].src && rs[i].dst != rs[j].dst)
    {
      assert ms[i] == ArchiveMove(ss[i], dir) && ms[j] == ArchiveMove(ss[j], dir);
      assert ms[i].src != ms[j].dst && (i != j ==> ms[i].src != ms[j].src && ms[i].dst != ms[j].dst);
    }
  }

  /** Archiving and then restoring, when archiving can be undone, gives back
      the samples with their deletion marks cleared. */
  lemma SamplesComeBack(u: User, files: set<string>, dir: string, now: real)
    requires dir != [] && Undoable(u.samples, dir, files)
    ensures var a := ArchivedImages(u.samples, files, dir, now);
      var b := RestoredImages(Archived(u.(samples := a.0), now).samples, a.1);
      && |b.0| == |u.samples|
      && forall i :: 0 <= i < |u.samples| ==> b.0[i] == u.samples[i].Restored()
  {
    var ss := u.samples;
    var a := ArchivedImages(ss, files, dir, now);
    var d := Archived(u.(samples := a.0), now).samples;
    var ms := ArchiveMoves(ss, dir);
    var rs := RestoreMoves(d);
    ArchivedWhenUndoable(ss, files, dir, now);
    RelocatedEffect(ms, files);
    RestoreMovesReverse(u, files, dir, now);
    var b := RestoredImages(d, a.1);
    forall i | 0 <= i < |ss|
      ensures b.0[i] == ss[i].Restored()
    {
      RestoredSampleAt(d, a.1, i);
      assert d[i] == a.0[i].SoftDeleted(now);
      assert a.0[i] == ArchivedSample(ss[i], files, dir, now);
      if rs[i].active {
        SourceAtTurn(rs, a.1, i);
        assert ms[i] == ArchiveMove(ss[i], dir);
        assert rs[i].src in a.1;
      }
    }
  }

  /** `rs` reverses the separate moves `ms`, made exactly where `ms` found
      its source, and no destination of `ms` held a file at the start. */
  predicate Reverses(rs: seq<Move>, ms: seq<Move>, files: set<string>)
  {
    && Separate(ms) && Separate(rs) && |rs| == |ms|
    && (forall i :: 0 <= i < |ms| ==> ms[i].active && ms[i].dst !in files)
    && (forall i :: 0 <= i < |ms| ==>
          (rs[i].active <==> ms[i].src in files) && rs[i].dst == ms[i].src && (rs[i].active ==> rs[i].src == ms[i].dst))
  }

  /** A source of the first moves holds a file at the end exactly when it
      held one at the start. */
  lemma UndoneSource(ms: seq<Move>, rs: seq<Move>, files: set<string>, i: nat)
    requires Reverses(rs, ms, files) && i < |ms|
    ensures ms[i].src in Relocated(rs, Relocated(ms, files)) <==> ms[i].src in files
  {
    var g := Relocated(ms, files);
    RelocatedEffect(ms, files);
    RelocatedEffect(rs, g);
    if !rs[i].active {
      forall j | 0 <= j < |rs|
        ensures !Touches(rs[j], ms[i].src)
      {
        if j != i && rs[j].active {
          assert ms[j].src != ms[i].src;
        }
      }
    }
  }

  /** A destination of the first moves is empty at the end, as it was at
      the start. */
  lemma UndoneTarget(ms: seq<Move>, rs: seq<Move>, files: set<string>, i: nat)
    requires Reverses(rs, ms, files) && i < |ms|
    ensures ms[i].dst !in Relocated(rs, Relocated(ms, files))
  {
    var g := Relocated(ms, files);
    RelocatedEffect(ms, files);
    RelocatedEffect(rs, g);
    if !rs[i].active {
      forall j | 0 <= j < |rs|
        ensures !Touches(rs[j], ms[i].dst)
      {
        if j != i && rs[j].active {
          assert ms[j].dst != ms[i].dst;
        }
      }
    }
  }

  /** A path no move involves is never changed. */
  lemma UndoneOther(ms: seq<Move>, rs: seq<Move>, files: set<string>, p: string)
    requires Reverses(rs, ms, files)
    requires forall i :: 0 <= i < |ms| ==> p != ms[i].src && p != ms[i].dst
    ensures p in Relocated(rs, Relocated(ms, files)) <==> p in files
  {
    var g := Relocated(ms, files);
    RelocatedEffect(ms, files);
    RelocatedEffect(rs, g);
    forall j | 0 <= j < |ms|
      ensures !Touches(ms[j], p) && !Touches(rs[j], p)
    {
    }
  }

  /** Separate moves followed by their reversal, made exactly where the
      first moves found their source, restore the files, provided no
      destination held a file at the start. */
  lemma MovesUndone(ms: seq<Move>, rs: seq<Move>, files: set<string>)
    requires Reverses(rs, ms, files)
    ensures Relocated(rs, Relocated(ms, files)) == files
  {
    var h := Relocated(rs, Relocated(ms, files));
    forall p
      ensures p in h <==> p in files
    {
      if i :| 0 <= i < |ms| && p == ms[i].src {
        UndoneSource(ms, rs, files, i);
      } else if i :| 0 <= i < |ms| && p == ms[i].dst {
        UndoneTarget(ms, rs, files, i);
      } else {
        UndoneOther(ms, rs, files, p);
      }
    }
  }

  /** Archiving and then restoring, when archiving can be undone, leaves the
      files exactly as they were: every moved image is back at its path and
      nothing is left in the archive. */
  lemma FilesComeBack(u: User, files: set<string>, dir: string, now: real)
    requires dir != [] && Undoable(u.samples, dir, files)
    ensures var a := ArchivedImages(u.samples, files, dir, now);
      RestoredImages(Archived(u.(samples := a.0), now).samples, a.1).1 == files
  {
    var ss := u.samples;
    var a := ArchivedImages(ss, files, dir, now);
    var d := Archived(u.(samples := a.0), now).samples;
    var ms := ArchiveMoves(ss, dir);
    ArchivedWhenUndoable(ss, files, dir, now);
    RestoreMovesReverse(u, files, dir, now);
    RestoredFilesAsMoves(d, a.1);
    MovesUndone(ms, RestoreMoves(d), files);
  }

  // The whole store

  /** What delete_users and restore_users work on: the users table, the
      files, and the audit log. */
  datatype Store = Store(users: map<int, User>, files: set<string>, log: seq<AuditEntry>)

  /** The work delete_users does for a user that exists. */
  function DeletedUser(st: Store, id: int, archive: bool, root: string, stamp: string, now: real): (r: Store)
    requires id in st.users
    ensures r.users.Keys == st.users.Keys
    ensures r.users[id].id == st.users[id].id
  {
    var u := st.users[id];
    var dir := ArchiveDir(root, id, stamp);
    var moved := if archive then ArchivedImages(u.samples, st.files, dir, now) else (u.samples, st.files);
    Store(st.users[id := Archived(u.(samples := moved.0), now)],
          moved.1,
          st.log + [AuditEntry(id, "delete", Some(DeletionDetails(if archive then Some(dir) else None, |u.samples|, now)))])
  }

  /** delete_users over the ids in order; an unknown id changes nothing. */
  function DeleteAll(st: Store, ids: seq<int>, archive: bool, root: string, stamp: string, now: real): (r: Store)
    ensures r.users.Keys == st.users.Keys
    decreases |ids|
  {
    if ids == [] then st
    else
      var prior := DeleteAll(st, ids[..|ids| - 1], archive, root, stamp, now);
      var id := ids[|ids| - 1];
      if id in prior.users then DeletedUser(prior, id, archive, root, stamp, now) else prior
  }

  /** The work restore_users does for a user that exists. */
  function RestoredUser(st: Store, id: int, now: real): (r: Store)
    requires id in st.users
    ensures r.users.Keys == st.users.Keys
    ensures r.users[id].id == st.users[id].id
  {
    var u := st.users[id];
    var moved := RestoredImages(u.samples, st.files);
    Store(st.users[id := u.(samples := moved.0).Restored()],
          moved.1,
          st.log + [AuditEntry(id, "restore", Some(RestorationDetails(now, |u.samples|)))])
  }

  /** restore_users over the ids in order; an unknown id changes nothing. */
  function RestoreAll(st: Store, ids: seq<int>, now: real): (r: Store)
    ensures r.users.Keys == st.users.Keys
    decreases |ids|
  {
    if ids == [] then st
    else
      var prior := RestoreAll(st, ids[..|ids| - 1], now);
      var id := ids[|ids| - 1];
      if id in prior.users then RestoredUser(prior, id, now) else prior
  }

  /** The failure recorded for an id: the ValueError raised for an id that
      names no user. */
  datatype Failure = UserNotFound(id: int)
  {
    /** str() of the exception. */
    function Message(): string
    {
      "User " + IntToString(id) + " not found"
    }
  }

  /** An entry of the returned errors list. */
  datatype ErrorEntry = ErrorEntry(userId: int, error: Failure)

  /** The ids that name a user, in order. */
  function Found(ids: seq<int>, known: set<int>): (r: seq<int>)
    ensures |r| <= |ids|
    decreases |ids|
  {
    if ids == [] then []
    else Found(ids[..|ids| - 1], known) + (if ids[|ids| - 1] in known then [ids[|ids| - 1]] else [])
  }

  /** One error entry per id that names no user, in order. */
  function NotFound(ids: seq<int>, known: set<int>): (r: seq<ErrorEntry>)
    ensures |r| <= |ids|
    decreases |ids|
  {
    if ids == [] then []
    else
      var id := ids[|ids| - 1];
      NotFound(ids[..|ids| - 1], known) + (if id in known then [] else [ErrorEntry(id, UserNotFound(id))])
  }

  /** Every id is either found or reported. */
  lemma {:induction false} FoundOrNot(ids: seq<int>, known: set<int>)
    ensures |Found(ids, known)| + |NotFound(ids, known)| == |ids|
    ensures forall id :: id in ids && id !in known ==> ErrorEntry(id, UserNotFound(id)) in NotFound(ids, known)
    ensures forall id :: id in ids && id in known ==> id in Found(ids, known)
    decreases |ids|
  {
    if ids != [] {
      var pre := ids[..|ids| - 1];
      FoundOrNot(pre, known);
      forall id | id in ids
        ensures id in pre || id == ids[|ids| - 1]
      {
        var k :| 0 <= k < |ids| && ids[k] == id;
        if k < |ids| - 1 {
          assert pre[k] == id;
        }
      }
    }
  }

  /** One more id, for the loop of delete_users. */
  lemma DeletePrefixStep(st: Store, ids: seq<int>, k: nat, archive: bool, root: string, stamp: string, now: real)
    requires k < |ids|
    ensures DeleteAll(st, ids[..k + 1], archive, root, stamp, now) ==
      var prior := DeleteAll(st, ids[..k], archive, root, stamp, now);
      if ids[k] in prior.users then DeletedUser(prior, ids[k], archive, root, stamp, now) else prior
  {
    assert ids[..k + 1][..k] == ids[..k];
  }

  /** One more id, for the loop of restore_users. */
  lemma RestorePrefixStep(st: Store, ids: seq<int>, k: nat, now: real)
    requires k < |ids|
    ensures RestoreAll(st, ids[..k + 1], now) ==
      var prior := RestoreAll(st, ids[..k], now);
      if ids[k] in prior.users then RestoredUser(prior, ids[k], now) else prior
  {
    assert ids[..k + 1][..k] == ids[..k];
  }

  /** One more id, for the result counts of both loops. */
  lemma CountPrefixStep(ids: seq<int>, k: nat, known: set<int>)
    requires k < |ids|
    ensures Found(ids[..k + 1], known) == Found(ids[..k], known) + (if ids[k] in known then [ids[k]] else [])
    ensures NotFound(ids[..k + 1], known) ==
      NotFound(ids[..k], known) + (if ids[k] in known then [] else [ErrorEntry(ids[k], UserNotFound(ids[k]))])
  {
    assert ids[..k + 1][..k] == ids[..k];
  }

  /** A user and every one of its samples marked deleted at `now`. */
  predicate DeletedAt(u: User, now: real)
  {
    u.deletedAt == Some(now) && forall i :: 0 <= i < |u.samples| ==> u.samples[i].deletedAt == Some(now)
  }

  /** A user and every one of its samples carrying no deletion mark. */
  predicate Live(u: User)
  {
    u.deletedAt.None? && forall i :: 0 <= i < |u.samples| ==> u.samples[i].deletedAt.None?
  }

  /** An id is in a sequence exactly when it is in the sequence without
      its last element or is that element. */
  lemma InLastSplit(ids: seq<int>, x: int)
    requires ids != []
    ensures x in ids <==> x in ids[..|ids| - 1] || x == ids[|ids| - 1]
  {
    if x in ids {
      var k :| 0 <= k < |ids| && ids[k] == x;
      if k < |ids| - 1 {
        assert ids[..|ids| - 1][k] == x;
      }
    }
  }

  /** delete_users marks every listed user, and all its samples, deleted at
      `now`, and leaves every other user as it was. */
  lemma {:induction false} DeleteAllUsers(st: Store, ids: seq<int>, archive: bool, root: string, stamp: string, now: real)
    ensures forall x :: x in st.users && x in ids ==> DeletedAt(DeleteAll(st, ids, archive, root, stamp, now).users[x], now)
    ensures forall x :: x in st.users && x !in ids ==> DeleteAll(st, ids, archive, root, stamp, now).users[x] == st.users[x]
    decreases |ids|
  {
    if ids != [] {
      var pre := ids[..|ids| - 1];
      var id := ids[|ids| - 1];
      DeleteAllUsers(st, pre, archive, root, stamp, now);
      var prior := DeleteAll(st, pre, archive, root, stamp, now);
      var r := DeleteAll(st, ids, archive, root, stamp, now);
      forall x | x in st.users
        ensures x in ids ==> DeletedAt(r.users[x], now)
        ensures x !in ids ==> r.users[x] == st.users[x]
      {
        InLastSplit(ids, x);
        if x != id {
          assert r.users[x] == prior.users[x];
        }
      }
    }
  }

  /** restore_users clears the deletion marks of every listed user and all
      its samples, and leaves every other user as it was. */
  lemma {:induction false} RestoreAllUsers(st: Store, ids: seq<int>, now: real)
    ensures forall x :: x in st.users && x in ids ==> Live(RestoreAll(st, ids, now).users[x])
    ensures forall x :: x in st.users && x !in ids ==> RestoreAll(st, ids, now).users[x] == st.users[x]
    decreases |ids|
  {
    if ids != [] {
      var pre := ids[..|ids| - 1];
      var id := ids[|ids| - 1];
      RestoreAllUsers(st, pre, now);
      var prior := RestoreAll(st, pre, now);
      var r := RestoreAll(st, ids, now);
      forall x | x in st.users
        ensures x in ids ==> Live(r.users[x])
        ensures x !in ids ==> r.users[x] == st.users[x]
      {
        InLastSplit(ids, x);
        if x != id {
          assert r.users[x] == prior.users[x];
        } else {
          var u := prior.users[id];
          var s := RestoredImages(u.samples, prior.files).0;
          forall i | 0 <= i < |s|
            ensures s[i].deletedAt.None?
          {
            RestoredSampleAt(u.samples, prior.files, i);
          }
        }
      }
    }
  }

  /** delete_users adds one "delete" entry to the audit log per id that
      names a user, in the order of the ids, and keeps the earlier
      entries. */
  lemma {:induction false} DeleteAllLog(st: Store, ids: seq<int>, archive: bool, root: string, stamp: string, now: real)
    ensures var r := DeleteAll(st, ids, archive, root, stamp, now);
      var found := Found(ids, st.users.Keys);
      && |r.log| == |st.log| + |found|
      && r.log[..|st.log|] == st.log
      && forall k :: 0 <= k < |found| ==> r.log[|st.log| + k].userId == found[k] && r.log[|st.log| + k].action == "delete"
    decreases |ids|
  {
    if ids != [] {
      var pre := ids[..|ids| - 1];
      DeleteAllLog(st, pre, archive, root, stamp, now);
      var prior := DeleteAll(st, pre, archive, root, stamp, now);
      var r := DeleteAll(st, ids, archive, root, stamp, now);
      var id := ids[|ids| - 1];
      var found := Found(ids, st.users.Keys);
      var before := Found(pre, st.users.Keys);
      assert found == before + (if id in st.users then [id] else []);
      assert prior.users.Keys == st.users.Keys;
      if id in prior.users {
        assert found == before + [id];
        var entry := AuditEntry(id, "delete", r.log[|r.log| - 1].details);
        assert r.log == prior.log + [entry];
        assert |prior.log| == |st.log| + |before|;
        assert |r.log| == |st.log| + |found|;
        assert r.log[..|st.log|] == prior.log[..|st.log|];
        forall k | 0 <= k < |found|
          ensures r.log[|st.log| + k].userId == found[k] && r.log[|st.log| + k].action == "delete"
        {
          if k < |before| {
            assert r.log[|st.log| + k] == prior.log[|st.log| + k];
            assert found[k] == before[k];
          } else {
            assert |st.log| + k == |prior.log|;
            assert r.log[|prior.log|] == entry;
            assert found[k] == id;
          }
        }
      } else {
        assert found == before && r == prior;
      }
    }
  }

  /** restore_users adds one "restore" entry to the audit log per id that
      names a user, in the order of the ids, and keeps the earlier
      entries. */
  lemma {:induction false} RestoreAllLog(st: Store, ids: seq<int>, now: real)
    ensures var r := RestoreAll(st, ids, now);
      var found := Found(ids, st.users.Keys);
      && |r.log| == |st.log| + |found|
      && r.log[..|st.log|] == st.log
      && forall k :: 0 <= k < |found| ==> r.log[|st.log| + k].userId == found[k] && r.log[|st.log| + k].action == "restore"
    decreases |ids|
  {
    if ids != [] {
      var pre := ids[..|ids| - 1];
      RestoreAllLog(st, pre, now);
      var prior := RestoreAll(st, pre, now);
      var r := RestoreAll(st, ids, now);
      var id := ids[|ids| - 1];
      var found := Found(ids, st.users.Keys);
      var before := Found(pre, st.users.Keys);
      assert found == before + (if id in st.users then [id] else []);
      assert prior.users.Keys == st.users.Keys;
      if id in prior.users {
        assert found == before + [id];
        assert r.log == prior.log + [AuditEntry(id, "restore", r.log[|r.log| - 1].details)];
        assert |r.log| == |st.log| + |found|;
        assert r.log[..|st.log|] == prior.log[..|st.log|];
        forall k | 0 <= k < |found|
          ensures r.log[|st.log| + k].userId == found[k] && r.log[|st.log| + k].action == "restore"
        {
          if k < |before| {
            assert r.log[|st.log| + k] == prior.log[|st.log| + k];
            assert found[k] == before[k];
          }
        }
      } else {
        assert found == before && r == prior;
      }
    }
  }

  /** delete_users over a single id. */
  lemma DeleteSingle(st: Store, id: int, archive: bool, root: string, stamp: string, now: real)
    ensures DeleteAll(st, [id], archive, root, stamp, now) ==
      if id in st.users then DeletedUser(st, id, archive, root, stamp, now) else st
  {
    assert [id][..0] == [];
    assert DeleteAll(st, [], archive, root, stamp, now) == st;
  }

  /** restore_users over a single id. */
  lemma RestoreSingle(st: Store, id: int, now: real)
    ensures RestoreAll(st, [id], now) == if id in st.users then RestoredUser(st, id, now) else st
  {
    assert [id][..0] == [];
    assert RestoreAll(st, [], now) == st;
  }

  /** Archiving a live user's samples and then restoring them gives the
      user back, when the archiving can be undone. */
  lemma UserComesBack(u: User, files: set<string>, dir: string, now: real)
    requires Live(u) && dir != [] && Undoable(u.samples, dir, files)
    ensures var a := ArchivedImages(u.samples, files, dir, now);
      var d := Archived(u.(samples := a.0), now);
      d.(samples := RestoredImages(d.samples, a.1).0).Restored() == u
  {
    var a := ArchivedImages(u.samples, files, dir, now);
    var d := Archived(u.(samples := a.0), now);
    var b := RestoredImages(d.samples, a.1);
    SamplesComeBack(u, files, dir, now);
    assert b.0 == u.samples;
  }

  /** Deleting a live user with archiving and then restoring it gives back
      the users and the files as they were, when the archiving can be
      undone; the audit log gains the deletion and the restoration. */
  lemma DeleteThenRestore(st: Store, id: int, root: string, stamp: string, now: real, later: real)
    requires id in st.users && Live(st.users[id])
    requires Undoable(st.users[id].samples, ArchiveDir(root, id, stamp), st.files)
    ensures var r := RestoreAll(DeleteAll(st, [id], true, root, stamp, now), [id], later);
      && r.users == st.users && r.files == st.files
      && |r.log| == |st.log| + 2 && r.log[..|st.log|] == st.log
      && r.log[|st.log|].action == "delete" && r.log[|st.log| + 1].action == "restore"
  {
    var u := st.users[id];
    var dir := ArchiveDir(root, id, stamp);
    DeleteSingle(st, id, true, root, stamp, now);
    var st1 := DeleteAll(st, [id], true, root, stamp, now);
    RestoreSingle(st1, id, later);
    FilesComeBack(u, st.files, dir, now);
    UserComesBack(u, st.files, dir, now);
  }

  /** The result dictionary of delete_users and restore_users. */
  datatype Outcome = Outcome(successCount: nat, errorCount: nat, errors: seq<ErrorEntry>)

  /** The source's DeleteManager. */
  class DeleteManager {
    const session: Session
    /** Where archives go; faces/archived unless the caller changes it. */
    var archiveRoot: string

    constructor (session: Session)
      ensures this.session == session && archiveRoot == ArchiveRoot
    {
      this.session := session;
      archiveRoot := ArchiveRoot;
    }

    /** _archive_face_images: each sample whose image exists at its turn has
        the image moved into the archive directory, records the new path
        and is marked deleted; the others are left alone. */
    method ArchiveFaceImages(samples: seq<Sample>, files: set<string>, dir: string, now: real)
      returns (archived: seq<Sample>, files': set<string>)
      ensures (archived, files') == ArchivedImages(samples, files, dir, now)
    {
      archived := [];
      files' := files;
      for i := 0 to |samples|
        invariant (archived, files') == ArchivedImages(samples[..i], files, dir, now)
      {
        assert samples[..i + 1][..i] == samples[..i];
        var sample := samples[i];
        if sample.imagePath in files' {
          var target := ArchiveTarget(dir, sample.imagePath);
          files' := files' - {sample.imagePath} + {target};
          sample := sample.(archivedPath := Some(target)).SoftDeleted(now);
        }
        archived := archived + [sample];
      }
      assert samples[..|samples|] == samples;
    }

    /** The sample loop of restore_users: each sample whose archived image
        exists has it moved back to its image path and its archived path
        cleared; every sample is restored. */
    method RestoreFaceImages(samples: seq<Sample>, files: set<string>)
      returns (restored: seq<Sample>, files': set<string>)
      ensures (restored, files') == RestoredImages(samples, files)
    {
      restored := [];
      files' := files;
      for i := 0 to |samples|
        invariant (restored, files') == RestoredImages(samples[..i], files)
      {
        assert samples[..i + 1][..i] == samples[..i];
        var sample := samples[i];
        if sample.archivedPath.Some? && sample.archivedPath.value != "" && sample.archivedPath.value in files' {
          files' := files' - {sample.archivedPath.value} + {sample.imagePath};
          sample := sample.(archivedPath := None);
        }
        sample := sample.Restored();
        restored := restored + [sample];
      }
      assert samples[..|samples|] == samples;
    }

    /** The body of the loop of delete_users for one id: an unknown id
        changes nothing and is reported; a user is archived as DeletedUser
        describes. */
    method DeleteOne(userId: int, archive: bool, stamp: string, now: real, files: set<string>)
      returns (found: bool, files': set<string>)
      requires session.Valid()
      modifies session`users, session`auditLog
      ensures session.Valid()
      ensures found <==> userId in old(session.users)
      ensures Store(session.users, files', session.auditLog) ==
        var before := Store(old(session.users), files, old(session.auditLog));
        if found then DeletedUser(before, userId, archive, archiveRoot, stamp, now) else before
    {
      if userId !in session.users {
        return false, files;
      }
      var user := session.users[userId];
      var archivePath := if archive then Some(ArchiveDir(archiveRoot, userId, stamp)) else None;
      var samples := user.samples;
      files' := files;
      if archive {
        samples, files' := ArchiveFaceImages(samples, files, archivePath.value, now);
      }
      var archived := Archive(user.(samples := samples), now);
      session.users := session.users[userId := archived];
      session.LogDeletion(userId, Some(DeletionDetails(archivePath, |user.samples|, now)));
      found := true;
    }

    /** The body of the loop of restore_users for one id. */
    method RestoreOne(userId: int, now: real, files: set<string>)
      returns (found: bool, files': set<string>)
      requires session.Valid()
      modifies session`users, session`auditLog
      ensures session.Valid()
      ensures found <==> userId in old(session.users)
      ensures Store(session.users, files', session.auditLog) ==
        var before := Store(old(session.users), files, old(session.auditLog));
        if found then RestoredUser(before, userId, now) else before
    {
      if userId !in session.users {
        return false, files;
      }
      var user := session.users[userId];
      var samples;
      samples, files' := RestoreFaceImages(user.samples, files);
      session.users := session.users[userId := user.(samples := samples).Restored()];
      session.LogRestoration(userId, Some(RestorationDetails(now, |user.samples|)));
      found := true;
    }

    /** The loop of delete_users over the ids in order, with the archive
        timestamp `stamp` and the clock reading `now`: the users table, the
        files and the audit log end as DeleteAll describes; each unknown id
        yields one error entry and the others count as successes. */
    method DeleteEach(userIds: seq<int>, archive: bool, stamp: string, now: real, files: set<string>)
      returns (res: Outcome, files': set<string>)
      requires session.Valid()
      modifies session`users, session`auditLog
      ensures session.Valid()
      ensures Store(session.users, files', session.auditLog) ==
        DeleteAll(Store(old(session.users), files, old(session.auditLog)), userIds, archive, archiveRoot, stamp, now)
      ensures res.successCount + res.errorCount == |userIds|
      ensures res.successCount == |Found(userIds, old(session.users).Keys)|
      ensures res.errors == NotFound(userIds, old(session.users).Keys) && res.errorCount == |res.errors|
    {
      ghost var start := Store(session.users, files, session.auditLog);
      ghost var known := session.users.Keys;
      var successCount, errorCount, errors := 0, 0, [];
      files' := files;
      for i := 0 to |userIds|
        invariant session.Valid() && session.users.Keys == known
        invariant Store(session.users, files', session.auditLog) == DeleteAll(start, userIds[..i], archive, archiveRoot, stamp, now)
        invariant successCount + errorCount == i && errorCount == |errors|
        invariant successCount == |Found(userIds[..i], known)|
        invariant errors == NotFound(userIds[..i], known)
      {
        DeletePrefixStep(start, userIds, i, archive, archiveRoot, stamp, now);
        CountPrefixStep(userIds, i, known);
        var found;
        found, files' := DeleteOne(userIds[i], archive, stamp, now, files');
        if found {
          successCount := successCount + 1;
        } else {
          errorCount := errorCount + 1;
          errors := errors + [ErrorEntry(userIds[i], UserNotFound(userIds[i]))];
        }
      }
      assert userIds[..|userIds|] == userIds;
      res := Outcome(successCount, errorCount, errors);
    }

    /** delete_users: the loop over the ids, then one commit exactly when
        some user was deleted. */
    method DeleteUsers(userIds: seq<int>, archive: bool, stamp: string, now: real, files: set<string>)
      returns (res: Outcome, files': set<string>)
      requires session.Valid()
      modifies session
      ensures session.Valid()
      ensures Store(session.users, files', session.auditLog) ==
        DeleteAll(Store(old(session.users), files, old(session.auditLog)), userIds, archive, archiveRoot, stamp, now)
      ensures session.userOrder == old(session.userOrder) && session.attendance == old(session.attendance)
      ensures res.successCount + res.errorCount == |userIds|
      ensures res.successCount == |Found(userIds, old(session.users).Keys)|
      ensures res.errors == NotFound(userIds, old(session.users).Keys) && res.errorCount == |res.errors|
      ensures session.commits == old(session.commits) + (if res.successCount > 0 then 1 else 0)
    {
      res, files' := DeleteEach(userIds, archive, stamp, now, files);
      if res.successCount > 0 {
        session.Commit();
      }
    }

    /** The loop of restore_users over the ids in order, with the clock
        reading `now`: as for deletion, with RestoreAll for the store. */
    method RestoreEach(userIds: seq<int>, now: real, files: set<string>)
      returns (res: Outcome, files': set<string>)
      requires session.Valid()
      modifies session`users, session`auditLog
      ensures session.Valid()
      ensures Store(session.users, files', session.auditLog) ==
        RestoreAll(Store(old(session.users), files, old(session.auditLog)), userIds, now)
      ensures res.successCount + res.errorCount == |userIds|
      ensures res.successCount == |Found(userIds, old(session.users).Keys)|
      ensures res.errors == NotFound(userIds, old(session.users).Keys) && res.errorCount == |res.errors|
    {
      ghost var start := Store(session.users, files, session.auditLog);
      ghost var known := session.users.Keys;
      var successCount, errorCount, errors := 0, 0, [];
      files' := files;
      for i := 0 to |userIds|
        invariant session.Valid() && session.users.Keys == known
        invariant Store(session.users, files', session.auditLog) == RestoreAll(start, userIds[..i], now)
        invariant successCount + errorCount == i && errorCount == |errors|
        invariant successCount == |Found(userIds[..i], known)|
        invariant errors == NotFound(userIds[..i], known)
      {
        RestorePrefixStep(start, userIds, i, now);
        CountPrefixStep(userIds, i, known);
        var found;
        found, files' := RestoreOne(userIds[i], now, files');
        if found {
          successCount := successCount + 1;
        } else {
          errorCount := errorCount + 1;
          errors := errors + [ErrorEntry(userIds[i], UserNotFound(userIds[i]))];
        }
      }
      assert userIds[..|userIds|] == userIds;
      res := Outcome(successCount, errorCount, errors);
    }

    /** restore_users: the loop over the ids, then one commit exactly when
        some user was restored. */
    method RestoreUsers(userIds: seq<int>, now: real, files: set<string>)
      returns (res: Outcome, files': set<string>)
      requires session.Valid()
      modifies session
      ensures session.Valid()
      ensures Store(session.users, files', session.auditLog) ==
        RestoreAll(Store(old(session.users), files, old(session.auditLog)), userIds, now)
      ensures session.userOrder == old(session.userOrder) && session.attendance == old(session.attendance)
      ensures res.successCount + res.errorCount == |userIds|
      ensures res.successCount == |Found(userIds, old(session.users).Keys)|
      ensures res.errors == NotFound(userIds, old(session.users).Keys) && res.errorCount == |res.errors|
      ensures session.commits == old(session.commits) + (if res.successCount > 0 then 1 else 0)
    {
      res, files' := RestoreEach(userIds, now, files);
      if res.successCount > 0 {
        session.Commit();
      }
    }
  }
}
