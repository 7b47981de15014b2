/** A registered person's face data: embeddings captured in four poses, each
    pose holding at most a fixed number of them (5 front, 2 side, 4 tilted,
    5 turned away), and the conversion of the older one-embedding database
    format on load. Reading the pickle file is left to the caller: the load
    takes the stored entries, or nothing when the file is missing or
    unreadable. */
module FaceEntries {
  import opened Common

  /** An embedding vector as stored; a stored reference may be None. */
  type Embedding = seq<real>
  type Reference = Option<Embedding>

  datatype Pose = Front | Side | Tilt | Back

  /** The pose names add_embedding accepts; any other name raises KeyError. */
  function PoseNamed(name: string): (p: Option<Pose>)
    ensures p == Some(Front) <==> name == "front"
    ensures p == Some(Side) <==> name == "side"
    ensures p == Some(Tilt) <==> name == "tilt"
    ensures p == Some(Back) <==> name == "back"
  {
    if name == "front" then Some(Front)
    else if name == "side" then Some(Side)
    else if name == "tilt" then Some(Tilt)
    else if name == "back" then Some(Back)
    else None
  }

  /** The most embeddings a pose holds, which is also the count a complete
      registration needs. */
  function Cap(p: Pose): (n: nat)
    ensures 2 <= n <= 5
  {
    match p
    case Front => 5
    case Side => 2
    case Tilt => 4
    case Back => 5
  }

  /** The embeddings of one entry, pose by pose. */
  datatype Poses = Poses(front: seq<Reference>, side: seq<Reference>, tilt: seq<Reference>, back: seq<Reference>)

  function Of(ps: Poses, p: Pose): seq<Reference>
  {
    match p
    case Front => ps.front
    case Side => ps.side
    case Tilt => ps.tilt
    case Back => ps.back
  }

  /** No pose holds more than its cap. */
  predicate WithinCaps(ps: Poses)
  {
    forall p: Pose :: |Of(ps, p)| <= Cap(p)
  }

  /** Every pose holds exactly its cap. */
  predicate Complete(ps: Poses)
  {
    forall p: Pose :: |Of(ps, p)| == Cap(p)
  }

  function Total(ps: Poses): nat
  {
    |ps.front| + |ps.side| + |ps.tilt| + |ps.back|
  }

  const NoPoses := Poses([], [], [], [])

  /** A pose list below its cap takes the embedding at its end and the
      answer is true; a full one refuses it. Other poses are untouched. */
  function Added(ps: Poses, p: Pose, e: Reference): (r: (Poses, bool))
    ensures r.1 <==> |Of(ps, p)| < Cap(p)
    ensures r.1 ==> Of(r.0, p) == Of(ps, p) + [e]
    ensures !r.1 ==> r.0 == ps
    ensures forall q: Pose :: q != p ==> Of(r.0, q) == Of(ps, q)
  {
    if |Of(ps, p)| < Cap(p) then
      (match p
       case Front => ps.(front := ps.front + [e])
       case Side => ps.(side := ps.side + [e])
       case Tilt => ps.(tilt := ps.tilt + [e])
       case Back => ps.(back := ps.back + [e]),
       true)
    else (ps, false)
  }

  /** Adding never breaks the caps. */
  lemma AddedKeepsCaps(ps: Poses, p: Pose, e: Reference)
    requires WithinCaps(ps)
    ensures WithinCaps(Added(ps, p, e).0)
    ensures Total(Added(ps, p, e).0) == Total(ps) + (if Added(ps, p, e).1 then 1 else 0)
  {
    var r := Added(ps, p, e).0;
    forall q: Pose
      ensures |Of(r, q)| <= Cap(q)
    {
      if q == p {
        assert |Of(ps, q)| <= Cap(q);
      }
    }
  }

  /** Completeness pose by pose. */
  lemma CompleteAsCounts(ps: Poses)
    ensures Complete(ps) <==> |ps.front| == 5 && |ps.side| == 2 && |ps.tilt| == 4 && |ps.back| == 5
  {
    if Complete(ps) {
      assert |Of(ps, Front)| == Cap(Front) && |Of(ps, Side)| == Cap(Side);
      assert |Of(ps, Tilt)| == Cap(Tilt) && |Of(ps, Back)| == Cap(Back);
    }
  }

  /** Within the caps, an entry is complete exactly when it holds 16
      embeddings. */
  lemma CompleteIffSixteen(ps: Poses)
    requires WithinCaps(ps)
    ensures Complete(ps) <==> Total(ps) == 16
  {
    assert |Of(ps, Front)| <= 5 && |Of(ps, Side)| <= 2 && |Of(ps, Tilt)| <= 4 && |Of(ps, Back)| <= 5;
    if Total(ps) == 16 {
      forall q: Pose
        ensures |Of(ps, q)| == Cap(q)
      {
      }
    }
  }

  /** The source's FaceEntry. */
  class FaceEntry {
    var embeddings: Poses
    /** The wall-clock time of creation. */
    const registeredAt: real

    ghost predicate Valid()
      reads this
    {
      WithinCaps(embeddings)
    }

    /** A new entry holds no embedding in any pose. */
    constructor (now: real)
      ensures Valid()
      ensures embeddings == NoPoses && registeredAt == now
      ensures forall p: Pose :: Of(embeddings, p) == []
    {
      embeddings := NoPoses;
      registeredAt := now;
    }

    /** add_embedding: an unknown pose name raises KeyError and changes
        nothing; otherwise the embedding is appended and the answer is true
        exactly when that pose was below its cap, and a full pose refuses
        it and the entry is unchanged. */
    method AddEmbedding(poseType: string, e: Reference) returns (r: Result<bool>)
      requires Valid()
      modifies this`embeddings
      ensures Valid()
      ensures PoseNamed(poseType).None? ==> r == Err(KeyError) && embeddings == old(embeddings)
      ensures PoseNamed(poseType).Some? ==>
        var p := PoseNamed(poseType).value;
        && r.Ok?
        && (r.value <==> |Of(old(embeddings), p)| < Cap(p))
        && (r.value ==> Of(embeddings, p) == Of(old(embeddings), p) + [e])
        && (!r.value ==> embeddings == old(embeddings))
        && (forall q: Pose :: q != p ==> Of(embeddings, q) == Of(old(embeddings), q))
    {
      var p := PoseNamed(poseType);
      if p.None? {
        return Err(KeyError);
      }
      AddedKeepsCaps(embeddings, p.value, e);
      var added := Added(embeddings, p.value, e);
      embeddings := added.0;
      return Ok(added.1);
    }

    /** is_complete: every pose holds its required count; within the caps
        that is 16 embeddings in all. */
    function IsComplete(): (complete: bool)
      requires Valid()
      reads this
      ensures complete <==> forall p: Pose :: |Of(embeddings, p)| == Cap(p)
      ensures complete <==> Total(embeddings) == 16
    {
      CompleteIffSixteen(embeddings);
      CompleteAsCounts(embeddings);
      |embeddings.front| == 5 && |embeddings.side| == 2 && |embeddings.tilt| == 4 && |embeddings.back| == 5
    }
  }

  /** A pickled database entry: the older format is one bare embedding, the
      current one a FaceEntry. */
  datatype Stored = Single(embedding: Embedding) | Registered(entry: Poses)

  /** The entry an item becomes on load: a bare embedding becomes a new
      entry holding it as its only front embedding; an entry stays as it is. */
  function Converted(s: Stored): (ps: Poses)
    ensures s.Single? ==> ps.front == [Some(s.embedding)] && ps.side == [] && ps.tilt == [] && ps.back == []
    ensures s.Single? ==> WithinCaps(ps) && !Complete(ps)
    ensures s.Registered? ==> ps == s.entry
  {
    match s
    case Single(e) =>
      var ps := NoPoses.(front := [Some(e)]);
      assert |Of(ps, Side)| != Cap(Side);
      ps
    case Registered(entry) => entry
  }

  /** load_face_database over the stored items in dictionary order: nothing
      stored (or nothing readable) gives the empty database; otherwise each
      name keeps its place and its entry is converted. */
  method LoadFaceDatabase(stored: Option<seq<(string, Stored)>>, now: real) returns (db: seq<(string, Poses)>)
    ensures stored.None? ==> db == []
    ensures stored.Some? ==> |db| == |stored.value|
    ensures stored.Some? ==> forall i :: 0 <= i < |db| ==>
      db[i].0 == stored.value[i].0 && db[i].1 == Converted(stored.value[i].1)
  {
    db := [];
    if stored.None? {
      return;
    }
    var items := stored.value;
    for i := 0 to |items|
      invariant |db| == i
      invariant forall k :: 0 <= k < i ==> db[k].0 == items[k].0 && db[k].1 == Converted(items[k].1)
    {
      var (name, data) := items[i];
      var entry := Convert(data, now);
      db := db + [(name, entry)];
    }
  }

  /** The conversion of one loaded item: a bare embedding is appended
      straight to a new entry's front list, bypassing add_embedding; an entry
      is kept. */
  method Convert(data: Stored, now: real) returns (ps: Poses)
    ensures ps == Converted(data)
  {
    match data {
      case Single(e) =>
        var entry := new FaceEntry(now);
        entry.embeddings := entry.embeddings.(front := entry.embeddings.front + [Some(e)]);
        ps := entry.embeddings;
      case Registered(entry) =>
        ps := entry;
    }
  }
}
