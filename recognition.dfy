/** Face recognition against the registered database, and the facial
    feature boxes derived from the five landmarks.

    The probe is compared, entry by entry in database order, scale by scale
    and reference by reference, with every stored front embedding; the
    cosine similarity of the scaled probe with a reference is a parameter,
    and the model keeps the distance-aware weighting, the early acceptance
    above 0.8, the running best (strictly greater only, so earlier
    candidates win ties) and the final threshold. */
module Recognition {
  import opened Common
  import opened FaceEntries

  /** The configured scales and acceptance threshold. */
  const RecognitionScales: seq<real> := [1.0, 0.75, 1.25]
  const RecognitionThreshold: real := 0.45
  /** A similarity above this is accepted at once. */
  const EarlyAccept: real := 0.8

  /** A name with its similarity. */
  type Candidate = (string, real)

  /** The similarity at `scale`, weighted up by at most 20 % the closer the
      scale is to 1. */
  function Weighted(similarity: real, scale: real): real
  {
    similarity * (1.0 + 0.2 * (1.0 - RAbs(1.0 - scale)))
  }

  /** The candidates one entry yields at one scale, one per reference that
      is not None, in order. */
  function RefCandidates(name: string, probe: Embedding, scale: real, refs: seq<Reference>,
                         cosine: (Embedding, real, Embedding) -> real): (cs: seq<Candidate>)
    ensures |cs| <= |refs|
    ensures forall k :: 0 <= k < |cs| ==> cs[k].0 == name
    ensures (forall k :: 0 <= k < |refs| ==> refs[k].None?) ==> cs == []
  {
    if refs == [] then []
    else
      RefCandidates(name, probe, scale, refs[..|refs| - 1], cosine) +
      (match refs[|refs| - 1]
       case None => []
       case Some(r) => [(name, Weighted(cosine(probe, scale, r), scale))])
  }

  /** The candidates one entry yields over all scales, scale by scale. */
  function ScaleCandidates(name: string, probe: Embedding, scales: seq<real>, refs: seq<Reference>,
                           cosine: (Embedding, real, Embedding) -> real): seq<Candidate>
  {
    if scales == [] then []
    else
      ScaleCandidates(name, probe, scales[..|scales| - 1], refs, cosine) +
      RefCandidates(name, probe, scales[|scales| - 1], refs, cosine)
  }

  /** Every candidate the database yields, in the order the search meets
      them. Only an entry's front embeddings take part. */
  function Candidates(db: seq<(string, Poses)>, probe: Embedding, scales: seq<real>,
                      cosine: (Embedding, real, Embedding) -> real): seq<Candidate>
  {
    if db == [] then []
    else
      Candidates(db[..|db| - 1], probe, scales, cosine) +
      ScaleCandidates(db[|db| - 1].0, probe, scales, db[|db| - 1].1.front, cosine)
  }

  /** The state of the search: still looking, with the best so far, or done
      with an early match. */
  datatype Search = Searching(best: Candidate) | Found(hit: Candidate)

  /** One comparison of the search. */
  function Step(s: Search, c: Candidate): Search
  {
    if s.Found? then s
    else if c.1 > EarlyAccept then Found(c)
    else if c.1 > s.best.1 then Searching(c)
    else s
  }

  /** The search over a list of candidates, resumed from state `s`. */
  function Resume(s: Search, cs: seq<Candidate>): Search
  {
    if cs == [] then s
    else Step(Resume(s, cs[..|cs| - 1]), cs[|cs| - 1])
  }

  /** The search from ("Unknown", 0.0). */
  function Run(cs: seq<Candidate>): Search
  {
    Resume(Searching(("Unknown", 0.0)), cs)
  }

  /** The search ends early exactly when some candidate is above 0.8, and
      then with the first such. */
  lemma {:induction false} RunEarly(cs: seq<Candidate>)
    ensures Run(cs).Found? <==> exists i :: 0 <= i < |cs| && cs[i].1 > EarlyAccept
    ensures Run(cs).Found? ==> exists i :: 0 <= i < |cs| && Run(cs).hit == cs[i] && cs[i].1 > EarlyAccept &&
                                 forall k :: 0 <= k < i ==> cs[k].1 <= EarlyAccept
  {
    if cs != [] {
      var p := cs[..|cs| - 1];
      var c := cs[|cs| - 1];
      assert cs == p + [c];
      RunEarly(p);
      var r := Run(p);
      assert Run(cs) == Step(r, c);
      assert forall k :: 0 <= k < |cs| - 1 ==> cs[k] == p[k];
      if r.Found? {
        var i :| 0 <= i < |p| && r.hit == p[i] && p[i].1 > EarlyAccept && forall k :: 0 <= k < i ==> p[k].1 <= EarlyAccept;
        assert cs[i] == p[i];
      }
    }
  }

  /** A search that does not end early keeps a best no smaller than any
      candidate, which is either the starting ("Unknown", 0.0) or the first
      candidate with the greatest similarity. */
  lemma {:induction false} RunBest(cs: seq<Candidate>)
    ensures Run(cs).Searching? ==> 0.0 <= Run(cs).best.1 && forall k :: 0 <= k < |cs| ==> cs[k].1 <= Run(cs).best.1
    ensures Run(cs).Searching? ==>
      || Run(cs).best == ("Unknown", 0.0)
      || exists i :: 0 <= i < |cs| && Run(cs).best == cs[i] && forall k :: 0 <= k < i ==> cs[k].1 < cs[i].1
  {
    if cs != [] {
      var p := cs[..|cs| - 1];
      var c := cs[|cs| - 1];
      assert cs == p + [c];
      RunBest(p);
      var r := Run(p);
      assert Run(cs) == Step(r, c);
      if r.Searching? && c.1 <= EarlyAccept {
        assert forall k :: 0 <= k < |cs| - 1 ==> cs[k] == p[k];
        if c.1 <= r.best.1 && r.best != ("Unknown", 0.0) {
          var i :| 0 <= i < |p| && r.best == p[i] && forall k :: 0 <= k < i ==> p[k].1 < p[i].1;
          assert cs[i] == p[i];
        }
      }
    }
  }

  /** Searching in two runs is searching once. */
  lemma {:induction false} ResumeConcat(s: Search, a: seq<Candidate>, b: seq<Candidate>)
    ensures Resume(s, a + b) == Resume(Resume(s, a), b)
    decreases |b|
  {
    if b == [] {
      assert a + b == a;
    } else {
      var b' := b[..|b| - 1];
      assert (a + b)[..|a + b| - 1] == a + b';
      ResumeConcat(s, a, b');
    }
  }

  /** Once the search has ended early, further candidates change nothing. */
  lemma {:induction false} FoundStays(c: Candidate, cs: seq<Candidate>)
    ensures Resume(Found(c), cs) == Found(c)
    decreases |cs|
  {
    if cs != [] {
      FoundStays(c, cs[..|cs| - 1]);
    }
  }

  /** An early end on a prefix of the candidates is the end of the whole
      search. */
  lemma FoundPrefix(s: Search, a: seq<Candidate>, x: seq<Candidate>)
    requires a <= x && Resume(s, a).Found?
    ensures Resume(s, x) == Resume(s, a)
  {
    assert x == a + x[|a|..];
    ResumeConcat(s, a, x[|a|..]);
    FoundStays(Resume(s, a).hit, x[|a|..]);
  }


  /** The answer the search gives: an early match as it is; otherwise the
      best when it reaches the threshold, else "Unknown" with the best's
      similarity still reported. */
  function Decide(s: Search, threshold: real): (r: Candidate)
    ensures s.Found? ==> r == s.hit
    ensures s.Searching? ==> r.1 == s.best.1
    ensures s.Searching? && s.best.1 < threshold ==> r.0 == "Unknown"
    ensures s.Searching? && s.best.1 >= threshold ==> r == s.best
  {
    match s
    case Found(c) => c
    case Searching(b) => if b.1 >= threshold then b else ("Unknown", b.1)
  }

  /** recognize_face as a function of the database, the probe, the
      configuration and the similarity. */
  function Recognized(db: seq<(string, Poses)>, probe: Embedding, scales: seq<real>, threshold: real,
                      cosine: (Embedding, real, Embedding) -> real): Candidate
  {
    if db == [] then ("Unknown", 0.0)
    else Decide(Run(Candidates(db, probe, scales, cosine)), threshold)
  }

  /** The decision rule: an empty database gives ("Unknown", 0.0); a
      candidate above 0.8 wins when it is the first such; otherwise the
      first greatest candidate is reported, named only when it reaches the
      threshold. */
  lemma RecognizedSpec(db: seq<(string, Poses)>, probe: Embedding, scales: seq<real>, threshold: real,
                       cosine: (Embedding, real, Embedding) -> real)
    ensures db == [] ==> Recognized(db, probe, scales, threshold, cosine) == ("Unknown", 0.0)
    ensures var cs := Candidates(db, probe, scales, cosine);
      forall i :: 0 <= i < |cs| && cs[i].1 > EarlyAccept && (forall k :: 0 <= k < i ==> cs[k].1 <= EarlyAccept) ==>
        Recognized(db, probe, scales, threshold, cosine) == cs[i]
    ensures var cs := Candidates(db, probe, scales, cosine);
      var r := Recognized(db, probe, scales, threshold, cosine);
      (forall k :: 0 <= k < |cs| ==> cs[k].1 <= EarlyAccept) ==>
        && (forall k :: 0 <= k < |cs| ==> cs[k].1 <= r.1)
        && (r.1 < threshold ==> r.0 == "Unknown")
        && (r.1 >= threshold && r.1 > 0.0 ==> exists i :: 0 <= i < |cs| && r == cs[i] && forall k :: 0 <= k < i ==> cs[k].1 < r.1)
  {
    var cs := Candidates(db, probe, scales, cosine);
    RunEarly(cs);
    RunBest(cs);
    forall i | 0 <= i < |cs| && cs[i].1 > EarlyAccept && (forall k :: 0 <= k < i ==> cs[k].1 <= EarlyAccept)
      ensures Recognized(db, probe, scales, threshold, cosine) == cs[i]
    {
      assert db != [];
      var j :| 0 <= j < |cs| && Run(cs).hit == cs[j] && cs[j].1 > EarlyAccept && forall k :: 0 <= k < j ==> cs[k].1 <= EarlyAccept;
      assert !(j < i) && !(i < j);
    }
  }

  /** The stored side, tilted and turned-away embeddings play no part. */
  lemma {:induction false} OnlyFrontCounts(db: seq<(string, Poses)>, db': seq<(string, Poses)>, probe: Embedding,
                                           scales: seq<real>, cosine: (Embedding, real, Embedding) -> real)
    requires |db| == |db'|
    requires forall i :: 0 <= i < |db| ==> db[i].0 == db'[i].0 && db[i].1.front == db'[i].1.front
    ensures Candidates(db, probe, scales, cosine) == Candidates(db', probe, scales, cosine)
  {
    if db != [] {
      OnlyFrontCounts(db[..|db| - 1], db'[..|db'| - 1], probe, scales, cosine);
    }
  }

  /** Growing lists of candidates: a prefix of the inputs yields a prefix of
      the candidates. */
  lemma {:induction false} RefPrefix(name: string, probe: Embedding, scale: real, refs: seq<Reference>, k: nat,
                                     cosine: (Embedding, real, Embedding) -> real)
    requires k <= |refs|
    ensures RefCandidates(name, probe, scale, refs[..k], cosine) <= RefCandidates(name, probe, scale, refs, cosine)
    decreases |refs|
  {
    if k < |refs| {
      RefPrefix(name, probe, scale, refs[..|refs| - 1], k, cosine);
      assert refs[..|refs| - 1][..k] == refs[..k];
    } else {
      assert refs[..k] == refs;
    }
  }

  lemma {:induction false} ScalePrefix(name: string, probe: Embedding, scales: seq<real>, j: nat, refs: seq<Reference>,
                                       cosine: (Embedding, real, Embedding) -> real)
    requires j <= |scales|
    ensures ScaleCandidates(name, probe, scales[..j], refs, cosine) <= ScaleCandidates(name, probe, scales, refs, cosine)
    decreases |scales|
  {
    if j < |scales| {
      ScalePrefix(name, probe, scales[..|scales| - 1], j, refs, cosine);
      assert scales[..|scales| - 1][..j] == scales[..j];
    } else {
      assert scales[..j] == scales;
    }
  }

  lemma {:induction false} DbPrefix(db: seq<(string, Poses)>, i: nat, probe: Embedding, scales: seq<real>,
                                    cosine: (Embedding, real, Embedding) -> real)
    requires i <= |db|
    ensures Candidates(db[..i], probe, scales, cosine) <= Candidates(db, probe, scales, cosine)
    decreases |db|
  {
    if i < |db| {
      DbPrefix(db[..|db| - 1], i, probe, scales, cosine);
      assert db[..|db| - 1][..i] == db[..i];
    } else {
      assert db[..i] == db;
    }
  }

  /** One more input adds its candidates at the end. */
  lemma RefStep(name: string, probe: Embedding, scale: real, refs: seq<Reference>, k: nat,
                cosine: (Embedding, real, Embedding) -> real)
    requires k < |refs|
    ensures RefCandidates(name, probe, scale, refs[..k + 1], cosine) ==
      RefCandidates(name, probe, scale, refs[..k], cosine) +
      (match refs[k] case None => [] case Some(r) => [(name, Weighted(cosine(probe, scale, r), scale))])
  {
    assert refs[..k + 1][..k] == refs[..k];
  }

  lemma ScaleStep(name: string, probe: Embedding, scales: seq<real>, j: nat, refs: seq<Reference>,
                  cosine: (Embedding, real, Embedding) -> real)
    requires j < |scales|
    ensures ScaleCandidates(name, probe, scales[..j + 1], refs, cosine) ==
      ScaleCandidates(name, probe, scales[..j], refs, cosine) + RefCandidates(name, probe, scales[j], refs, cosine)
  {
    assert scales[..j + 1][..j] == scales[..j];
  }

  lemma DbStep(db: seq<(string, Poses)>, i: nat, probe: Embedding, scales: seq<real>,
               cosine: (Embedding, real, Embedding) -> real)
    requires i < |db|
    ensures Candidates(db[..i + 1], probe, scales, cosine) ==
      Candidates(db[..i], probe, scales, cosine) + ScaleCandidates(db[i].0, probe, scales, db[i].1.front, cosine)
  {
    assert db[..i + 1][..i] == db[..i];
  }

  /** One scale of one entry: the references in order, from the best so
      far; a similarity above 0.8 ends the search at once. */
  method SearchRefs(name: string, probe: Embedding, scale: real, refs: seq<Reference>,
                    cosine: (Embedding, real, Embedding) -> real, start: Candidate) returns (s: Search)
    ensures s == Resume(Searching(start), RefCandidates(name, probe, scale, refs, cosine))
  {
    var best := start;
    for k := 0 to |refs|
      invariant Resume(Searching(start), RefCandidates(name, probe, scale, refs[..k], cosine)) == Searching(best)
    {
      RefStep(name, probe, scale, refs, k, cosine);
      ghost var seen := RefCandidates(name, probe, scale, refs[..k], cosine);
      if refs[k].None? {
        assert seen + [] == seen;
        continue;
      }
      var similarity := Weighted(cosine(probe, scale, refs[k].value), scale);
      ResumeConcat(Searching(start), seen, [(name, similarity)]);
      assert [(name, similarity)][..0] == [];
      assert Resume(Searching(start), RefCandidates(name, probe, scale, refs[..k + 1], cosine))
          == Step(Searching(best), (name, similarity));
      if similarity > EarlyAccept {
        RefPrefix(name, probe, scale, refs, k + 1, cosine);
        FoundPrefix(Searching(start), seen + [(name, similarity)], RefCandidates(name, probe, scale, refs, cosine));
        return Found((name, similarity));
      }
      if similarity > best.1 {
        best := (name, similarity);
      }
    }
    assert refs[..|refs|] == refs;
    return Searching(best);
  }

  /** One entry: its front references at every scale in turn. */
  method SearchScales(name: string, probe: Embedding, scales: seq<real>, refs: seq<Reference>,
                      cosine: (Embedding, real, Embedding) -> real, start: Candidate) returns (s: Search)
    ensures s == Resume(Searching(start), ScaleCandidates(name, probe, scales, refs, cosine))
  {
    var best := start;
    for j := 0 to |scales|
      invariant Resume(Searching(start), ScaleCandidates(name, probe, scales[..j], refs, cosine)) == Searching(best)
    {
      var r := SearchRefs(name, probe, scales[j], refs, cosine, best);
      ScaleStep(name, probe, scales, j, refs, cosine);
      ResumeConcat(Searching(start), ScaleCandidates(name, probe, scales[..j], refs, cosine),
                   RefCandidates(name, probe, scales[j], refs, cosine));
      if r.Found? {
        ScalePrefix(name, probe, scales, j + 1, refs, cosine);
        FoundPrefix(Searching(start), ScaleCandidates(name, probe, scales[..j + 1], refs, cosine),
                    ScaleCandidates(name, probe, scales, refs, cosine));
        return r;
      }
      best := r.best;
    }
    assert scales[..|scales|] == scales;
    return Searching(best);
  }

  /** recognize_face with the configuration and the similarity as
      parameters: an empty database answers ("Unknown", 0.0); otherwise the
      entries are searched in order and the answer is the decision rule's. */
  method RecognizeFace(probe: Embedding, db: seq<(string, Poses)>, scales: seq<real>, threshold: real,
                       cosine: (Embedding, real, Embedding) -> real) returns (r: Candidate)
    ensures r == Recognized(db, probe, scales, threshold, cosine)
  {
    if db == [] {
      return ("Unknown", 0.0);
    }
    var best: Candidate := ("Unknown", 0.0);
    ghost var init := Searching(best);
    for i := 0 to |db|
      invariant Resume(init, Candidates(db[..i], probe, scales, cosine)) == Searching(best)
    {
      var s := SearchScales(db[i].0, probe, scales, db[i].1.front, cosine, best);
      DbStep(db, i, probe, scales, cosine);
      ResumeConcat(init, Candidates(db[..i], probe, scales, cosine),
                   ScaleCandidates(db[i].0, probe, scales, db[i].1.front, cosine));
      if s.Found? {
        DbPrefix(db, i + 1, probe, scales, cosine);
        FoundPrefix(init, Candidates(db[..i + 1], probe, scales, cosine), Candidates(db, probe, scales, cosine));
        return s.hit;
      }
      best := s.best;
    }
    assert db[..|db|] == db;
    r := if best.1 >= threshold then best else ("Unknown", best.1);
  }

  /** detect_facial_features' result: two eye boxes (right, then left) and
      a mouth box. */
  datatype Features = Features(eyes: seq<Box>, mouth: Box)

  /** A 30 by 20 box around an eye landmark. */
  function EyeBox(p: (int, int)): (b: Box)
    ensures b.w == 30 && b.h == 20
    ensures b.x + 15 == p.0 && b.y + 10 == p.1
  {
    Box(p.0 - 15, p.1 - 10, 30, 20)
  }

  /** The mouth box from the two mouth corners: centred on their integer
      midpoint, 1.5 times their horizontal distance wide (truncated) and 0.4
      times its width high (truncated). Both corners lie within its
      horizontal extent. */
  function MouthBox(right: (int, int), left: (int, int)): (b: Box)
    ensures b.w == (3 * Abs(right.0 - left.0)) / 2 && b.h == (2 * b.w) / 5
    ensures Abs(right.0 - left.0) <= b.w && 0 <= b.h <= b.w
    ensures b.x <= right.0 <= b.x + b.w && b.x <= left.0 <= b.x + b.w
  {
    var cx := FloorDiv(right.0 + left.0, 2);
    var cy := FloorDiv(right.1 + left.1, 2);
    var w := (3 * Abs(right.0 - left.0)) / 2;
    var h := (2 * w) / 5;
    Box(cx - w / 2, cy - h / 2, w, h)
  }

  /** detect_facial_features over the integer landmarks: no landmarks give
      nothing; fewer than five raise IndexError; otherwise the eye boxes of
      landmarks 0 and 1 and the mouth box of landmarks 3 and 4. */
  function DetectFacialFeatures(kps: Option<seq<(int, int)>>): (r: Result<Option<Features>>)
    ensures kps.None? ==> r == Ok(None)
    ensures kps.Some? && |kps.value| < 5 ==> r == Err(IndexError)
    ensures kps.Some? && |kps.value| >= 5 ==>
      && r.Ok? && r.value.Some?
      && r.value.value.eyes == [EyeBox(kps.value[0]), EyeBox(kps.value[1])]
      && r.value.value.mouth == MouthBox(kps.value[3], kps.value[4])
  {
    match kps
    case None => Ok(None)
    case Some(points) =>
      if |points| < 5 then Err(IndexError)
      else Ok(Some(Features([EyeBox(points[0]), EyeBox(points[1])], MouthBox(points[3], points[4]))))
  }
}
