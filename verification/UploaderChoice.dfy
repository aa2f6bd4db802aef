/** Which save a cycle of the uploader takes, locked or not, and how a fresh uploader gets to its campaign. */
module UploaderChoice {
  import opened Basics
  import opened SaveDiscovery
  import opened SaveUploader

  /** One of the newest of the candidates that are wanted. */
  ghost predicate Newest(candidates: seq<Candidate>, wanted: Candidate -> bool, c: Candidate) {
    && c in candidates && wanted(c)
    && forall d | d in candidates && wanted(d) :: d.mtime <= c.mtime
  }

  ghost predicate Any(candidates: seq<Candidate>, wanted: Candidate -> bool) {
    exists c :: c in candidates && wanted(c)
  }

  function Anywhere(): Candidate -> bool {
    (c: Candidate) => true
  }

  /** Saves of other directories that are newer than the last upload. */
  function ElsewhereSince(directory: Path, mtime: int): Candidate -> bool {
    (c: Candidate) => c.directory != directory && c.mtime > mtime
  }

  /** Saves of the locked directory that are not older than the last upload. */
  function HereSince(directory: Path, mtime: int): Candidate -> bool {
    (c: Candidate) => c.directory == directory && !(c.mtime < mtime)
  }

  /** What becomes of the save that a cycle takes: its directory is locked first, and it is uploaded if it is new. */
  predicate Takes(p: Progress, c: Candidate, digest: Candidate -> Digest, w: World, q: Progress, outcome: Outcome) {
    var known := c.mtime == p.lastMtime && p.lastDigest.Some? && p.lastDigest.value == digest(c);
    if w.parses && !known && w.uploads then
      outcome == Uploaded(c) && q == Progress(Some(c.directory), c.mtime, Some(digest(c)))
    else
      && outcome == (if w.parses && known then Nothing else Failed)
      && q == Progress(Some(c.directory), p.lastMtime, p.lastDigest)
  }

  lemma {:induction false} FirstIsNewestWanted(candidates: seq<Candidate>, wanted: Candidate -> bool, c: Candidate)
    requires NewestFirst(candidates) && First(candidates, wanted) == Some(c)
    ensures Newest(candidates, wanted, c)
  {
    var first, rest := candidates[0], candidates[1..];
    if !wanted(first) {
      assert forall i, j | 0 <= i < j < |rest| :: rest[i] == candidates[i + 1] && rest[j] == candidates[j + 1];
      FirstIsNewestWanted(rest, wanted, c);
    } else {
      forall d | d in candidates ensures d.mtime <= first.mtime {
        var i :| 0 <= i < |candidates| && candidates[i] == d;
      }
    }
  }

  lemma FirstDependsOnWanted(candidates: seq<Candidate>, a: Candidate -> bool, b: Candidate -> bool)
    requires forall c :: a(c) == b(c)
    ensures First(candidates, a) == First(candidates, b)
  {
  }

  // ---------------------------------------------------------------------------------------------
  // Without a campaign

  /**
   * An uploader without a campaign takes the newest save of all, exactly when it may begin with what it finds and
   * that save is young enough; and otherwise nothing happens.
   */
  lemma FirstCycleIff(p: Progress, candidates: seq<Candidate>, digest: Candidate -> Digest, w: World)
    requires p.locked.None? && NewestFirst(candidates)
    ensures var (q, outcome) := Cycled(p, candidates, digest, w);
            && (q.locked.Some?
                <==> w.bootstrapLatest && exists c :: c in candidates && w.clock - c.mtime <= w.maximumAge)
            && (q.locked.Some? ==> exists c :: Newest(candidates, Anywhere(), c) && Takes(p, c, digest, w, q, outcome))
            && (q.locked.None? ==> q == p && outcome == Nothing)
  {
    if candidates != [] {
      var first := candidates[0];
      forall c | c in candidates ensures c.mtime <= first.mtime {
        var i :| 0 <= i < |candidates| && candidates[i] == c;
      }
      assert Newest(candidates, Anywhere(), first);
      var (q, outcome) := Cycled(p, candidates, digest, w);
      assert q.locked.Some? ==> Takes(p, first, digest, w, q, outcome);
    }
  }

  // ---------------------------------------------------------------------------------------------
  // With a campaign

  /**
   * A locked uploader takes the newest save of another directory that is newer than its last upload; without one the
   * newest of its own directory that is not older; and without any of these nothing happens.
   */
  lemma LockedCycleTakes(p: Progress, candidates: seq<Candidate>, digest: Candidate -> Digest, w: World)
    requires p.locked.Some? && NewestFirst(candidates)
    ensures var (q, outcome) := Cycled(p, candidates, digest, w);
            var elsewhere := ElsewhereSince(p.locked.value, p.lastMtime);
            var here := HereSince(p.locked.value, p.lastMtime);
            if Any(candidates, elsewhere) then
              exists c :: Newest(candidates, elsewhere, c) && Takes(p, c, digest, w, q, outcome)
            else if Any(candidates, here) then
              exists c :: Newest(candidates, here, c) && Takes(p, c, digest, w, q, outcome)
            else q == p && outcome == Nothing
  {
    hide First;
    var elsewhere, here := ElsewhereSince(p.locked.value, p.lastMtime), HereSince(p.locked.value, p.lastMtime);
    FirstDependsOnWanted(candidates, NewerElsewhere(p), elsewhere);
    FirstDependsOnWanted(candidates, CurrentHere(p), here);
    var chosen := EligibleCandidate(p, candidates, w);
    if chosen.Some? {
      var (q, outcome) := Cycled(p, candidates, digest, w);
      assert Takes(p, chosen.value, digest, w, q, outcome);
      FirstIsNewestWanted(candidates, if Any(candidates, elsewhere) then elsewhere else here, chosen.value);
    }
  }

  // ---------------------------------------------------------------------------------------------
  // From nothing to rest

  /** As long as an uploader may not begin with what it finds, it stays without a campaign and uploads nothing. */
  lemma {:induction false} NeverBegins(p: Progress, turns: seq<Turn>)
    requires p.locked.None? && forall i | 0 <= i < |turns| :: !turns[i].world.bootstrapLatest
    ensures RunTurns(p, turns) == p
    decreases |turns|
  {
    if turns != [] {
      NeverBegins(p, turns[..|turns| - 1]);
    }
  }

  lemma PassSights(
    p: Progress, observed: map<Path, Sighting>, files: seq<FileStat>, patience: int, digest: Candidate -> Digest,
    pass: Pass, t: int)
    requires Sighted(observed, files, t)
    ensures Sighted(Passed(p, observed, files, patience, digest, pass).1, files, t)
  {
    NothingNew(observed, files, pass.now, t);
    RememberedIsSighted(observed, files, pass.now, t);
  }

  lemma {:induction false} PassesSight(
    p: Progress, observed: map<Path, Sighting>, files: seq<FileStat>, patience: int, digest: Candidate -> Digest,
    passes: seq<Pass>, t: int)
    requires Sighted(observed, files, t)
    ensures Sighted(RunPasses(p, observed, files, patience, digest, passes).1, files, t)
    decreases |passes|
  {
    if passes != [] {
      PassSights(p, observed, files, patience, digest, passes[0], t);
      var (q, seen) := Passed(p, observed, files, patience, digest, passes[0]);
      PassesSight(q, seen, files, patience, digest, passes[1..], t);
    }
  }

  /** The uploader may begin, and some file of the tree is young enough for it. */
  predicate MayBegin(w: World, files: seq<FileStat>) {
    w.bootstrapLatest && exists f :: f in files && w.clock - f.mtime <= w.maximumAge
  }

  /** Behind the patience the first pass gives a fresh uploader the campaign of a newest save of the tree. */
  lemma FirstPassLocks(
    p: Progress, observed: map<Path, Sighting>, files: seq<FileStat>, patience: int, digest: Candidate -> Digest,
    pass: Pass, t: int)
    requires p.locked.None? && Sighted(observed, files, t) && pass.now - t >= patience && MayBegin(pass.world, files)
    ensures Passed(p, observed, files, patience, digest, pass).0.locked.Some?
    ensures exists c :: Newest(Tree(files), Anywhere(), c)
              && Passed(p, observed, files, patience, digest, pass).0.locked == Some(c.directory)
  {
    AllSettle(observed, files, pass.now, patience, t);
    TreeIsSorted(files);
    FirstCycleIff(p, Tree(files), digest, pass.world);
    var f :| f in files && pass.world.clock - f.mtime <= pass.world.maximumAge;
    assert CandidateOf(f) in Tree(files) && CandidateOf(f).mtime == f.mtime;
  }

  /** From whatever state, a locked uploader among sighted files comes to rest. */
  lemma SightedComesToRest(
    p: Progress, observed: map<Path, Sighting>, files: seq<FileStat>, patience: int, digest: Candidate -> Digest,
    passes: seq<Pass>, t: int)
    requires p.locked.Some? && Sighted(observed, files, t) && AllSettled(passes, t, patience) && |passes| > 2 * |files|
    ensures var q := RunPasses(p, observed, files, patience, digest, passes).0;
            && q.locked.Some? && AtRest(q, Tree(files), digest)
            && forall f | f in files :: f.mtime <= q.lastMtime
  {
    MeasureIsBounded(p, files, digest);
    MeasureFalls(p, observed, files, patience, digest, passes, t, 2 * |files| + 1);
    AtRestInTree(RunPasses(p, observed, files, patience, digest, passes).0, files, digest);
  }

  /**
   * An uploader that has no campaign yet, over a tree that stops changing: if it may begin with what it finds when the
   * patience is over, at most two working passes for every file and two more bring it to rest, in whatever way it
   * was locked before, and nothing in the tree is newer than its last upload.
   */
  lemma FreshComesToRest(
    p: Progress, observed: map<Path, Sighting>, files: seq<FileStat>, patience: int, digest: Candidate -> Digest,
    wait: seq<Pass>, passes: seq<Pass>)
    requires Consistent(files) && wait != [] && SeenBy(observed, wait[0].now)
    requires AllSettled(passes, wait[0].now, patience) && |passes| > 2 * |files| + 1
    requires MayBegin(passes[0].world, files)
    ensures var q := RunPasses(p, observed, files, patience, digest, wait + passes).0;
            && q.locked.Some? && AtRest(q, Tree(files), digest)
            && forall f | f in files :: f.mtime <= q.lastMtime
  {
    hide Sighted, SeenBy, Consistent, Passed, MayBegin, AtRest, Tree, Remembered;
    var t := wait[0].now;
    WaitSights(p, observed, files, patience, digest, wait);
    var (p2, seen2) := RunPasses(p, observed, files, patience, digest, wait);
    RunPassesConcat(p, observed, files, patience, digest, wait, passes);
    if p2.locked.Some? {
      SightedComesToRest(p2, seen2, files, patience, digest, passes, t);
    } else {
      FirstPassLocks(p2, seen2, files, patience, digest, passes[0], t);
      PassSights(p2, seen2, files, patience, digest, passes[0], t);
      var (p3, seen3) := Passed(p2, seen2, files, patience, digest, passes[0]);
      assert forall i | 0 <= i < |passes[1..]| :: passes[1..][i] == passes[i + 1];
      SightedComesToRest(p3, seen3, files, patience, digest, passes[1..], t);
    }
  }

  /** Whatever the uploader does meanwhile, from the first pass over the tree on every file is sighted. */
  lemma WaitSights(
    p: Progress, observed: map<Path, Sighting>, files: seq<FileStat>, patience: int, digest: Candidate -> Digest,
    wait: seq<Pass>)
    requires Consistent(files) && wait != [] && SeenBy(observed, wait[0].now)
    ensures Sighted(RunPasses(p, observed, files, patience, digest, wait).1, files, wait[0].now)
  {
    var t := wait[0].now;
    FirstWalkSights(observed, files, t);
    RememberedIsSighted(observed, files, t, t);
    var (p1, seen1) := Passed(p, observed, files, patience, digest, wait[0]);
    PassesSight(p1, seen1, files, patience, digest, wait[1..], t);
  }
}
