/** Which save the uploader sends, and why it comes to rest. */
module SaveUploader {
  import opened Basics
  import opened SaveDiscovery
  import opened StableSort

  type Digest = string

  /** The part of the persistent state that decides about uploads. */
  datatype Progress = Progress(locked: Option<Path>, lastMtime: int, lastDigest: Option<Digest>)

  /** What a cycle meets outside: the clock's verdict on the first save, and whether each operation succeeds. */
  datatype World = World(bootstrapLatest: bool, clock: int, maximumAge: int, parses: bool, uploads: bool)

  datatype Outcome = Nothing | Uploaded(save: Candidate) | Failed

  /** The first element that satisfies a predicate. */
  function First(s: seq<Candidate>, wanted: Candidate -> bool): (r: Option<Candidate>)
    ensures r.Some? ==> r.value in s && wanted(r.value)
    ensures r.None? <==> forall c | c in s :: !wanted(c)
  {
    if s == [] then None
    else
      assert forall c | c in s :: c == s[0] || c in s[1..];
      if wanted(s[0]) then Some(s[0]) else First(s[1..], wanted)
  }

  function NewerElsewhere(p: Progress): Candidate -> bool
    requires p.locked.Some?
  {
    (c: Candidate) => c.directory != p.locked.value && c.mtime > p.lastMtime
  }

  function CurrentHere(p: Progress): Candidate -> bool
    requires p.locked.Some?
  {
    (c: Candidate) => c.directory == p.locked.value && c.mtime >= p.lastMtime
  }

  function EligibleCandidate(p: Progress, candidates: seq<Candidate>, w: World): Option<Candidate> {
    if candidates == [] then None
    else if p.locked.Some? then
      var elsewhere := First(candidates, NewerElsewhere(p));
      if elsewhere.Some? then elsewhere else First(candidates, CurrentHere(p))
    else if !w.bootstrapLatest then None
    else if w.clock - candidates[0].mtime > w.maximumAge then None
    else Some(candidates[0])
  }

  /** One cycle behind the scan. */
  function Cycled(p: Progress, candidates: seq<Candidate>, digest: Candidate -> Digest, w: World): (Progress, Outcome) {
    var candidate := EligibleCandidate(p, candidates, w);
    if candidate.None? then (p, Nothing)
    else
      var c := candidate.value;
      var q := p.(locked := Some(c.directory));
      if !w.parses then (q, Failed)
      else if p.lastDigest == Some(digest(c)) && c.mtime == p.lastMtime then (q, Nothing)
      else if !w.uploads then (q, Failed)
      else (Progress(Some(c.directory), c.mtime, Some(digest(c))), Uploaded(c))
  }

  class SaveUploader {
    var locked: Option<Path>
    var lastMtime: int
    var lastDigest: Option<Digest>

    function Value(): Progress
      reads this
    {
      Progress(locked, lastMtime, lastDigest)
    }

    constructor (loaded: Progress)
      ensures Value() == loaded
    {
      locked, lastMtime, lastDigest := loaded.locked, loaded.lastMtime, loaded.lastDigest;
    }

    method ResetCampaign()
      modifies this
      ensures Value() == Progress(None, 0, None)
    {
      locked, lastMtime, lastDigest := None, 0, None;
    }

    method LockCampaign(c: Candidate)
      modifies this`locked
      ensures Value() == old(Value()).(locked := Some(c.directory))
    {
      locked := Some(c.directory);
    }

    method Cycle(candidates: seq<Candidate>, digest: Candidate -> Digest, w: World) returns (outcome: Outcome)
      modifies this
      ensures (Value(), outcome) == Cycled(old(Value()), candidates, digest, w)
    {
      var candidate := EligibleCandidate(Value(), candidates, w);
      if candidate.None? {
        return Nothing;
      }
      var c := candidate.value;
      if Some(c.directory) != locked {
        LockCampaign(c);
      }
      if !w.parses {
        return Failed;
      }
      var d := digest(c);
      if Some(d) == lastDigest && c.mtime == lastMtime {
        return Nothing;
      }
      if !w.uploads {
        return Failed;
      }
      lastMtime := c.mtime;
      lastDigest := Some(d);
      return Uploaded(c);
    }
  }

  // ---------------------------------------------------------------------------------------------
  // A locked uploader never goes back

  /** Whatever is found and whatever fails: the time of the last upload never decreases, and only uploads change it. */
  lemma NeverOlder(p: Progress, candidates: seq<Candidate>, digest: Candidate -> Digest, w: World)
    requires p.locked.Some?
    ensures var (q, outcome) := Cycled(p, candidates, digest, w);
            && q.locked.Some? && q.lastMtime >= p.lastMtime
            && (outcome.Uploaded? ==> outcome.save in candidates && outcome.save.mtime == q.lastMtime)
            && (!outcome.Uploaded? ==> q.lastMtime == p.lastMtime && q.lastDigest == p.lastDigest)
  {
  }

  /** One cycle's surroundings in a run in which everything may change. */
  datatype Turn = Turn(candidates: seq<Candidate>, digest: Candidate -> Digest, world: World)

  function RunTurns(p: Progress, turns: seq<Turn>): Progress {
    if turns == [] then p
    else
      var before := RunTurns(p, turns[..|turns| - 1]);
      var t := turns[|turns| - 1];
      Cycled(before, t.candidates, t.digest, t.world).0
  }

  lemma {:induction false} RunNeverOlder(p: Progress, turns: seq<Turn>, k: nat)
    requires p.locked.Some? && k <= |turns|
    ensures RunTurns(p, turns).locked.Some? && RunTurns(p, turns[..k]).locked.Some?
    ensures RunTurns(p, turns[..k]).lastMtime <= RunTurns(p, turns).lastMtime
    decreases |turns|
  {
    var n := |turns|;
    if k == n {
      assert turns[..k] == turns;
      if n > 0 {
        RunNeverOlder(p, turns[..n - 1], n - 1);
        var t := turns[n - 1];
        assert turns[..n - 1][..n - 1] == turns[..n - 1];
        NeverOlder(RunTurns(p, turns[..n - 1]), t.candidates, t.digest, t.world);
      }
    } else {
      RunNeverOlder(p, turns[..n - 1], k);
      assert turns[..n - 1][..k] == turns[..k];
      var t := turns[n - 1];
      NeverOlder(RunTurns(p, turns[..n - 1]), t.candidates, t.digest, t.world);
    }
  }

  // ---------------------------------------------------------------------------------------------
  // It comes to rest

  /** How many candidates are newer than a time. */
  function Newer(candidates: seq<Candidate>, mtime: int): nat {
    if candidates == [] then 0 else (if candidates[0].mtime > mtime then 1 else 0) + Newer(candidates[1..], mtime)
  }

  /** The next cycle would find the save that was uploaded last. */
  predicate AtRest(p: Progress, candidates: seq<Candidate>, digest: Candidate -> Digest)
    requires p.locked.Some?
  {
    && First(candidates, NewerElsewhere(p)).None?
    && var here := First(candidates, CurrentHere(p));
       here.None? || (here.value.mtime == p.lastMtime && p.lastDigest == Some(digest(here.value)))
  }

  /** The measure of a locked uploader: two for every newer candidate, one for a changed save of the last time. */
  function Measure(p: Progress, candidates: seq<Candidate>, digest: Candidate -> Digest): nat
    requires p.locked.Some?
  {
    2 * Newer(candidates, p.lastMtime) + if AtRest(p, candidates, digest) then 0 else 1
  }

  const WORKING: World := World(true, 0, 0, true, true)

  lemma {:induction false} NoneNewer(candidates: seq<Candidate>, mtime: int)
    ensures Newer(candidates, mtime) == 0 <==> forall c | c in candidates :: c.mtime <= mtime
  {
    if candidates != [] {
      NoneNewer(candidates[1..], mtime);
      assert forall c | c in candidates :: c == candidates[0] || c in candidates[1..];
      assert candidates[0] in candidates && forall c | c in candidates[1..] :: c in candidates;
    }
  }

  lemma {:induction false} FewerNewer(candidates: seq<Candidate>, low: int, high: int)
    requires low <= high
    ensures Newer(candidates, high) <= Newer(candidates, low)
    ensures (exists c :: c in candidates && low < c.mtime <= high) ==> Newer(candidates, high) < Newer(candidates, low)
  {
    if candidates != [] {
      FewerNewer(candidates[1..], low, high);
      assert forall c | c in candidates :: c == candidates[0] || c in candidates[1..];
    }
  }

  /**
   * At rest means: the cycle does nothing, and with candidates sorted newest first none of them, in any directory,
   * is newer than the last upload.
   */
  lemma RestIff(p: Progress, candidates: seq<Candidate>, digest: Candidate -> Digest)
    requires p.locked.Some? && NewestFirst(candidates)
    ensures AtRest(p, candidates, digest) <==> Cycled(p, candidates, digest, WORKING) == (p, Nothing)
    ensures AtRest(p, candidates, digest) ==> forall c | c in candidates :: c.mtime <= p.lastMtime
  {
    var here := First(candidates, CurrentHere(p));
    if AtRest(p, candidates, digest) {
      forall c | c in candidates ensures c.mtime <= p.lastMtime {
        assert !NewerElsewhere(p)(c);
        if here.Some? && c.directory == p.locked.value {
          FirstIsNewest(candidates, p, c);
        } else {
          assert here.None? ==> !CurrentHere(p)(c);
        }
      }
    }
  }

  /** The first current save of the locked directory is its newest. */
  lemma {:induction false} FirstIsNewest(candidates: seq<Candidate>, p: Progress, c: Candidate)
    requires p.locked.Some? && NewestFirst(candidates) && c in candidates && c.directory == p.locked.value
    requires First(candidates, CurrentHere(p)).Some?
    ensures c.mtime <= First(candidates, CurrentHere(p)).value.mtime
  {
    if CurrentHere(p)(candidates[0]) {
      var i :| 0 <= i < |candidates| && candidates[i] == c;
    } else if c != candidates[0] {
      assert c in candidates[1..];
      FirstIsNewest(candidates[1..], p, c);
    }
  }

  /** After an upload from the newest directory the same save comes first in it. */
  lemma {:induction false} UploadedComesFirst(candidates: seq<Candidate>, p: Progress, c: Candidate, q: Progress)
    requires p.locked.Some? && NewestFirst(candidates)
    requires First(candidates, NewerElsewhere(p)) == Some(c) || First(candidates, CurrentHere(p)) == Some(c)
    requires q.locked == Some(c.directory) && q.lastMtime == c.mtime && c.mtime >= p.lastMtime
    ensures First(candidates, CurrentHere(q)) == Some(c)
  {
    if candidates[0] != c {
      UploadedComesFirst(candidates[1..], p, c, q);
    }
  }

  /** With everything working, a cycle that is not at rest uploads a save and brings the uploader nearer to rest. */
  lemma CycleMakesProgress(p: Progress, candidates: seq<Candidate>, digest: Candidate -> Digest)
    requires p.locked.Some? && NewestFirst(candidates) && !AtRest(p, candidates, digest)
    ensures var (q, outcome) := Cycled(p, candidates, digest, WORKING);
            && outcome.Uploaded? && q.locked.Some?
            && Measure(q, candidates, digest) < Measure(p, candidates, digest)
  {
    var (q, outcome) := Cycled(p, candidates, digest, WORKING);
    var elsewhere, here := First(candidates, NewerElsewhere(p)), First(candidates, CurrentHere(p));
    var c := outcome.save;
    FewerNewer(candidates, p.lastMtime, c.mtime);
    if c.mtime == p.lastMtime {
      UploadedComesFirst(candidates, p, c, q);
      forall x | x in candidates ensures !NewerElsewhere(q)(x) {
        assert !NewerElsewhere(p)(x);
      }
    }
  }

  lemma {:induction false} NewerIsBounded(candidates: seq<Candidate>, mtime: int)
    ensures Newer(candidates, mtime) <= |candidates|
  {
    if candidates != [] {
      NewerIsBounded(candidates[1..], mtime);
    }
  }

  /** One pass of the uploader's loop: when it scans, and what it meets afterwards. */
  datatype Pass = Pass(now: int, world: World)

  /** A scan and the cycle behind it. */
  function Passed(
    p: Progress, observed: map<Path, Sighting>, files: seq<FileStat>, patience: int, digest: Candidate -> Digest,
    pass: Pass): (Progress, map<Path, Sighting>)
  {
    (Cycled(p, SortNewest(Stable(observed, files, pass.now, patience)), digest, pass.world).0,
     Remembered(observed, files, pass.now))
  }

  function RunPasses(
    p: Progress, observed: map<Path, Sighting>, files: seq<FileStat>, patience: int, digest: Candidate -> Digest,
    passes: seq<Pass>): (Progress, map<Path, Sighting>)
    decreases |passes|
  {
    if passes == [] then (p, observed)
    else
      var (q, seen) := Passed(p, observed, files, patience, digest, passes[0]);
      RunPasses(q, seen, files, patience, digest, passes[1..])
  }

  lemma {:induction false} RunPassesConcat(
    p: Progress, observed: map<Path, Sighting>, files: seq<FileStat>, patience: int, digest: Candidate -> Digest,
    first: seq<Pass>, second: seq<Pass>)
    ensures var (q, seen) := RunPasses(p, observed, files, patience, digest, first);
            RunPasses(p, observed, files, patience, digest, first + second)
            == RunPasses(q, seen, files, patience, digest, second)
    decreases |first|
  {
    var all := first + second;
    if first == [] {
      assert all == second;
    } else {
      assert all[0] == first[0] && all[1..] == first[1..] + second;
      var (q, seen) := Passed(p, observed, files, patience, digest, first[0]);
      RunPassesConcat(q, seen, files, patience, digest, first[1..], second);
    }
  }

  /** With every file sighted, later passes keep the sightings, and the uploader never goes back. */
  lemma {:induction false} PassesKeepSightings(
    p: Progress, observed: map<Path, Sighting>, files: seq<FileStat>, patience: int, digest: Candidate -> Digest,
    passes: seq<Pass>, t: int)
    requires p.locked.Some? && Sighted(observed, files, t)
    ensures var (q, seen) := RunPasses(p, observed, files, patience, digest, passes);
            q.locked.Some? && q.lastMtime >= p.lastMtime && Sighted(seen, files, t)
    decreases |passes|
  {
    if passes != [] {
      var candidates := SortNewest(Stable(observed, files, passes[0].now, patience));
      NeverOlder(p, candidates, digest, passes[0].world);
      NothingNew(observed, files, passes[0].now, t);
      RememberedIsSighted(observed, files, passes[0].now, t);
      var (q, seen) := Passed(p, observed, files, patience, digest, passes[0]);
      PassesKeepSightings(q, seen, files, patience, digest, passes[1..], t);
    }
  }

  /** The first pass over the tree sights every file, whatever was remembered before. */
  lemma FirstPassSights(
    p: Progress, observed: map<Path, Sighting>, files: seq<FileStat>, patience: int, digest: Candidate -> Digest,
    pass: Pass)
    requires p.locked.Some? && Consistent(files) && SeenBy(observed, pass.now)
    ensures var (q, seen) := Passed(p, observed, files, patience, digest, pass);
            q.locked.Some? && q.lastMtime >= p.lastMtime && Sighted(seen, files, pass.now)
  {
    NeverOlder(p, SortNewest(Stable(observed, files, pass.now, patience)), digest, pass.world);
    FirstWalkSights(observed, files, pass.now);
    RememberedIsSighted(observed, files, pass.now, pass.now);
  }

  predicate Works(w: World) {
    w.parses && w.uploads
  }

  /** All files of the tree, newest first. */
  function Tree(files: seq<FileStat>): seq<Candidate> {
    SortNewest(Candidates(files))
  }

  lemma TreeIsSorted(files: seq<FileStat>)
    ensures NewestFirst(Tree(files)) && |Tree(files)| == |files|
    ensures forall f | f in files :: CandidateOf(f) in Tree(files)
  {
    var candidates := Candidates(files);
    SortIsStable(candidates, Age, 0);
    SortedIsNewestFirst(Tree(files));
    assert |multiset(Tree(files))| == |multiset(candidates)|;
    forall f | f in files ensures CandidateOf(f) in Tree(files) {
      var i :| 0 <= i < |files| && files[i] == f;
      assert candidates[i] == CandidateOf(f) && candidates[i] in candidates;
      assert CandidateOf(f) in multiset(Tree(files));
    }
  }

  /** A pass behind the patience: at rest nothing happens, otherwise the measure falls. */
  lemma SettledPass(
    p: Progress, observed: map<Path, Sighting>, files: seq<FileStat>, patience: int, digest: Candidate -> Digest,
    pass: Pass, t: int) returns (q: Progress, seen: map<Path, Sighting>)
    requires p.locked.Some? && Sighted(observed, files, t) && pass.now - t >= patience && Works(pass.world)
    ensures (q, seen) == Passed(p, observed, files, patience, digest, pass)
    ensures q.locked.Some? && Sighted(seen, files, t)
    ensures if AtRest(p, Tree(files), digest) then q == p
            else Measure(q, Tree(files), digest) < Measure(p, Tree(files), digest)
  {
    q, seen := Passed(p, observed, files, patience, digest, pass).0, Remembered(observed, files, pass.now);
    AllSettle(observed, files, pass.now, patience, t);
    NothingNew(observed, files, pass.now, t);
    RememberedIsSighted(observed, files, pass.now, t);
    TreeIsSorted(files);
    assert Cycled(p, Tree(files), digest, pass.world) == Cycled(p, Tree(files), digest, WORKING);
    if AtRest(p, Tree(files), digest) {
      RestIff(p, Tree(files), digest);
    } else {
      CycleMakesProgress(p, Tree(files), digest);
    }
  }

  predicate AllSettled(passes: seq<Pass>, t: int, patience: int) {
    forall i | 0 <= i < |passes| :: passes[i].now - t >= patience && Works(passes[i].world)
  }

  lemma FirstSettledPass(
    p: Progress, observed: map<Path, Sighting>, files: seq<FileStat>, patience: int, digest: Candidate -> Digest,
    passes: seq<Pass>, t: int) returns (q: Progress, seen: map<Path, Sighting>)
    requires p.locked.Some? && Sighted(observed, files, t) && passes != [] && AllSettled(passes, t, patience)
    ensures RunPasses(p, observed, files, patience, digest, passes)
            == RunPasses(q, seen, files, patience, digest, passes[1..])
    ensures q.locked.Some? && Sighted(seen, files, t) && AllSettled(passes[1..], t, patience)
    ensures if AtRest(p, Tree(files), digest) then q == p
            else Measure(q, Tree(files), digest) < Measure(p, Tree(files), digest)
  {
    q, seen := SettledPass(p, observed, files, patience, digest, passes[0], t);
    assert forall i | 0 <= i < |passes[1..]| :: passes[1..][i] == passes[i + 1];
  }

  /** At rest, or at most that far from it. */
  predicate Within(p: Progress, files: seq<FileStat>, digest: Candidate -> Digest, distance: int)
    requires p.locked.Some?
  {
    AtRest(p, Tree(files), digest) || Measure(p, Tree(files), digest) <= distance
  }

  lemma {:induction false} MeasureFalls(
    p: Progress, observed: map<Path, Sighting>, files: seq<FileStat>, patience: int, digest: Candidate -> Digest,
    passes: seq<Pass>, t: int, distance: int)
    requires p.locked.Some? && Sighted(observed, files, t) && AllSettled(passes, t, patience)
    requires Within(p, files, digest, distance)
    ensures var q := RunPasses(p, observed, files, patience, digest, passes).0;
            q.locked.Some? && Within(q, files, digest, distance - |passes|)
    decreases |passes|
  {
    if passes != [] {
      var q, seen := FirstSettledPass(p, observed, files, patience, digest, passes, t);
      assert Within(q, files, digest, distance - 1);
      MeasureFalls(q, seen, files, patience, digest, passes[1..], t, distance - 1);
    }
  }

  /**
   * The tree stops changing: from the first pass over it, `wait` passes go by until the patience is over, whatever
   * they meet, and every later one works. Then at most two passes for every file and one more bring a locked uploader
   * to rest, and nothing in the tree is newer than its last upload.
   */
  lemma ComesToRest(
    p: Progress, observed: map<Path, Sighting>, files: seq<FileStat>, patience: int, digest: Candidate -> Digest,
    wait: seq<Pass>, passes: seq<Pass>)
    requires p.locked.Some? && Consistent(files) && wait != [] && SeenBy(observed, wait[0].now)
    requires AllSettled(passes, wait[0].now, patience)
    requires |passes| > 2 * |files|
    ensures var q := RunPasses(p, observed, files, patience, digest, wait + passes).0;
            && q.locked.Some? && q.lastMtime >= p.lastMtime && AtRest(q, Tree(files), digest)
            && forall f | f in files :: f.mtime <= q.lastMtime
  {
    var t := wait[0].now;
    FirstPassSights(p, observed, files, patience, digest, wait[0]);
    var (p1, seen1) := Passed(p, observed, files, patience, digest, wait[0]);
    PassesKeepSightings(p1, seen1, files, patience, digest, wait[1..], t);
    var (p2, seen2) := RunPasses(p, observed, files, patience, digest, wait);
    RunPassesConcat(p, observed, files, patience, digest, wait, passes);
    PassesKeepSightings(p2, seen2, files, patience, digest, passes, t);
    MeasureIsBounded(p2, files, digest);
    MeasureFalls(p2, seen2, files, patience, digest, passes, t, 2 * |files| + 1);
    AtRestInTree(RunPasses(p2, seen2, files, patience, digest, passes).0, files, digest);
  }

  lemma MeasureIsBounded(p: Progress, files: seq<FileStat>, digest: Candidate -> Digest)
    requires p.locked.Some?
    ensures Within(p, files, digest, 2 * |files| + 1)
  {
    TreeIsSorted(files);
    NewerIsBounded(Tree(files), p.lastMtime);
  }

  lemma AtRestInTree(q: Progress, files: seq<FileStat>, digest: Candidate -> Digest)
    requires q.locked.Some? && Within(q, files, digest, 0)
    ensures AtRest(q, Tree(files), digest) && forall f | f in files :: f.mtime <= q.lastMtime
  {
    TreeIsSorted(files);
    RestIff(q, Tree(files), digest);
    forall f | f in files ensures f.mtime <= q.lastMtime {
      assert CandidateOf(f) in Tree(files);
    }
  }
}
