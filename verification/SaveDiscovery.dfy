/** Discovery of save files that have stopped changing. */
module SaveDiscovery {
  import opened StableSort

  type Path = string

  /** One file as a directory walk finds it; paths may repeat when links resolve to the same file. */
  datatype FileStat = FileStat(path: Path, directory: Path, size: nat, mtime: int)

  datatype Candidate = Candidate(path: Path, directory: Path, size: nat, mtime: int)

  /** What is remembered of a file: its signature and when it was first seen with it. */
  datatype Sighting = Sighting(size: nat, mtime: int, since: int)

  predicate Same(seen: Sighting, f: FileStat) {
    seen.size == f.size && seen.mtime == f.mtime
  }

  function Observe(observed: map<Path, Sighting>, f: FileStat, now: int): map<Path, Sighting> {
    if f.path in observed && Same(observed[f.path], f) then observed
    else observed[f.path := Sighting(f.size, f.mtime, now)]
  }

  function ObserveAll(observed: map<Path, Sighting>, files: seq<FileStat>, now: int): map<Path, Sighting> {
    if files == [] then observed
    else Observe(ObserveAll(observed, files[..|files| - 1], now), files[|files| - 1], now)
  }

  predicate Settled(observed: map<Path, Sighting>, f: FileStat, now: int, patience: int) {
    f.path in observed && Same(observed[f.path], f) && now - observed[f.path].since >= patience
  }

  /** The stable files of one walk, in the order of the walk. */
  function Stable(observed: map<Path, Sighting>, files: seq<FileStat>, now: int, patience: int): seq<Candidate> {
    if files == [] then []
    else
      var earlier, f := files[..|files| - 1], files[|files| - 1];
      Stable(observed, earlier, now, patience)
      + if Settled(ObserveAll(observed, earlier, now), f, now, patience)
        then [Candidate(f.path, f.directory, f.size, f.mtime)] else []
  }

  function Paths(files: seq<FileStat>): set<Path> {
    set f | f in files :: f.path
  }

  /** What is still remembered after a walk: the sightings of the files that it found. */
  function Remembered(observed: map<Path, Sighting>, files: seq<FileStat>, now: int): map<Path, Sighting> {
    var all := ObserveAll(observed, files, now);
    map p | p in all && p in Paths(files) :: all[p]
  }

  // ---------------------------------------------------------------------------------------------
  // Sorting, newest first

  predicate NewestFirst(s: seq<Candidate>) {
    forall i, j | 0 <= i < j < |s| :: s[i].mtime >= s[j].mtime
  }

  function Age(c: Candidate): int {
    -c.mtime
  }

  /** `sorted(s, key=mtime, reverse=True)`, which keeps the order of files of the same time. */
  function SortNewest(s: seq<Candidate>): seq<Candidate> {
    SortBy(s, Age)
  }

  // ---------------------------------------------------------------------------------------------
  // The scanner

  /** One call of `scan`: what the walk found, and when. */
  datatype Walk = Walk(files: seq<FileStat>, now: int)

  predicate Shows(w: Walk, path: Path, size: nat, mtime: int) {
    exists i :: 0 <= i < |w.files| && w.files[i].path == path && w.files[i].size == size && w.files[i].mtime == mtime
  }

  /** Every walk from number `first` on showed the file with this signature, and the first of them was at `since`. */
  ghost predicate UnchangedSince(walks: seq<Walk>, path: Path, seen: Sighting, first: nat) {
    && first < |walks| && walks[first].now == seen.since
    && forall i | first <= i < |walks| :: Shows(walks[i], path, seen.size, seen.mtime)
  }

  class StableSaveDiscovery {
    const patience: int
    var observed: map<Path, Sighting>
    ghost var walks: seq<Walk>

    /** Every sighting is backed by the walks since then. */
    ghost predicate Valid()
      reads this
    {
      && patience > 0
      && forall p | p in observed :: exists k :: UnchangedSince(walks, p, observed[p], k)
    }

    constructor (patience: int)
      requires patience > 0
      ensures Valid() && observed == map[] && walks == [] && this.patience == patience
    {
      this.patience := patience;
      observed := map[];
      walks := [];
    }

    /**
     * Returns the files that have settled, newest first. A file is returned only if a walk at least `patience`
     * earlier, and every walk since, showed it with the same size and time.
     */
    method Scan(files: seq<FileStat>, now: int) returns (candidates: seq<Candidate>)
      requires Valid()
      modifies this
      ensures Valid() && walks == old(walks) + [Walk(files, now)]
      ensures candidates == SortNewest(Stable(old(observed), files, now, patience)) && NewestFirst(candidates)
      ensures observed == Remembered(old(observed), files, now) && observed.Keys == Paths(files)
      ensures forall c | c in candidates ::
                exists k, since :: now - since >= patience
                  && UnchangedSince(walks, c.path, Sighting(c.size, c.mtime, since), k)
    {
      ghost var before, was := observed, walks;
      var stable: seq<Candidate> := [];
      var i := 0;
      while i < |files|
        invariant 0 <= i <= |files|
        invariant observed == ObserveAll(before, files[..i], now)
        invariant stable == Stable(before, files[..i], now, patience)
        invariant walks == was
      {
        var f := files[i];
        assert files[..i + 1][..i] == files[..i];
        if f.path in observed && Same(observed[f.path], f) {
          if now - observed[f.path].since >= patience {
            stable := stable + [Candidate(f.path, f.directory, f.size, f.mtime)];
          }
        } else {
          observed := observed[f.path := Sighting(f.size, f.mtime, now)];
        }
        i := i + 1;
      }
      assert files[..i] == files;
      var present := set f | f in files :: f.path;
      observed := map p | p in observed && p in present :: observed[p];
      walks := walks + [Walk(files, now)];
      ScanBacked(before, was, files, now, patience);
      ObservesAll(before, files, now);
      SortIsStable(stable, Age, 0);
      SortedIsNewestFirst(SortNewest(stable));
      candidates := SortNewest(stable);
      SettledFilesWereUnchanged(before, was, files, now, patience);
    }
  }

  lemma SortedIsNewestFirst(s: seq<Candidate>)
    ensures SortedBy(s, Age) <==> NewestFirst(s)
  {
    if NewestFirst(s) {
      forall i, j | 0 <= i < j < |s| ensures Age(s[i]) <= Age(s[j]) {
      }
    }
    if SortedBy(s, Age) {
      forall i, j | 0 <= i < j < |s| ensures s[i].mtime >= s[j].mtime {
        assert Age(s[i]) <= Age(s[j]);
      }
    }
  }

  lemma {:induction false} ObservesAll(observed: map<Path, Sighting>, files: seq<FileStat>, now: int)
    ensures Paths(files) <= ObserveAll(observed, files, now).Keys
  {
    if files != [] {
      ObservesAll(observed, files[..|files| - 1], now);
    }
  }

  /** After part of a walk, a sighting is either the old one or was made by a file of this walk. */
  lemma {:induction false} ObservedFrom(observed: map<Path, Sighting>, files: seq<FileStat>, now: int, p: Path)
    requires p in ObserveAll(observed, files, now)
    ensures var s := ObserveAll(observed, files, now)[p];
            || (p in observed && s == observed[p])
            || (s.since == now && Shows(Walk(files, now), p, s.size, s.mtime))
    ensures p in Paths(files) ==>
              var s := ObserveAll(observed, files, now)[p]; Shows(Walk(files, now), p, s.size, s.mtime)
  {
    if files != [] {
      var n := |files| - 1;
      var earlier, f := files[..n], files[n];
      if p in ObserveAll(observed, earlier, now) {
        ObservedFrom(observed, earlier, now, p);
        var s := ObserveAll(observed, earlier, now)[p];
        if Shows(Walk(earlier, now), p, s.size, s.mtime) {
          var i :| 0 <= i < n && earlier[i].path == p && earlier[i].size == s.size && earlier[i].mtime == s.mtime;
          assert files[i] == earlier[i];
        }
      }
      assert files[n] == f;
    }
  }

  ghost predicate Backed(observed: map<Path, Sighting>, walks: seq<Walk>) {
    forall p | p in observed :: exists k :: UnchangedSince(walks, p, observed[p], k)
  }

  lemma SightingExtended(walks: seq<Walk>, w: Walk, p: Path, s: Sighting)
    requires Shows(w, p, s.size, s.mtime)
    requires s.since == w.now || exists k :: UnchangedSince(walks, p, s, k)
    ensures exists k :: UnchangedSince(walks + [w], p, s, k)
  {
    if k :| UnchangedSince(walks, p, s, k) {
      assert UnchangedSince(walks + [w], p, s, k);
    } else {
      assert UnchangedSince(walks + [w], p, s, |walks|);
    }
  }

  lemma ScanBacked(observed: map<Path, Sighting>, walks: seq<Walk>, files: seq<FileStat>, now: int, patience: int)
    requires Backed(observed, walks)
    ensures var all := ObserveAll(observed, files, now);
            forall p | p in all && p in Paths(files) ::
              exists k :: UnchangedSince(walks + [Walk(files, now)], p, all[p], k)
  {
    var all := ObserveAll(observed, files, now);
    forall p | p in all && p in Paths(files)
      ensures exists k :: UnchangedSince(walks + [Walk(files, now)], p, all[p], k)
    {
      ObservedFrom(observed, files, now, p);
      SightingExtended(walks, Walk(files, now), p, all[p]);
    }
  }

  lemma {:induction false} StableBacked(
    observed: map<Path, Sighting>, walks: seq<Walk>, files: seq<FileStat>, all: seq<FileStat>, now: int, patience: int,
    c: Candidate)
    requires Backed(observed, walks) && patience > 0 && files <= all
    requires c in Stable(observed, files, now, patience)
    ensures exists k, since :: now - since >= patience
              && UnchangedSince(walks + [Walk(all, now)], c.path, Sighting(c.size, c.mtime, since), k)
  {
    var n := |files| - 1;
    var earlier, f := files[..n], files[n];
    if c in Stable(observed, earlier, now, patience) {
      StableBacked(observed, walks, earlier, all, now, patience, c);
    } else {
      var s := ObserveAll(observed, earlier, now)[f.path];
      ObservedFrom(observed, earlier, now, f.path);
      assert all[n] == f;
      assert Shows(Walk(all, now), f.path, f.size, f.mtime);
      SightingExtended(walks, Walk(all, now), f.path, s);
      assert s == Sighting(c.size, c.mtime, s.since);
    }
  }

  lemma SettledFilesWereUnchanged(
    observed: map<Path, Sighting>, walks: seq<Walk>, files: seq<FileStat>, now: int, patience: int)
    requires Backed(observed, walks) && patience > 0
    ensures forall c | c in SortNewest(Stable(observed, files, now, patience)) ::
              exists k, since :: now - since >= patience
                && UnchangedSince(walks + [Walk(files, now)], c.path, Sighting(c.size, c.mtime, since), k)
  {
    var stable := Stable(observed, files, now, patience);
    SortIsStable(stable, Age, 0);
    forall c | c in SortNewest(stable)
      ensures exists k, since :: now - since >= patience
                && UnchangedSince(walks + [Walk(files, now)], c.path, Sighting(c.size, c.mtime, since), k)
    {
      assert c in multiset(SortNewest(stable));
      StableBacked(observed, walks, files, files, now, patience, c);
    }
  }

  // ---------------------------------------------------------------------------------------------
  // An unchanging tree

  function CandidateOf(f: FileStat): Candidate {
    Candidate(f.path, f.directory, f.size, f.mtime)
  }

  function Candidates(files: seq<FileStat>): seq<Candidate> {
    seq(|files|, i requires 0 <= i < |files| => CandidateOf(files[i]))
  }

  /** A file that the walk reaches twice looks the same both times. */
  predicate Consistent(files: seq<FileStat>) {
    forall f, g | f in files && g in files && f.path == g.path :: f.size == g.size && f.mtime == g.mtime
  }

  /** Every file is remembered as it is, and was first seen so at `t` or before. */
  predicate Sighted(observed: map<Path, Sighting>, files: seq<FileStat>, t: int) {
    forall f | f in files :: f.path in observed && Same(observed[f.path], f) && observed[f.path].since <= t
  }

  predicate SeenBy(observed: map<Path, Sighting>, t: int) {
    forall p | p in observed :: observed[p].since <= t
  }

  lemma OneMoreSighted(all: map<Path, Sighting>, earlier: seq<FileStat>, f: FileStat, now: int)
    requires Sighted(all, earlier, now) && SeenBy(all, now) && Consistent(earlier + [f])
    ensures Sighted(Observe(all, f, now), earlier + [f], now) && SeenBy(Observe(all, f, now), now)
  {
    var files := earlier + [f];
    forall g | g in files
      ensures g.path in Observe(all, f, now) && Same(Observe(all, f, now)[g.path], g)
    {
      assert f in files && (g == f || g in earlier);
    }
  }

  lemma {:induction false} FirstWalkSights(observed: map<Path, Sighting>, files: seq<FileStat>, now: int)
    requires Consistent(files) && SeenBy(observed, now)
    ensures Sighted(ObserveAll(observed, files, now), files, now) && SeenBy(ObserveAll(observed, files, now), now)
  {
    hide Observe, SeenBy, Sighted;
    if files == [] {
      NothingSighted(observed, now);
    } else {
      var n := |files| - 1;
      var earlier, f := files[..n], files[n];
      assert forall g | g in earlier :: g in files;
      FirstWalkSights(observed, earlier, now);
      assert files == earlier + [f];
      OneMoreSighted(ObserveAll(observed, earlier, now), earlier, f, now);
    }
  }

  lemma NothingSighted(observed: map<Path, Sighting>, now: int)
    ensures Sighted(observed, [], now)
  {
  }

  lemma {:induction false} NothingNew(observed: map<Path, Sighting>, files: seq<FileStat>, now: int, t: int)
    requires Sighted(observed, files, t)
    ensures ObserveAll(observed, files, now) == observed
  {
    if files != [] {
      var n := |files| - 1;
      assert forall g | g in files[..n] :: g in files;
      assert files[n] in files;
      NothingNew(observed, files[..n], now, t);
    }
  }

  lemma RememberedIsSighted(observed: map<Path, Sighting>, files: seq<FileStat>, now: int, t: int)
    requires Sighted(ObserveAll(observed, files, now), files, t)
    ensures Sighted(Remembered(observed, files, now), files, t)
  {
  }

  /** Once the patience has passed, every walk over the unchanged tree returns all its files. */
  lemma {:induction false} AllSettle(observed: map<Path, Sighting>, files: seq<FileStat>, now: int, patience: int, t: int)
    requires Sighted(observed, files, t) && now - t >= patience
    ensures Stable(observed, files, now, patience) == Candidates(files)
  {
    if files != [] {
      var n := |files| - 1;
      var earlier, f := files[..n], files[n];
      assert forall g | g in earlier :: g in files;
      assert f in files;
      AllSettle(observed, earlier, now, patience, t);
      NothingNew(observed, earlier, now, t);
      assert Candidates(files) == Candidates(earlier) + [CandidateOf(f)];
    }
  }
}
