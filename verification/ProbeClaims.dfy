/** When the first-seen table lets a vtable be claimed twice. */
module ProbeClaims {
  import opened CommandProbe
  import opened ProbeRuns

  /** Entries only change from empty to occupied. */
  ghost predicate Grows(t: Table, u: Table) {
    forall i | 0 <= i < SEEN_CAPACITY && t[i] != 0 :: u[i] == t[i]
  }

  /**
   * The first `n` entries of a vtable's probe sequence were passed: all are occupied, and one of them holds the
   * vtable itself exactly when an exchange was lost to it.
   */
  ghost predicate Passed(t: Table, vtable: nat, n: nat, lost: bool) {
    && n <= PROBES && (forall q | 0 <= q < n :: t[Slot(vtable, q)] != 0)
    && (lost <==> exists q :: 0 <= q < n && t[Slot(vtable, q)] == vtable)
  }

  ghost predicate ThreadPassed(t: Table, pc: Pc) {
    match pc
    case Probing(e, n, lost) => Passed(t, e.vtable, n, lost)
    case Swapping(e, n, lost) => n < PROBES && e.vtable != 0 && Passed(t, e.vtable, n, lost)
    case _ => true
  }

  ghost predicate ClaimHolds(t: Table, c: Claim) {
    && c.probe < PROBES && c.vtable != 0 && t[Slot(c.vtable, c.probe)] == c.vtable
    && Passed(t, c.vtable, c.probe, c.lost)
  }

  function EntryOf(c: Claim): nat {
    Slot(c.vtable, c.probe)
  }

  ghost predicate ClaimsInv(s: State) {
    && (forall t | 0 <= t < |s.threads| :: ThreadPassed(s.table, s.threads[t]))
    && (forall k | 0 <= k < |s.claims| :: ClaimHolds(s.table, s.claims[k]))
    && (forall j, k | 0 <= j < k < |s.claims| :: EntryOf(s.claims[j]) != EntryOf(s.claims[k]))
    && (forall i | 0 <= i < SEEN_CAPACITY && s.table[i] != 0 ::
          exists k :: 0 <= k < |s.claims| && EntryOf(s.claims[k]) == i)
  }

  /** What was passed stays passed when entries are added. */
  lemma PassedStays(t: Table, u: Table, vtable: nat, n: nat, lost: bool)
    requires Grows(t, u) && Passed(t, vtable, n, lost)
    ensures Passed(u, vtable, n, lost)
  {
    forall q | 0 <= q < n ensures u[Slot(vtable, q)] == t[Slot(vtable, q)] {
      assert t[Slot(vtable, q)] != 0;
    }
  }

  lemma PassedOneMore(t: Table, vtable: nat, n: nat, lost: bool)
    requires n < PROBES && Passed(t, vtable, n, lost) && t[Slot(vtable, n)] != 0
    ensures Passed(t, vtable, n + 1, lost || t[Slot(vtable, n)] == vtable)
  {
    if q :| 0 <= q < n && t[Slot(vtable, q)] == vtable {
      assert 0 <= q < n + 1;
    }
    if t[Slot(vtable, n)] == vtable {
      assert 0 <= n < n + 1;
    }
  }

  lemma MovedThread(s: State, t: nat, pc: Pc, next: State)
    requires ClaimsInv(s) && t < |s.threads| && ThreadPassed(s.table, pc)
    requires next.threads == s.threads[t := pc] && next.table == s.table && next.claims == s.claims
    ensures ClaimsInv(next)
  {
    hide ThreadPassed, ClaimHolds, EntryOf;
    assert forall u | 0 <= u < |next.threads| :: ThreadPassed(s.table, next.threads[u]);
  }

  lemma LoadKeepsClaims(s: State, t: nat)
    requires ClaimsInv(s) && Enabled(s, Load(t))
    ensures ClaimsInv(Next(s, Load(t)))
  {
    hide ClaimHolds, EntryOf, Passed, Slot;
    var pc := s.threads[t];
    assert ThreadPassed(s.table, pc);
    if pc.probe < PROBES && s.table[Slot(pc.event.vtable, pc.probe)] != 0 {
      PassedOneMore(s.table, pc.event.vtable, pc.probe, pc.lost);
    }
    MovedThread(s, t, Loaded(s, pc), Next(s, Load(t)));
  }

  lemma SwapKeepsClaims(s: State, t: nat)
    requires ClaimsInv(s) && Enabled(s, Swap(t))
    ensures ClaimsInv(Next(s, Swap(t)))
  {
    hide ClaimHolds, EntryOf, Passed, Slot;
    var pc := s.threads[t];
    var v, i := pc.event.vtable, Slot(pc.event.vtable, pc.probe);
    assert ThreadPassed(s.table, pc);
    if s.table[i] != 0 {
      PassedOneMore(s.table, v, pc.probe, pc.lost);
      MovedThread(s, t, Probing(pc.event, pc.probe + 1, pc.lost || s.table[i] == v), Next(s, Swap(t)));
    } else {
      WinKeepsClaims(s, t);
    }
  }

  /** A thread about to win an empty entry. */
  ghost predicate Wins(s: State, t: nat) {
    && ClaimsInv(s) && Enabled(s, Swap(t))
    && s.table[Slot(s.threads[t].event.vtable, s.threads[t].probe)] == 0
  }

  lemma WinKeepsThreads(s: State, t: nat)
    requires Wins(s, t)
    ensures var next := Next(s, Swap(t));
            forall u | 0 <= u < |next.threads| :: ThreadPassed(next.table, next.threads[u])
  {
    hide ClaimHolds, EntryOf, Passed, Slot;
    var next := Next(s, Swap(t));
    forall u | 0 <= u < |next.threads| ensures ThreadPassed(next.table, next.threads[u]) {
      assert ThreadPassed(s.table, s.threads[u]);
      match s.threads[u]
      case Probing(e, n, lost) => PassedStays(s.table, next.table, e.vtable, n, lost);
      case Swapping(e, n, lost) => PassedStays(s.table, next.table, e.vtable, n, lost);
      case _ =>
    }
  }

  lemma ClaimStays(t: Table, u: Table, c: Claim)
    requires Grows(t, u) && ClaimHolds(t, c)
    ensures ClaimHolds(u, c)
  {
    PassedStays(t, u, c.vtable, c.probe, c.lost);
  }

  lemma NewClaimHolds(s: State, t: nat)
    requires Wins(s, t)
    ensures var next := Next(s, Swap(t)); ClaimHolds(next.table, next.claims[|s.claims|])
  {
    var pc := s.threads[t];
    assert ThreadPassed(s.table, pc);
    PassedStays(s.table, Next(s, Swap(t)).table, pc.event.vtable, pc.probe, pc.lost);
  }

  lemma WinKeepsLog(s: State, t: nat)
    requires Wins(s, t)
    ensures var next := Next(s, Swap(t));
            forall k | 0 <= k < |next.claims| :: ClaimHolds(next.table, next.claims[k])
  {
    hide ThreadPassed, Passed, ClaimHolds, Slot;
    var next := Next(s, Swap(t));
    forall k | 0 <= k < |s.claims| ensures ClaimHolds(next.table, s.claims[k]) {
      ClaimStays(s.table, next.table, s.claims[k]);
    }
    NewClaimHolds(s, t);
  }

  lemma WinKeepsApart(s: State, t: nat)
    requires Wins(s, t)
    ensures var next := Next(s, Swap(t));
            forall j, k | 0 <= j < k < |next.claims| :: EntryOf(next.claims[j]) != EntryOf(next.claims[k])
  {
    hide ThreadPassed, Passed, Slot;
    var next := Next(s, Swap(t));
    forall j, k | 0 <= j < k < |next.claims| ensures EntryOf(next.claims[j]) != EntryOf(next.claims[k]) {
      assert ClaimHolds(s.table, s.claims[j]);
    }
  }

  lemma WinKeepsCovered(s: State, t: nat)
    requires Wins(s, t)
    ensures var next := Next(s, Swap(t));
            forall x | 0 <= x < SEEN_CAPACITY && next.table[x] != 0 ::
              exists k :: 0 <= k < |next.claims| && EntryOf(next.claims[k]) == x
  {
    hide ThreadPassed, ClaimHolds, Slot;
    var next := Next(s, Swap(t));
    forall x | 0 <= x < SEEN_CAPACITY && next.table[x] != 0
      ensures exists k :: 0 <= k < |next.claims| && EntryOf(next.claims[k]) == x
    {
      if s.table[x] == 0 {
        assert EntryOf(next.claims[|s.claims|]) == x;
      } else {
        var k :| 0 <= k < |s.claims| && EntryOf(s.claims[k]) == x;
        assert EntryOf(next.claims[k]) == x;
      }
    }
  }

  lemma WinKeepsClaims(s: State, t: nat)
    requires Wins(s, t)
    ensures ClaimsInv(Next(s, Swap(t)))
  {
    hide Wins, Next, Enabled, ThreadPassed, ClaimHolds, EntryOf;
    WinKeepsThreads(s, t);
    WinKeepsLog(s, t);
    WinKeepsApart(s, t);
    WinKeepsCovered(s, t);
  }

  lemma StepKeepsClaims(s: State, step: Step)
    requires ClaimsInv(s) && Enabled(s, step)
    ensures ClaimsInv(Next(s, step))
  {
    match step {
      case Load(t) => LoadKeepsClaims(s, t);
      case Swap(t) => SwapKeepsClaims(s, t);
      case _ =>
        assert ThreadPassed(s.table, Next(s, step).threads[step.t]);
        MovedThread(s, step.t, Next(s, step).threads[step.t], Next(s, step));
    }
  }

  lemma {:induction false} RunKeepsClaims(s: State, steps: seq<Step>)
    requires ClaimsInv(s) && CanRun(s, steps)
    ensures ClaimsInv(Run(s, steps))
    decreases |steps|
  {
    if steps != [] {
      StepKeepsClaims(s, steps[0]);
      RunKeepsClaims(Next(s, steps[0]), steps[1..]);
    }
  }

  lemma StartHolds(threads: nat)
    ensures ClaimsInv(Start(threads))
  {
  }

  /** A vtable is claimed by two calls. */
  ghost predicate ClaimedTwice(s: State, vtable: nat) {
    exists j, k :: 0 <= j < k < |s.claims| && s.claims[j].vtable == vtable && s.claims[k].vtable == vtable
  }

  /** A call that had lost an exchange to the same vtable goes on probing and claims it all the same. */
  ghost predicate ClaimedAfterLoss(s: State, vtable: nat) {
    exists k :: 0 <= k < |s.claims| && s.claims[k].vtable == vtable && s.claims[k].lost
  }

  /** In every interleaving, a vtable is claimed twice if and only if a call that lost it to another one claims it. */
  lemma ClaimedTwiceIff(threads: nat, steps: seq<Step>, vtable: nat)
    requires CanRun(Start(threads), steps)
    ensures ClaimedTwice(Run(Start(threads), steps), vtable) <==> ClaimedAfterLoss(Run(Start(threads), steps), vtable)
  {
    hide ClaimsInv, Run, CanRun;
    StartHolds(threads);
    RunKeepsClaims(Start(threads), steps);
    var s := Run(Start(threads), steps);
    if ClaimedTwice(s, vtable) {
      var j, k :| 0 <= j < k < |s.claims| && s.claims[j].vtable == vtable && s.claims[k].vtable == vtable;
      LaterProbeHadLost(s, j, k);
    }
    if ClaimedAfterLoss(s, vtable) {
      var k :| 0 <= k < |s.claims| && s.claims[k].vtable == vtable && s.claims[k].lost;
      LossMeansOther(s, k);
    }
  }

  lemma PassedOver(t: Table, vtable: nat, q: nat, n: nat, lost: bool)
    requires Passed(t, vtable, n, lost) && q < n && t[Slot(vtable, q)] == vtable
    ensures lost
  {
  }

  lemma OneOfTwoHadLost(t: Table, a: Claim, b: Claim)
    requires ClaimHolds(t, a) && ClaimHolds(t, b) && a.vtable == b.vtable && a.probe != b.probe
    ensures a.lost || b.lost
  {
    if a.probe < b.probe {
      PassedOver(t, a.vtable, a.probe, b.probe, b.lost);
    } else {
      PassedOver(t, a.vtable, b.probe, a.probe, a.lost);
    }
  }

  lemma LaterProbeHadLost(s: State, j: nat, k: nat)
    requires ClaimsInv(s) && j < k < |s.claims| && s.claims[j].vtable == s.claims[k].vtable
    ensures s.claims[j].lost || s.claims[k].lost
  {
    var a, b := s.claims[j], s.claims[k];
    assert EntryOf(a) != EntryOf(b);
    assert a.probe != b.probe;
    OneOfTwoHadLost(s.table, a, b);
  }

  lemma LostTo(t: Table, c: Claim) returns (q: nat)
    requires ClaimHolds(t, c) && c.lost
    ensures q < c.probe && t[Slot(c.vtable, q)] == c.vtable && Slot(c.vtable, q) != EntryOf(c)
  {
    q :| 0 <= q < c.probe && t[Slot(c.vtable, q)] == c.vtable;
    SlotsDiffer(c.vtable, q, c.probe);
  }

  lemma LossMeansOther(s: State, k: nat)
    requires ClaimsInv(s) && k < |s.claims| && s.claims[k].lost
    ensures ClaimedTwice(s, s.claims[k].vtable)
  {
    var c := s.claims[k];
    assert ClaimHolds(s.table, c);
    var q := LostTo(s.table, c);
    var x := Slot(c.vtable, q);
    assert s.table[x] != 0;
    var j :| 0 <= j < |s.claims| && EntryOf(s.claims[j]) == x;
    SameEntry(s, j, k);
  }

  lemma SameEntry(s: State, j: nat, k: nat)
    requires ClaimsInv(s) && j < |s.claims| && k < |s.claims| && EntryOf(s.claims[j]) != EntryOf(s.claims[k])
    requires s.table[EntryOf(s.claims[j])] == s.claims[k].vtable
    ensures ClaimedTwice(s, s.claims[k].vtable)
  {
    assert ClaimHolds(s.table, s.claims[j]);
    assert j != k && s.claims[j].vtable == s.claims[k].vtable;
    assert j < k || k < j;
  }

  // ---------------------------------------------------------------------------------------------
  // The step that does it, and what has to come before

  /** A thread fills an empty entry although its vtable already stands at one that it has passed. */
  predicate ClaimsAgain(s: State, step: Step, vtable: nat)
    requires Enabled(s, step)
  {
    && step.Swap? && s.threads[step.t].event.vtable == vtable
    && s.table[Slot(vtable, s.threads[step.t].probe)] == 0
    && exists q | 0 <= q < s.threads[step.t].probe :: s.table[Slot(vtable, q)] == vtable
  }

  /** One more claim doubles a vtable exactly when its claimer had lost an entry to it. */
  lemma ClaimDoublesIff(s: State, next: State, c: Claim, vtable: nat)
    requires ClaimsInv(s) && ClaimsInv(next) && next.claims == s.claims + [c] && !ClaimedTwice(s, vtable)
    ensures ClaimedTwice(next, vtable) <==> c.vtable == vtable && c.lost
  {
    hide ClaimHolds, ThreadPassed, EntryOf;
    var last := |s.claims|;
    if c.vtable == vtable && c.lost {
      LossMeansOther(next, last);
    }
    if ClaimedTwice(next, vtable) {
      var j, k :| 0 <= j < k <= last && next.claims[j].vtable == vtable && next.claims[k].vtable == vtable;
      OnlyTheLast(s, next, c, j, k);
    }
  }

  lemma OnlyTheLast(s: State, next: State, c: Claim, j: nat, k: nat)
    requires ClaimsInv(s) && ClaimsInv(next) && next.claims == s.claims + [c] && j < k <= |s.claims|
    requires next.claims[j].vtable == next.claims[k].vtable && !ClaimedTwice(s, next.claims[k].vtable)
    ensures next.claims[k] == c && c.lost
  {
    assert next.claims[j] == s.claims[j];
    assert k == |s.claims|;
    LaterProbeHadLost(next, j, k);
    if s.claims[j].lost {
      LossMeansOther(s, j);
    }
  }

  lemma NoClaimNoDouble(s: State, next: State, vtable: nat)
    requires next.claims == s.claims
    ensures ClaimedTwice(next, vtable) <==> ClaimedTwice(s, vtable)
  {
  }

  /** Of all steps exactly these turn a vtable that was claimed at most once into one that is claimed twice. */
  lemma StepDoublesIff(s: State, step: Step, vtable: nat)
    requires ClaimsInv(s) && Enabled(s, step) && !ClaimedTwice(s, vtable)
    ensures ClaimedTwice(Next(s, step), vtable) <==> ClaimsAgain(s, step, vtable)
  {
    var next := Next(s, step);
    var pc := s.threads[step.t];
    if step.Swap? && s.table[Slot(pc.event.vtable, pc.probe)] == 0 {
      StepKeepsClaims(s, step);
      assert ThreadPassed(s.table, pc);
      ClaimDoublesIff(s, next, Claim(pc.event.vtable, pc.probe, pc.lost), vtable);
    } else {
      NoClaimNoDouble(s, next, vtable);
    }
  }

  /** Two threads have seen the same entry empty, both for the same vtable. */
  predicate Racing(s: State) {
    exists t, u | 0 <= t < u < |s.threads| :: SameSwap(s.threads[t], s.threads[u])
  }

  predicate SameSwap(a: Pc, b: Pc) {
    a.Swapping? && b.Swapping? && a.event.vtable == b.event.vtable && a.probe == b.probe
  }

  predicate NeverRacing(s: State, steps: seq<Step>)
    requires CanRun(s, steps)
    decreases |steps|
  {
    !Racing(s) && (steps == [] || NeverRacing(Next(s, steps[0]), steps[1..]))
  }

  /** Nobody has lost an entry to its own vtable, nor is about to. */
  ghost predicate NoLoss(s: State) {
    && (forall k | 0 <= k < |s.claims| :: !s.claims[k].lost)
    && (forall t | 0 <= t < |s.threads| :: SafeThread(s.table, s.threads[t]))
  }

  predicate SafeThread(table: Table, pc: Pc) {
    match pc
    case Probing(_, _, lost) => !lost
    case Swapping(e, n, lost) => !lost && n < PROBES && e.vtable != 0 && table[Slot(e.vtable, n)] != e.vtable
    case _ => true
  }

  lemma LoadKeepsNoLoss(s: State, t: nat)
    requires NoLoss(s) && Enabled(s, Load(t))
    ensures NoLoss(Next(s, Load(t)))
  {
    var next := Next(s, Load(t));
    assert SafeThread(s.table, s.threads[t]);
    forall u | 0 <= u < |next.threads| ensures SafeThread(next.table, next.threads[u]) {
      if u != t {
        assert next.threads[u] == s.threads[u];
      }
    }
  }

  lemma SwapKeepsNoLoss(s: State, t: nat)
    requires NoLoss(s) && !Racing(s) && Enabled(s, Swap(t))
    ensures NoLoss(Next(s, Swap(t)))
  {
    var next := Next(s, Swap(t));
    assert SafeThread(s.table, s.threads[t]);
    forall u | 0 <= u < |next.threads| ensures SafeThread(next.table, next.threads[u]) {
      if u != t {
        assert next.threads[u] == s.threads[u] && SafeThread(s.table, s.threads[u]);
        OtherSwapIsSafe(s, t, u);
      }
    }
  }

  lemma SameEntryRaces(s: State, t: nat, u: nat)
    requires NoLoss(s) && t < |s.threads| && u < |s.threads| && t != u
    requires var a, b := s.threads[t], s.threads[u];
             && a.Swapping? && b.Swapping? && a.event.vtable == b.event.vtable
             && Slot(a.event.vtable, a.probe) == Slot(b.event.vtable, b.probe)
    ensures Racing(s)
  {
    var a, b := s.threads[t], s.threads[u];
    assert SafeThread(s.table, a) && SafeThread(s.table, b);
    SlotsInjective(a.event.vtable, a.probe, b.probe);
    assert SameSwap(a, b) && SameSwap(b, a);
    assert t < u || u < t;
  }

  lemma SlotsInjective(vtable: nat, p: nat, q: nat)
    requires p < PROBES && q < PROBES
    ensures Slot(vtable, p) == Slot(vtable, q) ==> p == q
  {
    if p < q {
      SlotsDiffer(vtable, p, q);
    } else if q < p {
      SlotsDiffer(vtable, q, p);
    }
  }

  /** An entry that another thread waits to fill is filled with another vtable, or the two would race. */
  lemma OtherSwapIsSafe(s: State, t: nat, u: nat)
    requires NoLoss(s) && !Racing(s) && Enabled(s, Swap(t)) && u < |s.threads| && u != t
    ensures SafeThread(Next(s, Swap(t)).table, s.threads[u])
  {
    var a, b := s.threads[t], s.threads[u];
    assert SafeThread(s.table, b);
    if b.Swapping? && Slot(b.event.vtable, b.probe) == Slot(a.event.vtable, a.probe) && a.event.vtable == b.event.vtable {
      SameEntryRaces(s, t, u);
    }
  }

  lemma StepKeepsNoLoss(s: State, step: Step)
    requires NoLoss(s) && !Racing(s) && Enabled(s, step)
    ensures NoLoss(Next(s, step))
  {
    match step {
      case Load(t) => LoadKeepsNoLoss(s, t);
      case Swap(t) => SwapKeepsNoLoss(s, t);
      case _ =>
        var next := Next(s, step);
        forall u | 0 <= u < |next.threads| ensures SafeThread(next.table, next.threads[u]) {
          if u != step.t {
            assert next.threads[u] == s.threads[u] && SafeThread(s.table, s.threads[u]);
          }
        }
    }
  }

  lemma {:induction false} RunKeepsNoLoss(s: State, steps: seq<Step>)
    requires NoLoss(s) && CanRun(s, steps) && NeverRacing(s, steps)
    ensures NoLoss(Run(s, steps))
    decreases |steps|
  {
    if steps != [] {
      StepKeepsNoLoss(s, steps[0]);
      RunKeepsNoLoss(Next(s, steps[0]), steps[1..]);
    }
  }

  /**
   * If no two calls for the same vtable ever stand between the load and the exchange of the same entry, in particular
   * if no two calls for it overlap, no vtable is claimed twice.
   */
  lemma WithoutRaceClaimedOnce(threads: nat, steps: seq<Step>, vtable: nat)
    requires CanRun(Start(threads), steps) && NeverRacing(Start(threads), steps)
    ensures !ClaimedTwice(Run(Start(threads), steps), vtable)
  {
    RunKeepsNoLoss(Start(threads), steps);
    ClaimedTwiceIff(threads, steps, vtable);
  }

  // ---------------------------------------------------------------------------------------------
  // A schedule in which it happens

  lemma {:induction false} Append(s: State, steps: seq<Step>, step: Step)
    requires CanRun(s, steps) && Enabled(Run(s, steps), step)
    ensures CanRun(s, steps + [step]) && Run(s, steps + [step]) == Next(Run(s, steps), step)
    decreases |steps|
  {
    var more := steps + [step];
    if steps == [] {
      assert more[1..] == [];
    } else {
      assert more[0] == steps[0] && more[1..] == steps[1..] + [step];
      Append(Next(s, steps[0]), steps[1..], step);
    }
  }

  lemma BothSeeEmpty() returns (steps: seq<Step>)
    ensures CanRun(Start(2), steps)
    ensures var s := Run(Start(2), steps);
            && s.threads == [Swapping(Event(1, 0, 16), 0, false), Swapping(Event(2, 0, 16), 0, false)]
            && s.claims == [] && s.table == seq(SEEN_CAPACITY, i => 0)
  {
    var start := Start(2);
    steps := [];
    Append(start, steps, Begin(0, 16));
    steps := steps + [Begin(0, 16)];
    Append(start, steps, Begin(1, 16));
    steps := steps + [Begin(1, 16)];
    Append(start, steps, Exchange(0));
    steps := steps + [Exchange(0)];
    Append(start, steps, Exchange(1));
    steps := steps + [Exchange(1)];
    Append(start, steps, Load(0));
    steps := steps + [Load(0)];
    Append(start, steps, Load(1));
    steps := steps + [Load(1)];
  }

  /** Two threads that see the same empty entry both claim the vtable. */
  lemma SameVtableClaimedTwice() returns (steps: seq<Step>)
    ensures CanRun(Start(2), steps) && ClaimedTwice(Run(Start(2), steps), 16)
  {
    var start := Start(2);
    steps := BothSeeEmpty();
    SlotsDiffer(16, 0, 1);
    Append(start, steps, Swap(0));
    steps := steps + [Swap(0)];
    Append(start, steps, Swap(1));
    steps := steps + [Swap(1)];
    Append(start, steps, Load(1));
    steps := steps + [Load(1)];
    Append(start, steps, Swap(1));
    steps := steps + [Swap(1)];
    var s := Run(start, steps);
    assert s.claims == [Claim(16, 0, false), Claim(16, 1, true)];
    assert s.claims[0].vtable == 16 && s.claims[1].vtable == 16;
  }
}
