/** The command probe's shared counters and its table of first-seen vtables. */
module CommandProbe {

  const LIMIT: nat := 0x1_0000_0000_0000_0000
  const SEEN_CAPACITY: nat := 4096
  const PROBES: nat := 32

  /** The table entry that probe number `probe` looks at. */
  function Slot(vtable: nat, probe: nat): (i: nat)
    ensures i < SEEN_CAPACITY
  {
    ((vtable / 16) % SEEN_CAPACITY + probe) % SEEN_CAPACITY
  }

  lemma SlotsDiffer(vtable: nat, p: nat, q: nat)
    requires p < q < PROBES
    ensures Slot(vtable, p) != Slot(vtable, q)
  {
    var a := (vtable / 16) % SEEN_CAPACITY;
    Wrapped(a, p);
    Wrapped(a, q);
  }

  lemma Wrapped(a: nat, p: nat)
    requires a < SEEN_CAPACITY && p < SEEN_CAPACITY
    ensures (a + p) % SEEN_CAPACITY == if a + p < SEEN_CAPACITY then a + p else a + p - SEEN_CAPACITY
  {
  }

  type Table = t: seq<nat> | |t| == SEEN_CAPACITY witness seq(SEEN_CAPACITY, i => 0)

  /** Claiming while no other thread interferes: whether the claim succeeds, and the table afterwards. */
  function ClaimFrom(table: Table, vtable: nat, probe: nat): (bool, Table)
    requires probe <= PROBES
    decreases PROBES - probe
  {
    if probe == PROBES then (false, table)
    else
      var i := Slot(vtable, probe);
      if table[i] == vtable then (false, table)
      else if table[i] == 0 then (true, table[i := vtable])
      else ClaimFrom(table, vtable, probe + 1)
  }

  class Probe {
    var sequence: nat
    var dropped: nat
    const seen: array<nat>

    ghost predicate Valid()
      reads this
    {
      seen.Length == SEEN_CAPACITY && dropped < LIMIT
    }

    constructor ()
      ensures Valid() && sequence == 0 && dropped == 0 && fresh(seen)
      ensures seen[..] == seq(SEEN_CAPACITY, i => 0)
    {
      sequence, dropped := 0, 0;
      seen := new nat[SEEN_CAPACITY](i => 0);
    }

    method NextSequence() returns (number: nat)
      requires Valid()
      modifies this`sequence
      ensures number == sequence == old(sequence) + 1
    {
      sequence := sequence + 1;
      return sequence;
    }

    method TakeDropped() returns (count: nat)
      requires Valid()
      modifies this`dropped
      ensures Valid() && count == old(dropped) && dropped == 0
    {
      count := dropped;
      dropped := 0;
    }

    /** A failed write hands back what it carried, and itself. */
    method GiveBack(carried: nat)
      requires Valid()
      modifies this`dropped
      ensures Valid() && dropped == (old(dropped) + carried + 1) % LIMIT
    {
      dropped := (dropped + carried + 1) % LIMIT;
    }

    method ClaimFirstVtable(vtable: nat) returns (first: bool)
      requires Valid()
      modifies seen
      ensures (first, seen[..]) == ClaimFrom(old(seen[..]), vtable, 0)
    {
      var probe := 0;
      while probe < PROBES
        invariant 0 <= probe <= PROBES && seen[..] == old(seen[..])
        invariant ClaimFrom(seen[..], vtable, 0) == ClaimFrom(seen[..], vtable, probe)
      {
        var i := Slot(vtable, probe);
        var observed := seen[i];
        if observed == vtable {
          return false;
        }
        if observed == 0 {
          seen[i] := vtable;
          return true;
        }
        probe := probe + 1;
      }
      return false;
    }
  }

  /** Without interference a vtable is claimed at most once. */
  lemma {:induction false} SecondClaimFails(table: Table, vtable: nat, probe: nat)
    requires probe <= PROBES && vtable != 0
    ensures !ClaimFrom(ClaimFrom(table, vtable, probe).1, vtable, probe).0
    decreases PROBES - probe
  {
    if probe < PROBES {
      var i := Slot(vtable, probe);
      if table[i] != vtable && table[i] != 0 {
        SecondClaimFails(table, vtable, probe + 1);
        ClaimKeepsOccupied(table, vtable, probe + 1, i);
      }
    }
  }

  /** An occupied entry is never overwritten. */
  lemma {:induction false} ClaimKeepsOccupied(table: Table, vtable: nat, probe: nat, i: nat)
    requires probe <= PROBES && i < SEEN_CAPACITY && table[i] != 0
    ensures ClaimFrom(table, vtable, probe).1[i] == table[i]
    decreases PROBES - probe
  {
    if probe < PROBES {
      ClaimKeepsOccupied(table, vtable, probe + 1, i);
    }
  }

  /** Vtables are aligned to sixteen bytes; the probes of one start at its own entry and go round the table. */
  lemma SlotIs(n: nat, probe: nat)
    requires probe < 4096
    ensures Slot(16 * n, probe) == (n + probe) % 4096
  {
    assert 16 * n / 16 == n;
  }

  /** A claim may stop at this probe: the entry is empty, and no earlier one is empty or holds the vtable. */
  predicate FreeAt(table: Table, vtable: nat, from: nat, probe: nat) {
    && from <= probe < 32 && table[Slot(vtable, probe)] == 0
    && forall k | from <= k < probe :: table[Slot(vtable, k)] != 0 && table[Slot(vtable, k)] != vtable
  }

  /**
   * Without interference a vtable is claimed exactly when one of its 32 probes meets an empty entry before it meets
   * the vtable; it then stands in the first such entry, and no other entry has changed.
   */
  lemma {:induction false} ClaimSucceedsIff(table: Table, vtable: nat, probe: nat)
    requires probe <= PROBES && vtable != 0
    ensures ClaimFrom(table, vtable, probe).0 <==> exists k :: FreeAt(table, vtable, probe, k)
    ensures forall k | FreeAt(table, vtable, probe, k) :: ClaimFrom(table, vtable, probe).1 == table[Slot(vtable, k) := vtable]
    ensures !ClaimFrom(table, vtable, probe).0 ==> ClaimFrom(table, vtable, probe).1 == table
    decreases PROBES - probe
  {
    hide Slot;
    if probe < PROBES {
      var found := table[Slot(vtable, probe)];
      if found == 0 {
        assert FreeAt(table, vtable, probe, probe);
      } else if found != vtable {
        ClaimSucceedsIff(table, vtable, probe + 1);
        FreeLater(table, vtable, probe);
        var next := probe + 1;
        assert ClaimFrom(table, vtable, probe) == ClaimFrom(table, vtable, next);
        if k: nat :| FreeAt(table, vtable, next, k) {
          assert FreeAt(table, vtable, probe, k);
        }
        if k: nat :| FreeAt(table, vtable, probe, k) {
          assert FreeAt(table, vtable, next, k);
        }
      } else {
        NotFree(table, vtable, probe);
      }
    } else {
      assert forall k :: !FreeAt(table, vtable, probe, k);
    }
  }

  lemma FreeLater(table: Table, vtable: nat, probe: nat)
    requires probe < PROBES && table[Slot(vtable, probe)] != 0 && table[Slot(vtable, probe)] != vtable
    ensures var next := probe + 1; forall k :: FreeAt(table, vtable, probe, k) <==> FreeAt(table, vtable, next, k)
  {
    hide Slot;
  }

  lemma NotFree(table: Table, vtable: nat, probe: nat)
    requires probe < PROBES && table[Slot(vtable, probe)] == vtable != 0
    ensures forall k :: !FreeAt(table, vtable, probe, k)
  {
    hide Slot;
  }

  /** The first claim of any vtable succeeds in an empty table. */
  lemma FirstClaimSucceeds(table: Table, vtable: nat)
    requires vtable != 0 && forall i | 0 <= i < SEEN_CAPACITY :: table[i] == 0
    ensures ClaimFrom(table, vtable, 0) == (true, table[Slot(vtable, 0) := vtable])
  {
    hide Slot;
  }
}
