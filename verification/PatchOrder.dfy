/** Patches sorted by where they apply, and the order in which strings are spliced. */
module PatchOrder {
  import opened CaptureAction

  /** Patches in ascending order that neither overlap nor leave the `limit` bytes of the body. */
  predicate Layout(ps: seq<Patch>, from: nat, limit: nat)
    decreases |ps|
  {
    if ps == [] then from <= limit
    else from <= ps[0].offset && Layout(ps[1..], ps[0].offset + Extent(ps[0]), limit)
  }

  lemma {:induction false} LayoutFits(ps: seq<Patch>, from: nat, limit: nat)
    requires Layout(ps, from, limit)
    ensures from <= limit
    decreases |ps|
  {
    if ps != [] {
      LayoutFits(ps[1..], ps[0].offset + Extent(ps[0]), limit);
    }
  }

  // ---------------------------------------------------------------------------------------------
  // Orders of patches

  predicate Apart(p: Patch, q: Patch) {
    p.offset + Extent(p) <= q.offset || q.offset + Extent(q) <= p.offset
  }

  predicate Separate(ps: seq<Patch>) {
    forall i, j | 0 <= i < j < |ps| :: Apart(ps[i], ps[j])
  }

  predicate InBounds(ps: seq<Patch>, limit: nat) {
    forall i | 0 <= i < |ps| :: ps[i].offset + Extent(ps[i]) <= limit
  }

  function Reverse(s: seq<Patch>): (r: seq<Patch>)
    ensures |r| == |s| && forall i | 0 <= i < |s| :: r[i] == s[|s| - 1 - i]
  {
    if s == [] then [] else Reverse(s[1..]) + [s[0]]
  }

  function InOrder(ps: seq<Patch>): seq<Patch> {
    Reverse(Descending(ps))
  }

  lemma {:induction false} InsertKeepsSeparate(p: Patch, ps: seq<Patch>)
    requires DescendingOffsets(ps) && Separate([p] + ps)
    ensures Separate(InsertDescending(p, ps))
  {
    if ps != [] && p.offset < ps[0].offset {
      assert Separate([p] + ps[1..]) by {
        forall i, j | 0 <= i < j < |[p] + ps[1..]|
          ensures Apart(([p] + ps[1..])[i], ([p] + ps[1..])[j])
        {
          assert Apart(([p] + ps)[if i == 0 then 0 else i + 1], ([p] + ps)[j + 1]);
        }
      }
      InsertKeepsSeparate(p, ps[1..]);
      var rest := InsertDescending(p, ps[1..]);
      forall j | 0 <= j < |rest|
        ensures Apart(ps[0], rest[j])
      {
        assert rest[j] in rest;
        if rest[j] == p {
          assert Apart(([p] + ps)[0], ([p] + ps)[1]);
        } else {
          var k :| 0 <= k < |ps[1..]| && ps[1..][k] == rest[j];
          assert Apart(([p] + ps)[1], ([p] + ps)[k + 2]);
        }
      }
    }
  }

  lemma {:induction false} DescendingKeepsSeparate(ps: seq<Patch>)
    requires Separate(ps)
    ensures Separate(Descending(ps))
  {
    if ps != [] {
      assert Separate(ps[1..]) by {
        assert forall i | 0 <= i < |ps| - 1 :: ps[1..][i] == ps[i + 1];
      }
      DescendingKeepsSeparate(ps[1..]);
      var rest := Descending(ps[1..]);
      forall j | 0 <= j < |rest|
        ensures Apart(ps[0], rest[j])
      {
        assert rest[j] in rest;
        var k :| 0 <= k < |ps[1..]| && ps[1..][k] == rest[j];
        assert Apart(ps[0], ps[k + 1]);
      }
      InsertKeepsSeparate(ps[0], rest);
    }
  }

  lemma {:induction false} LayoutOfOrdered(ps: seq<Patch>, from: nat, limit: nat)
    requires forall i, j | 0 <= i < j < |ps| :: ps[i].offset + Extent(ps[i]) <= ps[j].offset
    requires InBounds(ps, limit) && from <= limit && (ps != [] ==> from <= ps[0].offset)
    ensures Layout(ps, from, limit)
    decreases |ps|
  {
    if ps != [] {
      assert forall i | 0 <= i < |ps| - 1 :: ps[1..][i] == ps[i + 1];
      LayoutOfOrdered(ps[1..], ps[0].offset + Extent(ps[0]), limit);
    }
  }

  lemma ReverseMembers(s: seq<Patch>)
    ensures forall x :: x in Reverse(s) <==> x in s
  {
    var r := Reverse(s);
    forall i | 0 <= i < |s|
      ensures s[i] in r && r[i] in s
    {
      assert r[|s| - 1 - i] == s[i] && s[|s| - 1 - i] == r[i];
    }
  }

  lemma ApartInOrder(down: seq<Patch>, a: nat, b: nat)
    requires Separate(down) && DescendingOffsets(down) && a < b < |down|
    ensures down[b].offset + Extent(down[b]) <= down[a].offset
  {
    assert Apart(down[a], down[b]);
  }

  lemma PairAscends(ps: seq<Patch>, i: nat, j: nat)
    requires Separate(ps) && i < j < |InOrder(ps)|
    ensures InOrder(ps)[i].offset + Extent(InOrder(ps)[i]) <= InOrder(ps)[j].offset
  {
    DescendingKeepsSeparate(ps);
    var down := Descending(ps);
    var a, b := |down| - 1 - j, |down| - 1 - i;
    ApartInOrder(down, a, b);
    assert InOrder(ps)[i] == down[b] && InOrder(ps)[j] == down[a];
  }

  lemma InOrderAscends(ps: seq<Patch>)
    requires Separate(ps)
    ensures var up := InOrder(ps);
            forall i, j | 0 <= i < j < |up| :: up[i].offset + Extent(up[i]) <= up[j].offset
  {
    var up := InOrder(ps);
    forall i, j | 0 <= i < j < |up|
      ensures up[i].offset + Extent(up[i]) <= up[j].offset
    {
      PairAscends(ps, i, j);
    }
  }

  lemma InOrderHasLayout(ps: seq<Patch>, limit: nat)
    requires Separate(ps) && InBounds(ps, limit)
    ensures Layout(InOrder(ps), 0, limit)
    ensures forall p :: p in InOrder(ps) <==> p in ps
  {
    ReverseMembers(Descending(ps));
    InOrderAscends(ps);
    var up := InOrder(ps);
    forall i | 0 <= i < |up|
      ensures up[i].offset + Extent(up[i]) <= limit
    {
      assert up[i] in ps;
    }
    LayoutOfOrdered(up, 0, limit);
  }

  lemma Tail(x: Patch, s: seq<Patch>)
    ensures ([x] + s)[0] == x && ([x] + s)[1..] == s
  {
  }

  lemma StringsCons(p: Patch, ps: seq<Patch>)
    ensures Strings([p] + ps) == if p.kind.Ascii? then [p] + Strings(ps) else Strings(ps)
  {
    Tail(p, ps);
  }

  lemma {:induction false} StringsDescend(ps: seq<Patch>)
    requires DescendingOffsets(ps)
    ensures DescendingOffsets(Strings(ps))
  {
    if ps != [] {
      StringsDescend(ps[1..]);
      StringsMembers(ps[1..]);
      var rest := Strings(ps[1..]);
      forall i | 0 <= i < |rest|
        ensures rest[i].offset <= ps[0].offset
      {
        assert rest[i] in ps[1..];
      }
    }
  }

  lemma InsertAtFront(p: Patch, ps: seq<Patch>)
    requires DescendingOffsets(ps) && forall q | q in ps :: p.offset >= q.offset
    ensures InsertDescending(p, ps) == [p] + ps
  {
  }

  lemma InsertBehind(p: Patch, first: Patch, rest: seq<Patch>)
    requires DescendingOffsets([first] + rest) && DescendingOffsets(rest) && p.offset < first.offset
    ensures InsertDescending(p, [first] + rest) == [first] + InsertDescending(p, rest)
  {
    Tail(first, rest);
  }

  /** Sorting the strings is sorting everything and keeping the strings. */
  lemma {:induction false} InsertThenFilter(p: Patch, ps: seq<Patch>)
    requires DescendingOffsets(ps)
    ensures DescendingOffsets(Strings(ps))
    ensures Strings(InsertDescending(p, ps))
            == if p.kind.Ascii? then InsertDescending(p, Strings(ps)) else Strings(ps)
  {
    StringsDescend(ps);
    if ps == [] || p.offset >= ps[0].offset {
      StringsCons(p, ps);
      StringsMembers(ps);
      InsertAtFront(p, Strings(ps));
    } else {
      var first, rest := ps[0], ps[1..];
      assert ps == [first] + rest;
      InsertThenFilter(p, rest);
      StringsCons(first, InsertDescending(p, rest));
      if p.kind.Ascii? && first.kind.Ascii? {
        InsertBehind(p, first, Strings(rest));
      }
    }
  }

  lemma {:induction false} SortThenFilter(ps: seq<Patch>)
    ensures Descending(Strings(ps)) == Strings(Descending(ps))
  {
    if ps != [] {
      SortThenFilter(ps[1..]);
      InsertThenFilter(ps[0], Descending(ps[1..]));
      Tail(ps[0], Strings(ps[1..]));
    }
  }

  lemma {:induction false} StringsLast(ps: seq<Patch>, last: Patch)
    ensures Strings(ps + [last]) == if last.kind.Ascii? then Strings(ps) + [last] else Strings(ps)
  {
    if ps == [] {
      assert ps + [last] == [last] + [];
      StringsCons(last, []);
    } else {
      StringsLast(ps[1..], last);
      assert ps + [last] == [ps[0]] + (ps[1..] + [last]);
      StringsCons(ps[0], ps[1..] + [last]);
    }
  }

  lemma {:induction false} ReverseThenFilter(ps: seq<Patch>)
    ensures Strings(Reverse(ps)) == Reverse(Strings(ps))
  {
    if ps != [] {
      ReverseThenFilter(ps[1..]);
      StringsLast(Reverse(ps[1..]), ps[0]);
      Tail(ps[0], Strings(ps[1..]));
    }
  }

  lemma ReverseTwice(s: seq<Patch>)
    ensures Reverse(Reverse(s)) == s
  {
  }

  /** The order in which the strings are spliced is the reverse of their order in the body. */
  lemma SpliceOrder(ps: seq<Patch>)
    ensures Descending(Strings(ps)) == Reverse(Strings(InOrder(ps)))
  {
    SortThenFilter(ps);
    ReverseThenFilter(Descending(ps));
    ReverseTwice(Strings(Descending(ps)));
  }
}
