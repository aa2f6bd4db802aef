/**
 * Patching a captured body: numbers in place and then strings from the last to the first amount to one
 * simultaneous substitution into the template.
 */
module CaptureSubstitution {
  import opened Basics
  import opened CaptureAction
  import opened PatchOrder
  import opened Substitution

  // ---------------------------------------------------------------------------------------------
  // The substitution

  predicate AllEncodable(ps: seq<Patch>, fields: seq<string>) {
    forall i | 0 <= i < |ps| :: Encodable(ps[i], fields)
  }

  /** The edit that a patch makes: its captured range and the encoded field. */
  function EditOf(p: Patch, fields: seq<string>): Edit
    requires Encodable(p, fields)
  {
    Edit(p.offset, Extent(p), Encoded(p, fields).value)
  }

  function Edits(ps: seq<Patch>, fields: seq<string>): (es: seq<Edit>)
    requires AllEncodable(ps, fields)
    ensures |es| == |ps| && forall i | 0 <= i < |ps| :: es[i] == EditOf(ps[i], fields)
  {
    seq(|ps|, i requires 0 <= i < |ps| => EditOf(ps[i], fields))
  }

  lemma RestEncodable(ps: seq<Patch>, fields: seq<string>)
    requires ps != [] && AllEncodable(ps, fields)
    ensures AllEncodable(ps[1..], fields) && Encodable(ps[0], fields)
    ensures Edits(ps[1..], fields) == Edits(ps, fields)[1..]
  {
    assert forall i | 0 <= i < |ps| - 1 :: ps[1..][i] == ps[i + 1];
  }

  lemma {:induction false} EditsFit(ps: seq<Patch>, from: nat, limit: nat, fields: seq<string>)
    requires Layout(ps, from, limit) && AllEncodable(ps, fields)
    ensures Fits(Edits(ps, fields), from, limit)
    decreases |ps|
  {
    if ps != [] {
      RestEncodable(ps, fields);
      EditsFit(ps[1..], ps[0].offset + Extent(ps[0]), limit, fields);
    }
  }

  /** The template from position `from` on, every patched range replaced by its value. */
  function Substitute(template: seq<byte>, from: nat, ps: seq<Patch>, fields: seq<string>): seq<byte>
    requires Layout(ps, from, |template|) && AllEncodable(ps, fields)
  {
    EditsFit(ps, from, |template|, fields);
    Apply(template, from, Edits(ps, fields))
  }

  // ---------------------------------------------------------------------------------------------
  // Numbers in place

  predicate Covers(p: Patch, i: int) {
    !p.kind.Ascii? && p.offset <= i < p.offset + Extent(p)
  }

  predicate Covered(ps: seq<Patch>, i: int) {
    exists k :: 0 <= k < |ps| && Covers(ps[k], i)
  }

  lemma CoveredFirst(ps: seq<Patch>, i: int)
    requires ps != []
    ensures Covered(ps, i) <==> Covers(ps[0], i) || Covered(ps[1..], i)
  {
    if Covered(ps[1..], i) {
      var k :| 0 <= k < |ps[1..]| && Covers(ps[1..][k], i);
      assert Covers(ps[k + 1], i);
    }
    if Covered(ps, i) && !Covers(ps[0], i) {
      var k :| 0 <= k < |ps| && Covers(ps[k], i);
      assert Covers(ps[1..][k - 1], i);
    }
  }

  predicate HoldsValue(body: seq<byte>, p: Patch, fields: seq<string>)
    requires Encodable(p, fields) && p.offset + |Encoded(p, fields).value| <= |body|
  {
    body[p.offset..p.offset + |Encoded(p, fields).value|] == Encoded(p, fields).value
  }

  predicate NumbersEncodable(ps: seq<Patch>, fields: seq<string>) {
    forall i | 0 <= i < |ps| :: ps[i].field < |fields| && (ps[i].kind.Ascii? || Encodable(ps[i], fields))
  }

  /** After the number writes: every number patch holds its value, every other byte is the template's. */
  predicate Written(template: seq<byte>, body: seq<byte>, from: nat, ps: seq<Patch>, fields: seq<string>) {
    && |body| == |template|
    && (forall i | from <= i < |template| && !Covered(ps, i) :: body[i] == template[i])
    && (forall k | 0 <= k < |ps| && !ps[k].kind.Ascii? ::
          Encodable(ps[k], fields) && ps[k].offset + Extent(ps[k]) <= |body| && HoldsValue(body, ps[k], fields))
  }

  lemma {:induction false} NumbersAreWritten(body: seq<byte>, ps: seq<Patch>, fields: seq<string>)
    requires Separate(ps) && InBounds(ps, |body|)
    ensures Numbers(body, ps, fields).Some? <==> NumbersEncodable(ps, fields)
    ensures Numbers(body, ps, fields).Some? ==> Written(body, Numbers(body, ps, fields).value, 0, ps, fields)
    decreases |ps|
  {
    if ps != [] {
      var p, rest := ps[0], ps[1..];
      assert forall i | 0 <= i < |rest| :: rest[i] == ps[i + 1];
      if p.field < |fields| && (p.kind.Ascii? || Encodable(p, fields)) {
        var body' := if p.kind.Ascii? then body else Overwrite(body, p.offset, Encoded(p, fields).value);
        NumbersAreWritten(body', rest, fields);
        if Numbers(body', rest, fields).Some? {
          FirstNumberSurvives(body, body', Numbers(body', rest, fields).value, ps, fields);
        }
        assert NumbersEncodable(rest, fields) ==> NumbersEncodable(ps, fields);
      }
    }
  }

  lemma FirstNumberSurvives(
    body: seq<byte>, body': seq<byte>, final: seq<byte>, ps: seq<Patch>, fields: seq<string>)
    requires ps != [] && Separate(ps) && InBounds(ps, |body|)
    requires ps[0].field < |fields| && (ps[0].kind.Ascii? || Encodable(ps[0], fields))
    requires body' == if ps[0].kind.Ascii? then body else Overwrite(body, ps[0].offset, Encoded(ps[0], fields).value)
    requires Written(body', final, 0, ps[1..], fields)
    ensures Written(body, final, 0, ps, fields)
  {
    var p, rest := ps[0], ps[1..];
    forall i | 0 <= i < |body| && !Covered(ps, i)
      ensures final[i] == body[i]
    {
      CoveredFirst(ps, i);
    }
    if !p.kind.Ascii? {
      forall i | p.offset <= i < p.offset + Extent(p)
        ensures final[i] == body'[i]
      {
        forall k | 0 <= k < |rest|
          ensures !Covers(rest[k], i)
        {
          assert Apart(ps[0], ps[k + 1]);
        }
      }
      assert final[p.offset..p.offset + Extent(p)] == Encoded(p, fields).value;
    }
    forall k | 0 <= k < |ps| && !ps[k].kind.Ascii?
      ensures Encodable(ps[k], fields) && ps[k].offset + Extent(ps[k]) <= |final| && HoldsValue(final, ps[k], fields)
    {
      if k > 0 {
        assert rest[k - 1] == ps[k];
      }
    }
  }

  // ---------------------------------------------------------------------------------------------
  // Numbers are part of the substitution

  lemma SubstituteSkip(body: seq<byte>, from: nat, mid: nat, ps: seq<Patch>, fields: seq<string>)
    requires from <= mid && Layout(ps, mid, |body|) && AllEncodable(ps, fields)
    ensures mid <= |body| && Layout(ps, from, |body|)
    ensures Substitute(body, from, ps, fields) == body[from..mid] + Substitute(body, mid, ps, fields)
  {
    LayoutFits(ps, mid, |body|);
    EditsFit(ps, mid, |body|, fields);
    ApplySkip(body, from, mid, Edits(ps, fields));
  }

  lemma {:induction false} LayoutOfStrings(ps: seq<Patch>, from: nat, limit: nat)
    requires Layout(ps, from, limit)
    ensures Layout(Strings(ps), from, limit)
    decreases |ps|
  {
    if ps != [] {
      var next := ps[0].offset + Extent(ps[0]);
      LayoutOfStrings(ps[1..], next, limit);
      Tail(ps[0], Strings(ps[1..]));
      if !ps[0].kind.Ascii? {
        LayoutFrom(Strings(ps[1..]), from, next, limit);
      }
    }
  }

  lemma LayoutFrom(ps: seq<Patch>, from: nat, mid: nat, limit: nat)
    requires from <= mid && Layout(ps, mid, limit)
    ensures Layout(ps, from, limit)
  {
    LayoutFits(ps, mid, limit);
  }

  lemma StringsEncodable(ps: seq<Patch>, fields: seq<string>)
    requires AllEncodable(ps, fields)
    ensures AllEncodable(Strings(ps), fields)
  {
    forall i | 0 <= i < |Strings(ps)|
      ensures Encodable(Strings(ps)[i], fields)
    {
      StringsMembers(ps);
      assert Strings(ps)[i] in Strings(ps);
    }
  }

  lemma NothingToSubstitute(template: seq<byte>, body: seq<byte>, from: nat, fields: seq<string>)
    requires from <= |template| && Written(template, body, from, [], fields)
    ensures Substitute(template, from, [], fields) == Substitute(body, from, [], fields)
  {
    assert template[from..] == body[from..];
  }

  lemma {:induction false} NumbersThenStrings(
    template: seq<byte>, body: seq<byte>, from: nat, ps: seq<Patch>, fields: seq<string>)
    requires Layout(ps, from, |template|) && AllEncodable(ps, fields)
    requires Written(template, body, from, ps, fields)
    ensures Layout(Strings(ps), from, |body|) && AllEncodable(Strings(ps), fields)
    ensures Substitute(template, from, ps, fields) == Substitute(body, from, Strings(ps), fields)
    decreases |ps|
  {
    hide Substitute;
    LayoutFits(ps, from, |template|);
    LayoutOfStrings(ps, from, |template|);
    StringsEncodable(ps, fields);
    if ps == [] {
      NothingToSubstitute(template, body, from, fields);
    } else {
      var next := ps[0].offset + Extent(ps[0]);
      WrittenRest(template, body, from, ps, fields);
      NumbersThenStrings(template, body, next, ps[1..], fields);
      GapIsKept(template, body, from, ps, fields);
      Tail(ps[0], Strings(ps[1..]));
      if ps[0].kind.Ascii? {
        SubstituteSame(template, body, from, ps, Strings(ps), fields);
      } else {
        SubstituteNumber(template, body, from, ps, fields);
      }
    }
  }

  /** Two substitutions with the same first patch, the same bytes before it and the same rest. */
  lemma SubstituteSame(t: seq<byte>, u: seq<byte>, from: nat, ps: seq<Patch>, qs: seq<Patch>, fields: seq<string>)
    requires ps != [] && qs != [] && ps[0] == qs[0]
    requires Layout(ps, from, |t|) && AllEncodable(ps, fields) && Layout(qs, from, |u|) && AllEncodable(qs, fields)
    requires ps[0].offset <= |t| && ps[0].offset <= |u| && t[from..ps[0].offset] == u[from..ps[0].offset]
    requires Substitute(t, ps[0].offset + Extent(ps[0]), ps[1..], fields)
             == Substitute(u, ps[0].offset + Extent(ps[0]), qs[1..], fields)
    ensures Substitute(t, from, ps, fields) == Substitute(u, from, qs, fields)
  {
    SubstituteFirst(t, from, ps, fields);
    SubstituteFirst(u, from, qs, fields);
  }

  lemma SameFront(t: seq<byte>, u: seq<byte>, value: seq<byte>, front: seq<byte>, rest: seq<byte>)
    requires t == u && front == u + value
    ensures t + value + rest == front + rest
  {
  }

  lemma SubstituteNumber(template: seq<byte>, body: seq<byte>, from: nat, ps: seq<Patch>, fields: seq<string>)
    requires ps != [] && !ps[0].kind.Ascii? && Layout(ps, from, |template|) && AllEncodable(ps, fields)
    requires |body| == |template| && ps[0].offset + Extent(ps[0]) <= |body| && HoldsValue(body, ps[0], fields)
    requires template[from..ps[0].offset] == body[from..ps[0].offset]
    requires var next := ps[0].offset + Extent(ps[0]);
             && Layout(Strings(ps[1..]), next, |body|) && AllEncodable(Strings(ps[1..]), fields)
             && Substitute(template, next, ps[1..], fields) == Substitute(body, next, Strings(ps[1..]), fields)
    ensures Layout(Strings(ps[1..]), from, |body|)
    ensures Substitute(template, from, ps, fields) == Substitute(body, from, Strings(ps[1..]), fields)
  {
    hide *;
    NumberFirst(template, body, from, ps, fields);
    SubstituteSkip(body, from, ps[0].offset + Extent(ps[0]), Strings(ps[1..]), fields);
  }

  lemma NumberFirst(template: seq<byte>, body: seq<byte>, from: nat, ps: seq<Patch>, fields: seq<string>)
    requires ps != [] && !ps[0].kind.Ascii? && Layout(ps, from, |template|) && AllEncodable(ps, fields)
    requires |body| == |template| && ps[0].offset + Extent(ps[0]) <= |body| && HoldsValue(body, ps[0], fields)
    requires template[from..ps[0].offset] == body[from..ps[0].offset]
    ensures var next := ps[0].offset + Extent(ps[0]);
            && from <= next && Layout(ps[1..], next, |template|) && AllEncodable(ps[1..], fields)
            && Substitute(template, from, ps, fields)
               == body[from..next] + Substitute(template, next, ps[1..], fields)
  {
    SubstituteFirst(template, from, ps, fields);
    NumberText(
      template, body, from, ps[0], fields, Substitute(template, ps[0].offset + Extent(ps[0]), ps[1..], fields));
  }

  lemma NumberText(template: seq<byte>, body: seq<byte>, from: nat, p: Patch, fields: seq<string>, rest: seq<byte>)
    requires !p.kind.Ascii? && Encodable(p, fields) && from <= p.offset && p.offset + Extent(p) <= |body| == |template|
    requires HoldsValue(body, p, fields) && template[from..p.offset] == body[from..p.offset]
    ensures template[from..p.offset] + Encoded(p, fields).value + rest == body[from..p.offset + Extent(p)] + rest
  {
    NumberInGap(body, from, p, fields);
    SameFront(
      template[from..p.offset], body[from..p.offset], Encoded(p, fields).value, body[from..p.offset + Extent(p)], rest);
  }

  /** The substitution, opened at its first patch. */
  lemma SubstituteFirst(template: seq<byte>, from: nat, ps: seq<Patch>, fields: seq<string>)
    requires ps != [] && Layout(ps, from, |template|) && AllEncodable(ps, fields)
    ensures var next := ps[0].offset + Extent(ps[0]);
            && from <= ps[0].offset && next <= |template|
            && Layout(ps[1..], next, |template|) && AllEncodable(ps[1..], fields) && Encodable(ps[0], fields)
            && Substitute(template, from, ps, fields)
               == template[from..ps[0].offset] + Encoded(ps[0], fields).value
                  + Substitute(template, next, ps[1..], fields)
  {
    LayoutFits(ps[1..], ps[0].offset + Extent(ps[0]), |template|);
    RestEncodable(ps, fields);
    EditsFit(ps, from, |template|, fields);
  }

  lemma NumberInGap(body: seq<byte>, from: nat, p: Patch, fields: seq<string>)
    requires !p.kind.Ascii? && Encodable(p, fields) && from <= p.offset && p.offset + Extent(p) <= |body|
    requires HoldsValue(body, p, fields)
    ensures body[from..p.offset + Extent(p)] == body[from..p.offset] + Encoded(p, fields).value
  {
    assert body[from..p.offset + Extent(p)] == body[from..p.offset] + body[p.offset..p.offset + Extent(p)];
  }

  lemma WrittenRest(template: seq<byte>, body: seq<byte>, from: nat, ps: seq<Patch>, fields: seq<string>)
    requires ps != [] && Layout(ps, from, |template|) && Written(template, body, from, ps, fields)
    ensures Written(template, body, ps[0].offset + Extent(ps[0]), ps[1..], fields)
  {
    var rest := ps[1..];
    forall i | ps[0].offset + Extent(ps[0]) <= i < |template| && !Covered(rest, i)
      ensures body[i] == template[i]
    {
      CoveredFirst(ps, i);
    }
    assert forall k | 0 <= k < |rest| :: rest[k] == ps[k + 1];
  }

  lemma {:induction false} LaterPatchesStartLater(ps: seq<Patch>, from: nat, limit: nat)
    requires Layout(ps, from, limit)
    ensures forall k | 0 <= k < |ps| :: from <= ps[k].offset && ps[k].offset + Extent(ps[k]) <= limit
    decreases |ps|
  {
    if ps != [] {
      LaterPatchesStartLater(ps[1..], ps[0].offset + Extent(ps[0]), limit);
      LayoutFits(ps[1..], ps[0].offset + Extent(ps[0]), limit);
      forall k | 0 <= k < |ps|
        ensures from <= ps[k].offset && ps[k].offset + Extent(ps[k]) <= limit
      {
        if k > 0 {
          assert ps[1..][k - 1] == ps[k];
        }
      }
    }
  }

  lemma GapIsKept(template: seq<byte>, body: seq<byte>, from: nat, ps: seq<Patch>, fields: seq<string>)
    requires ps != [] && Layout(ps, from, |template|) && Written(template, body, from, ps, fields)
    ensures ps[0].offset <= |template| && template[from..ps[0].offset] == body[from..ps[0].offset]
  {
    LaterPatchesStartLater(ps, from, |template|);
    LaterPatchesStartLater(ps[1..], ps[0].offset + Extent(ps[0]), |template|);
    forall i | from <= i < ps[0].offset
      ensures template[i] == body[i]
    {
      forall k | 0 <= k < |ps|
        ensures !Covers(ps[k], i)
      {
        if k > 0 {
          assert ps[1..][k - 1] == ps[k];
        }
      }
    }
  }

  // ---------------------------------------------------------------------------------------------
  // Splicing from the last string to the first

  lemma {:induction false} LayoutSplit(front: seq<Patch>, last: Patch, from: nat, limit: nat)
    requires Layout(front + [last], from, limit)
    ensures Layout(front, from, last.offset) && last.offset + Extent(last) <= limit
    decreases |front|
  {
    if front == [] {
      assert front + [last] == [last];
      assert [last][1..] == [];
    } else {
      assert (front + [last])[1..] == front[1..] + [last];
      LayoutSplit(front[1..], last, front[0].offset + Extent(front[0]), limit);
    }
  }

  lemma {:induction false} LayoutWiden(ps: seq<Patch>, from: nat, limit: nat, wider: nat)
    requires Layout(ps, from, limit) && limit <= wider
    ensures Layout(ps, from, wider)
    decreases |ps|
  {
    if ps != [] {
      LayoutWiden(ps[1..], ps[0].offset + Extent(ps[0]), limit, wider);
    }
  }

  lemma SubstituteLast(body: seq<byte>, from: nat, front: seq<Patch>, last: Patch, fields: seq<string>)
    requires Layout(front + [last], from, |body|) && AllEncodable(front + [last], fields)
    ensures AllEncodable(front, fields) && Encodable(last, fields) && EditOf(last, fields).End() <= |body|
    ensures var spliced := SplicedText(body, EditOf(last, fields));
            && Layout(front, from, |spliced|)
            && Substitute(body, from, front + [last], fields) == Substitute(spliced, from, front, fields)
  {
    EncodableLast(front, last, fields);
    LayoutSplit(front, last, from, |body|);
    LayoutWiden(front, from, last.offset, |SplicedText(body, EditOf(last, fields))|);
    EditsFit(front + [last], from, |body|, fields);
    LastEdit(front, last, fields);
    ApplyLastFirst(body, from, Edits(front, fields), EditOf(last, fields));
  }

  lemma LastEdit(front: seq<Patch>, last: Patch, fields: seq<string>)
    requires AllEncodable(front, fields) && Encodable(last, fields) && AllEncodable(front + [last], fields)
    ensures Edits(front + [last], fields) == Edits(front, fields) + [EditOf(last, fields)]
  {
    var all := front + [last];
    assert all[|front|] == last && forall i | 0 <= i < |front| :: front[i] == all[i];
  }

  lemma ReverseLast(front: seq<Patch>, last: Patch)
    ensures Reverse(front + [last]) == [last] + Reverse(front)
  {
  }

  predicate AllStrings(ps: seq<Patch>, fields: seq<string>) {
    forall p | p in ps :: p.field < |fields| && p.kind.Ascii?
  }

  lemma SpliceIsEdit(body: seq<byte>, p: Patch, fields: seq<string>)
    requires p.field < |fields| && p.kind.Ascii? && p.offset + Extent(p) <= |body|
    ensures Splice(body, p, fields)
            == if Encodable(p, fields) then Some(SplicedText(body, EditOf(p, fields))) else None
  {
  }

  /** The first splice is that of the last string. */
  lemma SpliceLast(body: seq<byte>, front: seq<Patch>, last: Patch, fields: seq<string>)
    requires AllStrings(front, fields) && AllStrings([last], fields) && last.offset + Extent(last) <= |body|
    ensures AllStrings(Reverse(front + [last]), fields) && AllStrings(Reverse(front), fields)
    ensures Spliced(body, Reverse(front + [last]), fields)
            == if Encodable(last, fields) then Spliced(SplicedText(body, EditOf(last, fields)), Reverse(front), fields)
               else None
  {
    assert last in [last];
    ReverseMembers(front);
    ReverseLast(front, last);
    Tail(last, Reverse(front));
    SpliceIsEdit(body, last, fields);
  }

  lemma {:induction false} SplicesAreSubstitution(body: seq<byte>, ps: seq<Patch>, fields: seq<string>)
    requires Layout(ps, 0, |body|) && AllStrings(ps, fields)
    ensures AllStrings(Reverse(ps), fields)
    ensures Spliced(body, Reverse(ps), fields)
            == if AllEncodable(ps, fields) then Some(Substitute(body, 0, ps, fields)) else None
    decreases |ps|, 1
  {
    ReverseMembers(ps);
    if ps != [] {
      var front, last := ps[..|ps| - 1], ps[|ps| - 1];
      assert ps == front + [last];
      SplicesOfLast(body, front, last, fields);
    }
  }

  lemma {:induction false} SplicesOfLast(body: seq<byte>, front: seq<Patch>, last: Patch, fields: seq<string>)
    requires Layout(front + [last], 0, |body|) && AllStrings(front + [last], fields)
    ensures AllStrings(Reverse(front + [last]), fields)
    ensures Spliced(body, Reverse(front + [last]), fields)
            == if AllEncodable(front + [last], fields) then Some(Substitute(body, 0, front + [last], fields)) else None
    decreases |front| + 1, 0
  {
    AllStringsSplit(front, last, fields);
    LayoutSplit(front, last, 0, |body|);
    EncodableLast(front, last, fields);
    SpliceLast(body, front, last, fields);
    if Encodable(last, fields) {
      var spliced := SplicedText(body, EditOf(last, fields));
      LayoutWiden(front, 0, last.offset, |spliced|);
      SplicesAreSubstitution(spliced, front, fields);
      if AllEncodable(front, fields) {
        SubstituteLast(body, 0, front, last, fields);
      }
    }
  }

  lemma AllStringsSplit(front: seq<Patch>, last: Patch, fields: seq<string>)
    requires AllStrings(front + [last], fields)
    ensures AllStrings(front, fields) && AllStrings([last], fields)
  {
    forall p | p in front || p in [last]
      ensures p.field < |fields| && p.kind.Ascii?
    {
      assert p in front + [last];
    }
  }

  lemma EncodableLast(front: seq<Patch>, last: Patch, fields: seq<string>)
    ensures AllEncodable(front + [last], fields) <==> AllEncodable(front, fields) && Encodable(last, fields)
  {
    var all := front + [last];
    assert all[|front|] == last && forall i | 0 <= i < |front| :: front[i] == all[i];
  }

  // ---------------------------------------------------------------------------------------------
  // The main theorem

  /** Patches that fit the template and do not overlap. */
  predicate PatchesFit(d: Definition) {
    Separate(d.patches) && InBounds(d.patches, |d.template|)
  }

  /**
   * For disjoint patches inside the template the two loops of Materialize compute one simultaneous
   * substitution, and they fail exactly when some field cannot be encoded.
   */
  lemma MaterialiseIsSubstitution(d: Definition, fields: seq<string>)
    requires d.hexField < 0 && PatchesFit(d)
    ensures Layout(InOrder(d.patches), 0, |d.template|)
    ensures AllEncodable(InOrder(d.patches), fields) <==> AllEncodable(d.patches, fields)
    ensures Materialised(d, fields)
            == if AllEncodable(d.patches, fields)
               then Some(Substitute(d.template, 0, InOrder(d.patches), fields)) else None
  {
    var ps, up := d.patches, InOrder(d.patches);
    InOrderHasLayout(ps, |d.template|);
    SameEncodable(ps, up, fields);
    NumbersAreWritten(d.template, ps, fields);
    if NumbersEncodable(ps, fields) {
      var body := Numbers(d.template, ps, fields).value;
      WrittenInOrder(d.template, body, ps, up, fields);
      SpliceOrder(ps);
      LayoutOfStrings(up, 0, |d.template|);
      StringsMembers(up);
      assert forall p | p in up :: p in ps;
      SplicesAreSubstitution(body, Strings(up), fields);
      EncodableByKind(ps, up, fields);
      if AllEncodable(up, fields) {
        NumbersThenStrings(d.template, body, 0, up, fields);
      }
    } else {
      assert !AllEncodable(ps, fields);
    }
  }

  lemma SameEncodable(ps: seq<Patch>, up: seq<Patch>, fields: seq<string>)
    requires forall p :: p in up <==> p in ps
    ensures AllEncodable(up, fields) <==> AllEncodable(ps, fields)
  {
    if AllEncodable(up, fields) {
      forall i | 0 <= i < |ps| ensures Encodable(ps[i], fields) {
        assert ps[i] in up;
      }
    }
    if AllEncodable(ps, fields) {
      forall i | 0 <= i < |up| ensures Encodable(up[i], fields) {
        assert up[i] in ps;
      }
    }
  }

  lemma EncodableByKind(ps: seq<Patch>, up: seq<Patch>, fields: seq<string>)
    requires forall p :: p in up <==> p in ps
    requires NumbersEncodable(ps, fields)
    ensures AllEncodable(Strings(up), fields) <==> AllEncodable(up, fields)
  {
    if AllEncodable(Strings(up), fields) {
      forall i | 0 <= i < |up| ensures Encodable(up[i], fields) {
        assert up[i] in ps;
        if up[i].kind.Ascii? {
          StringsMembers(up);
          assert up[i] in Strings(up);
        }
      }
    }
    if AllEncodable(up, fields) {
      StringsEncodable(up, fields);
    }
  }

  lemma WrittenInOrder(template: seq<byte>, body: seq<byte>, ps: seq<Patch>, up: seq<Patch>, fields: seq<string>)
    requires forall p :: p in up <==> p in ps
    requires Written(template, body, 0, ps, fields)
    ensures Written(template, body, 0, up, fields)
  {
    forall i | 0 <= i < |template| && !Covered(up, i)
      ensures body[i] == template[i]
    {
      forall k | 0 <= k < |ps|
        ensures !Covers(ps[k], i)
      {
        assert ps[k] in up;
        var m :| 0 <= m < |up| && up[m] == ps[k];
        assert !Covers(up[m], i);
      }
    }
    forall k | 0 <= k < |up| && !up[k].kind.Ascii?
      ensures Encodable(up[k], fields) && up[k].offset + Extent(up[k]) <= |body| && HoldsValue(body, up[k], fields)
    {
      assert up[k] in ps;
    }
  }

  // ---------------------------------------------------------------------------------------------
  // What the substituted body contains

  /** How much the first `k` patches make the body longer; negative when it gets shorter. */
  function GrowthBefore(ps: seq<Patch>, k: nat, fields: seq<string>): int
    requires AllEncodable(ps, fields) && k <= |ps|
  {
    Growth(Edits(ps, fields), k)
  }

  /** Only strings change the length, by the difference between the new and the captured string. */
  lemma GrowthOfOne(p: Patch, fields: seq<string>)
    requires Encodable(p, fields)
    ensures |EditOf(p, fields).value| - EditOf(p, fields).extent
            == if p.kind.Ascii? then |fields[p.field]| - p.originalSize else 0
  {
  }

  /** Where patch `k` ends up. */
  function ShiftedOffset(ps: seq<Patch>, k: nat, fields: seq<string>): int
    requires k < |ps| && AllEncodable(ps, fields)
  {
    ps[k].offset + GrowthBefore(ps, k, fields)
  }

  /** The length of the patched body. */
  lemma SubstituteLength(template: seq<byte>, ps: seq<Patch>, fields: seq<string>)
    requires Layout(ps, 0, |template|) && AllEncodable(ps, fields)
    ensures |Substitute(template, 0, ps, fields)| == |template| + GrowthBefore(ps, |ps|, fields)
  {
    EditsFit(ps, 0, |template|, fields);
    ApplyLength(template, 0, Edits(ps, fields));
  }

  /** Every field reads back at its shifted offset. */
  lemma FieldReadsBack(template: seq<byte>, ps: seq<Patch>, k: nat, fields: seq<string>)
    requires Layout(ps, 0, |template|) && AllEncodable(ps, fields) && k < |ps|
    ensures StandsAt(Substitute(template, 0, ps, fields), ShiftedOffset(ps, k, fields), Encoded(ps[k], fields).value)
  {
    EditsFit(ps, 0, |template|, fields);
    ValueReadsBack(template, 0, Edits(ps, fields), k);
  }

  /** The bytes before patch `k` and after the patch before it. */
  predicate BetweenPatches(ps: seq<Patch>, k: nat, i: nat, limit: nat) {
    && k <= |ps|
    && (k == 0 || ps[k - 1].offset + Extent(ps[k - 1]) <= i)
    && i < (if k == |ps| then limit else ps[k].offset)
  }

  /** Every byte outside the patches is kept, shifted by the growth of the patches before it. */
  lemma GapKept(template: seq<byte>, ps: seq<Patch>, k: nat, i: nat, fields: seq<string>)
    requires Layout(ps, 0, |template|) && AllEncodable(ps, fields) && BetweenPatches(ps, k, i, |template|)
    ensures 0 <= i + GrowthBefore(ps, k, fields) < |Substitute(template, 0, ps, fields)| && i < |template|
    ensures Substitute(template, 0, ps, fields)[i + GrowthBefore(ps, k, fields)] == template[i]
  {
    hide Layout, AllEncodable, Edits, BetweenPatches, InGap, Fits, Growth, Apply;
    EditsFit(ps, 0, |template|, fields);
    GapBetweenEdits(ps, k, i, |template|, fields);
    GapReadsBack(template, 0, Edits(ps, fields), k, i);
  }

  lemma GapBetweenEdits(ps: seq<Patch>, k: nat, i: nat, limit: nat, fields: seq<string>)
    requires AllEncodable(ps, fields) && BetweenPatches(ps, k, i, limit)
    ensures |Edits(ps, fields)| == |ps| && InGap(Edits(ps, fields), k, i, 0, limit)
  {
  }

  /** The body still starts with the expected family when no patch begins inside it. */
  lemma FamilyIsKept(d: Definition, fields: seq<string>)
    requires d.hexField < 0 && PatchesFit(d) && AllEncodable(d.patches, fields)
    requires d.family <= d.template
    requires forall i | 0 <= i < |d.patches| :: d.patches[i].offset >= |d.family|
    ensures Materialised(d, fields).Some? && d.family <= Materialised(d, fields).value
  {
    MaterialiseIsSubstitution(d, fields);
    InOrderHasLayout(d.patches, |d.template|);
    var up := InOrder(d.patches);
    EditsFit(up, 0, |d.template|, fields);
    forall i | 0 <= i < |up| ensures Edits(up, fields)[i].offset >= |d.family| {
      assert up[i] in d.patches;
    }
    PrefixKept(d.template, Edits(up, fields), d.family);
  }
}
