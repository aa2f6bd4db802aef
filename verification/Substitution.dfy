/** Replacing several ranges of a byte string at once. */
module Substitution {
  import opened Basics

  /** Replace the `extent` bytes at `offset` by `value`. */
  datatype Edit = Edit(offset: nat, extent: nat, value: seq<byte>) {
    function End(): nat {
      offset + extent
    }
  }

  /** Edits in ascending order that neither overlap nor leave the first `limit` bytes. */
  predicate Fits(es: seq<Edit>, from: nat, limit: nat)
    decreases |es|
  {
    if es == [] then from <= limit else from <= es[0].offset && Fits(es[1..], es[0].End(), limit)
  }

  lemma {:induction false} FitsBounds(es: seq<Edit>, from: nat, limit: nat)
    requires Fits(es, from, limit)
    ensures from <= limit && (es != [] ==> es[0].End() <= limit && Fits(es[1..], es[0].End(), limit))
    decreases |es|
  {
    if es != [] {
      FitsBounds(es[1..], es[0].End(), limit);
    }
  }

  /** The text from position `from` on, with every edited range replaced by its value. */
  function Apply(text: seq<byte>, from: nat, es: seq<Edit>): seq<byte>
    requires Fits(es, from, |text|)
    decreases |es|
  {
    FitsBounds(es, from, |text|);
    if es == [] then text[from..]
    else text[from..es[0].offset] + es[0].value + Apply(text, es[0].End(), es[1..])
  }

  // ---------------------------------------------------------------------------------------------
  // Pieces of byte strings

  lemma SplitSlice(b: seq<byte>, from: nat, mid: nat, to: nat)
    requires from <= mid <= to <= |b|
    ensures b[from..to] == b[from..mid] + b[mid..to]
  {
  }

  lemma Regroup(a: seq<byte>, b: seq<byte>, value: seq<byte>, rest: seq<byte>)
    ensures (a + b) + value + rest == a + (b + value + rest)
  {
  }

  predicate StandsAt(b: seq<byte>, at: int, value: seq<byte>) {
    0 <= at && at + |value| <= |b| && b[at..at + |value|] == value
  }

  lemma StandsBehind(head: seq<byte>, tail: seq<byte>, at: int, value: seq<byte>)
    requires StandsAt(tail, at, value)
    ensures StandsAt(head + tail, |head| + at, value)
  {
    assert (head + tail)[|head| + at..|head| + at + |value|] == tail[at..at + |value|];
  }

  lemma Behind(head: seq<byte>, tail: seq<byte>, at: int)
    requires 0 <= at < |tail|
    ensures (head + tail)[|head| + at] == tail[at]
  {
  }

  lemma MiddlePart(a: seq<byte>, value: seq<byte>, rest: seq<byte>)
    ensures StandsAt(a + value + rest, |a|, value)
  {
  }

  lemma FrontPart(body: seq<byte>, value: seq<byte>, at: nat, rest: seq<byte>, from: nat, to: nat)
    requires from <= to <= at <= |body|
    ensures (body[..at] + value + rest)[from..to] == body[from..to]
  {
  }

  // ---------------------------------------------------------------------------------------------
  // Starting earlier, and applying the last edit first

  lemma ApplySkip(text: seq<byte>, from: nat, mid: nat, es: seq<Edit>)
    requires from <= mid && Fits(es, mid, |text|)
    ensures mid <= |text| && Fits(es, from, |text|)
    ensures Apply(text, from, es) == text[from..mid] + Apply(text, mid, es)
  {
    FitsBounds(es, mid, |text|);
    if es == [] {
      SplitSlice(text, from, mid, |text|);
      assert text[from..|text|] == text[from..] && text[mid..|text|] == text[mid..];
    } else {
      SplitSlice(text, from, mid, es[0].offset);
      Regroup(text[from..mid], text[mid..es[0].offset], es[0].value, Apply(text, es[0].End(), es[1..]));
    }
  }

  function SplicedText(text: seq<byte>, e: Edit): seq<byte>
    requires e.End() <= |text|
  {
    text[..e.offset] + e.value + text[e.End()..]
  }

  lemma {:induction false} FitsSplit(front: seq<Edit>, last: Edit, from: nat, limit: nat)
    requires Fits(front + [last], from, limit)
    ensures Fits(front, from, last.offset) && last.End() <= limit
    decreases |front|
  {
    if front == [] {
      assert front + [last] == [last];
      assert [last][1..] == [];
    } else {
      assert (front + [last])[1..] == front[1..] + [last];
      FitsSplit(front[1..], last, front[0].End(), limit);
    }
  }

  lemma {:induction false} FitsWider(es: seq<Edit>, from: nat, limit: nat, wider: nat)
    requires Fits(es, from, limit) && limit <= wider
    ensures Fits(es, from, wider)
    decreases |es|
  {
    if es != [] {
      FitsWider(es[1..], es[0].End(), limit, wider);
    }
  }

  lemma OnlyEdit(text: seq<byte>, from: nat, last: Edit)
    requires Fits([last], from, |text|)
    ensures last.End() <= |text| && from <= |SplicedText(text, last)|
    ensures Apply(text, from, [last]) == SplicedText(text, last)[from..]
  {
    FitsBounds([last], from, |text|);
    assert [last][1..] == [];
    assert Apply(text, from, [last]) == text[from..last.offset] + last.value + text[last.End()..];
    assert text[..last.offset][from..] == text[from..last.offset];
    assert SplicedText(text, last)[from..] == text[from..last.offset] + last.value + text[last.End()..];
  }

  /** Splicing the last edit and then applying the others gives the same text. */
  lemma {:induction false} ApplyLastFirst(text: seq<byte>, from: nat, front: seq<Edit>, last: Edit)
    requires Fits(front + [last], from, |text|)
    ensures last.End() <= |text| && Fits(front, from, |SplicedText(text, last)|)
    ensures Apply(text, from, front + [last]) == Apply(SplicedText(text, last), from, front)
    decreases |front|
  {
    var all := front + [last];
    FitsSplit(front, last, from, |text|);
    FitsWider(front, from, last.offset, |SplicedText(text, last)|);
    if front == [] {
      OnlyEdit(text, from, last);
      assert all == [last];
    } else {
      assert all[1..] == front[1..] + [last] && all[0] == front[0];
      FitsBounds(front, from, last.offset);
      ApplyLastFirst(text, front[0].End(), front[1..], last);
      FrontPart(text, last.value, last.offset, text[last.End()..], from, front[0].offset);
    }
  }

  // ---------------------------------------------------------------------------------------------
  // What the edited text contains

  /** How much the first `k` edits make the text longer; negative when it gets shorter. */
  function Growth(es: seq<Edit>, k: nat): int
    requires k <= |es|
    decreases k
  {
    if k == 0 then 0 else |es[0].value| - es[0].extent + Growth(es[1..], k - 1)
  }

  lemma {:induction false} ApplyLength(text: seq<byte>, from: nat, es: seq<Edit>)
    requires Fits(es, from, |text|)
    ensures |Apply(text, from, es)| == |text| - from + Growth(es, |es|)
    decreases |es|
  {
    FitsBounds(es, from, |text|);
    if es != [] {
      ApplyLength(text, es[0].End(), es[1..]);
    }
  }

  /** Where the value of edit `k` ends up, counted from `from`. */
  function Shifted(es: seq<Edit>, k: nat, from: nat): int
    requires k < |es|
  {
    es[k].offset + Growth(es, k) - from
  }

  lemma ShiftedInRest(text: seq<byte>, from: nat, es: seq<Edit>, k: nat)
    requires 0 < k < |es| && from <= es[0].offset <= |text|
    ensures Shifted(es, k, from)
            == |text[from..es[0].offset] + es[0].value| + Shifted(es[1..], k - 1, es[0].End())
  {
  }

  /** Every value stands at its offset, shifted by the growth of the edits before it. */
  lemma {:induction false} ValueReadsBack(text: seq<byte>, from: nat, es: seq<Edit>, k: nat)
    requires Fits(es, from, |text|) && k < |es|
    ensures StandsAt(Apply(text, from, es), Shifted(es, k, from), es[k].value)
    decreases |es|
  {
    FitsBounds(es, from, |text|);
    var gap, tail := text[from..es[0].offset], Apply(text, es[0].End(), es[1..]);
    if k == 0 {
      MiddlePart(gap, es[0].value, tail);
    } else {
      ValueReadsBack(text, es[0].End(), es[1..], k - 1);
      StandsBehind(gap + es[0].value, tail, Shifted(es[1..], k - 1, es[0].End()), es[1..][k - 1].value);
      ShiftedInRest(text, from, es, k);
    }
  }

  /** Position `i` lies before edit `k` and behind the edit before it. */
  predicate InGap(es: seq<Edit>, k: nat, i: nat, from: nat, limit: nat) {
    && k <= |es|
    && (if k == 0 then from else es[k - 1].End()) <= i
    && i < (if k == |es| then limit else es[k].offset)
  }

  lemma FirstGap(text: seq<byte>, from: nat, es: seq<Edit>, i: nat)
    requires Fits(es, from, |text|) && InGap(es, 0, i, from, |text|)
    ensures i - from < |Apply(text, from, es)| && i < |text| && Apply(text, from, es)[i - from] == text[i]
  {
    FitsBounds(es, from, |text|);
  }

  /** Every byte outside the edits is kept, shifted by the growth of the edits before it. */
  lemma {:induction false} GapReadsBack(text: seq<byte>, from: nat, es: seq<Edit>, k: nat, i: nat)
    requires Fits(es, from, |text|) && InGap(es, k, i, from, |text|)
    ensures 0 <= i + Growth(es, k) - from < |Apply(text, from, es)| && i < |text|
    ensures Apply(text, from, es)[i + Growth(es, k) - from] == text[i]
    decreases |es|
  {
    if k == 0 {
      FirstGap(text, from, es, i);
    } else {
      FitsBounds(es, from, |text|);
      GapReadsBack(text, es[0].End(), es[1..], k - 1, i);
      var tail := Apply(text, es[0].End(), es[1..]);
      Behind(text[from..es[0].offset] + es[0].value, tail, i + Growth(es[1..], k - 1) - es[0].End());
    }
  }

  lemma PrefixKept(text: seq<byte>, es: seq<Edit>, prefix: seq<byte>)
    requires Fits(es, 0, |text|) && prefix <= text
    requires forall i | 0 <= i < |es| :: es[i].offset >= |prefix|
    ensures prefix <= Apply(text, 0, es)
  {
    FitsBounds(es, 0, |text|);
    if es != [] {
      assert prefix <= text[0..es[0].offset];
    }
  }
}
