/** What a rewritten building command still says: fixed length, untouched surroundings, and the action's own fields. */
module CarrierReadBack {
  import opened Basics
  import opened PythonBytes
  import opened CarrierRewrite

  // ---------------------------------------------------------------------------------------------
  // A reader of building commands that knows nothing about the rewriters

  datatype BuildFields = BuildFields(queue: nat, target: seq<byte>, owner: nat, place: nat)

  /** The building command in `payload[start..end]`: fixed offsets, a counted string, then two tagged numbers. */
  function ReadCommand(payload: seq<byte>, start: nat, end: nat, ownerTag: seq<byte>, placeTag: seq<byte>):
    Option<BuildFields>
  {
    if start + 104 > end || end > |payload| then None
    else
      var idEnd := start + 104 + U16At(payload, start + 102);
      if idEnd > end then None
      else
        ReadNumbers(
          U32At(payload, start + 86), payload[start + 104..idEnd], payload[idEnd..end], ownerTag, placeTag)
  }

  function ReadNumbers(queue: nat, target: seq<byte>, rest: seq<byte>, ownerTag: seq<byte>, placeTag: seq<byte>):
    Option<BuildFields>
  {
    if |rest| < 20 || rest[..6] != ownerTag || rest[10..16] != placeTag then None
    else Some(BuildFields(queue, target, U32At(rest, 6), U32At(rest, 16)))
  }

  // ---------------------------------------------------------------------------------------------
  // The rewritten record, piece by piece

  lemma Middle(before: seq<byte>, piece: seq<byte>, after: seq<byte>)
    ensures At(before + piece + after, |before|, piece)
  {
  }

  lemma Regroup(a: seq<byte>, b: seq<byte>, n: seq<byte>, t: seq<byte>, s: seq<byte>, z: seq<byte>, e: seq<byte>)
    ensures a + (b + n + t + s + z) + e == (a + b) + n + t + s + z + e
  {
  }

  /** Overwriting the queue inside the record's front is overwriting it inside the payload. */
  lemma QueuePatched(payload: seq<byte>, start: nat, queue: nat)
    requires start + 104 <= |payload|
    ensures payload[..start] + NewPrefix(payload[start..start + 102], 86, queue) == Front(payload, start, queue)
  {
  }

  /** The front of the rewritten record, up to the string. */
  function Front(payload: seq<byte>, start: nat, queue: nat): (f: seq<byte>)
    requires start + 104 <= |payload|
    ensures |f| == start + 102
  {
    payload[..start + 86] + LittleEndian(queue, 4) + payload[start + 90..start + 102]
  }

  /** A whole payload, from the front to what follows the record. */
  function Assemble(front: seq<byte>, target: seq<byte>, suffix: seq<byte>, padding: nat, rest: seq<byte>): seq<byte> {
    front + LittleEndian(|target|, 2) + target + suffix + Zeros(padding) + rest
  }

  /** What the rewriter returns for a record laid out at the offsets of a building command. */
  lemma RewrittenSize(
    payload: seq<byte>, start: nat, idEnd: nat, end: nat, queue: int, owner: int, place: int, target: seq<byte>,
    r: Rewrite)
    requires start + 104 <= idEnd <= end <= |payload|
    requires r == RewriteRecord(payload, start, start + 86, start + 102, idEnd, end, queue, owner, place, target)
    requires r.Rewritten?
    ensures Fits(queue) && Fits(owner) && Fits(place) && |target| < U16_LIMIT
    ensures r.offset == start && r.length == end - start
    ensures 104 + |target| + |NewSuffix(payload[idEnd..end], owner, place)| + r.padding == end - start
  {
  }

  lemma RewrittenPieces(
    payload: seq<byte>, start: nat, idEnd: nat, end: nat, queue: int, owner: int, place: int, target: seq<byte>,
    r: Rewrite)
    requires start + 104 <= idEnd <= end <= |payload| && Fits(queue) && Fits(owner) && Fits(place)
    requires r == RewriteRecord(payload, start, start + 86, start + 102, idEnd, end, queue, owner, place, target)
    requires r.Rewritten?
    ensures r.payload
            == Assemble(
                 Front(payload, start, queue), target, NewSuffix(payload[idEnd..end], owner, place), r.padding,
                 payload[end..])
  {
    QueuePatched(payload, start, queue);
    Regroup(
      payload[..start], NewPrefix(payload[start..start + 102], 86, queue), LittleEndian(|target|, 2), target,
      NewSuffix(payload[idEnd..end], owner, place), Zeros(r.padding), payload[end..]);
  }

  /** Where the pieces stand. */
  predicate Assembled(
    p: seq<byte>, front: seq<byte>, target: seq<byte>, suffix: seq<byte>, padding: nat, rest: seq<byte>)
  {
    var n := |front|;
    && |p| == n + 2 + |target| + |suffix| + padding + |rest|
    && At(p, 0, front) && At(p, n, LittleEndian(|target|, 2)) && At(p, n + 2, target)
    && At(p, n + 2 + |target|, suffix + Zeros(padding))
    && At(p, n + 2 + |target| + |suffix| + padding, rest)
  }

  lemma AssembledParts(front: seq<byte>, target: seq<byte>, suffix: seq<byte>, padding: nat, rest: seq<byte>)
    ensures Assembled(Assemble(front, target, suffix, padding, rest), front, target, suffix, padding, rest)
  {
    var p, n := Assemble(front, target, suffix, padding, rest), LittleEndian(|target|, 2);
    var tail := suffix + Zeros(padding);
    assert p == [] + front + (n + target + tail + rest);
    Middle([], front, n + target + tail + rest);
    assert p == front + n + (target + tail + rest);
    Middle(front, n, target + tail + rest);
    assert p == (front + n) + target + (tail + rest);
    Middle(front + n, target, tail + rest);
    assert p == (front + n + target) + tail + rest;
    Middle(front + n + target, tail, rest);
    assert p == (front + n + target + tail) + rest + [];
    Middle(front + n + target + tail, rest, []);
  }

  lemma ReadAssembled(
    p: seq<byte>, payload: seq<byte>, start: nat, queue: nat, target: seq<byte>, suffix: seq<byte>, padding: nat,
    rest: seq<byte>, ownerTag: seq<byte>, placeTag: seq<byte>)
    requires start + 104 <= |payload| && Fits(queue) && |target| < U16_LIMIT
    requires Assembled(p, Front(payload, start, queue), target, suffix, padding, rest)
    ensures ReadCommand(p, start, start + 104 + |target| + |suffix| + padding, ownerTag, placeTag)
            == ReadNumbers(queue, target, suffix + Zeros(padding), ownerTag, placeTag)
  {
    hide ReadCommand, ReadNumbers, LittleEndian, FromLittleEndian, U32At, U16At, Front;
    U16RoundTrip(p, start + 102, |target|);
    QueueInFront(payload, start, queue, p);
    U32RoundTrip(p, start + 86, queue);
    ReadParts(p, start, queue, target, suffix + Zeros(padding), ownerTag, placeTag);
  }

  /** The reader takes the queue, the counted string and what follows it from where they stand. */
  lemma ReadParts(
    p: seq<byte>, start: nat, queue: nat, target: seq<byte>, tail: seq<byte>, ownerTag: seq<byte>, placeTag: seq<byte>)
    requires start + 104 + |target| + |tail| <= |p|
    requires U32At(p, start + 86) == queue && U16At(p, start + 102) == |target|
    requires At(p, start + 104, target) && At(p, start + 104 + |target|, tail)
    ensures ReadCommand(p, start, start + 104 + |target| + |tail|, ownerTag, placeTag)
            == ReadNumbers(queue, target, tail, ownerTag, placeTag)
  {
  }

  lemma QueueInFront(payload: seq<byte>, start: nat, queue: nat, p: seq<byte>)
    requires start + 104 <= |payload| && At(p, 0, Front(payload, start, queue))
    ensures At(p, start + 86, LittleEndian(queue, 4))
    ensures p[..start + 86] == payload[..start + 86]
    ensures p[start + 90..start + 102] == payload[start + 90..start + 102]
  {
    var front := Front(payload, start, queue);
    Middle(payload[..start + 86], LittleEndian(queue, 4), payload[start + 90..start + 102]);
    Middle(payload[..start + 86] + LittleEndian(queue, 4), payload[start + 90..start + 102], []);
    assert front == payload[..start + 86] + LittleEndian(queue, 4) + payload[start + 90..start + 102] + [];
    assert p[..start + 102] == front;
    assert p[start + 86..start + 90] == front[start + 86..start + 90];
    assert p[..start + 86] == front[..start + 86];
    assert p[start + 90..start + 102] == front[start + 90..start + 102];
  }

  // ---------------------------------------------------------------------------------------------
  // The numbers behind the string

  lemma FourBytes(b: seq<byte>)
    requires |b| == 4
    ensures FromLittleEndian(b)
            == b[0] as int + 256 * (b[1] as int) + 65536 * (b[2] as int) + 16777216 * (b[3] as int)
  {
    assert b[1..][1..] == b[2..] && b[2..][1..] == b[3..] && b[3..][1..] == [];
    assert FromLittleEndian(b[3..]) == b[3] as int;
    assert FromLittleEndian(b[2..]) == b[2] as int + 256 * (b[3] as int);
    assert FromLittleEndian(b[1..]) == b[1] as int + 256 * (b[2] as int + 256 * (b[3] as int));
  }

  /** A suffix that reaches the second number: both numbers are overwritten and everything else stays. */
  lemma SuffixKept(suffix: seq<byte>, owner: nat, place: nat)
    requires |suffix| >= 16
    ensures var s := NewSuffix(suffix, owner, place);
            && |s| == (if |suffix| < 20 then 20 else |suffix|)
            && s[..6] == suffix[..6] && At(s, 6, LittleEndian(owner, 4)) && s[10..16] == suffix[10..16]
            && At(s, 16, LittleEndian(place, 4)) && (|suffix| > 20 ==> s[20..] == suffix[20..])
  {
    var o, p := LittleEndian(owner, 4), LittleEndian(place, 4);
    var once := Assign(suffix, 6, 10, o);
    assert once == suffix[..6] + o + suffix[10..];
    assert once[..6] == suffix[..6] && once[6..10] == o && once[10..16] == suffix[10..16];
    var s := NewSuffix(suffix, owner, place);
    assert s == once[..16] + p + (if |suffix| < 20 then [] else once[20..]);
    assert s[..6] == once[..6] && s[6..10] == once[6..10] && s[10..16] == once[10..16];
    assert s[16..20] == p;
  }

  lemma LongSuffixReadsBack(
    suffix: seq<byte>, padding: nat, queue: nat, target: seq<byte>, owner: nat, place: nat, ownerTag: seq<byte>,
    placeTag: seq<byte>)
    requires |suffix| >= 16 && Fits(owner) && Fits(place)
    requires suffix[..6] == ownerTag && suffix[10..16] == placeTag
    ensures ReadNumbers(queue, target, NewSuffix(suffix, owner, place) + Zeros(padding), ownerTag, placeTag)
            == Some(BuildFields(queue, target, owner, place))
  {
    SuffixKept(suffix, owner, place);
    var s := NewSuffix(suffix, owner, place);
    var w := s + Zeros(padding);
    assert w[..6] == s[..6] && w[6..10] == s[6..10] && w[10..16] == s[10..16] && w[16..20] == s[16..20];
    U32RoundTrip(w, 6, owner);
    U32RoundTrip(w, 16, place);
  }

  /** A suffix cut off before the second number: the number is appended where the suffix ends. */
  lemma ShortSuffix(suffix: seq<byte>, owner: nat, place: nat, padding: nat)
    requires |suffix| < 16
    ensures var w, m := NewSuffix(suffix, owner, place) + Zeros(padding), |Assign(suffix, 6, 10, LittleEndian(owner, 4))|;
            && m < 16 && (m > 10 ==> m == |suffix|) && |w| == m + 4 + padding
            && At(w, m, LittleEndian(place, 4))
            && (forall i | m + 4 <= i < |w| :: w[i] == 0)
            && (m > 10 ==> At(w, 0, suffix[..6]) && At(w, 6, LittleEndian(owner, 4)) && At(w, 10, suffix[10..]))
  {
    var o, p := LittleEndian(owner, 4), LittleEndian(place, 4);
    var once := Assign(suffix, 6, 10, o);
    var s := NewSuffix(suffix, owner, place);
    assert s == once + p;
    assert s + Zeros(padding) == once + p + Zeros(padding);
    Middle(once, p, Zeros(padding));
    if |once| > 10 {
      assert once == suffix[..6] + o + suffix[10..];
      FivePieces(suffix[..6], o, suffix[10..], p, Zeros(padding));
    }
  }

  lemma FivePieces(a: seq<byte>, b: seq<byte>, c: seq<byte>, d: seq<byte>, e: seq<byte>)
    ensures var w := ((a + b + c) + d) + e;
            At(w, 0, a) && At(w, |a|, b) && At(w, |a| + |b|, c)
  {
    var t := d + e;
    Associates(a + b + c, d, e);
    Middle(a + b, c, t);
    Associates(a + b, c, t);
    Middle(a, b, c + t);
    Associates(a, b, c + t);
    assert [] + a == a;
    Middle([], a, b + (c + t));
  }

  lemma Associates(a: seq<byte>, b: seq<byte>, c: seq<byte>)
    ensures (a + b) + c == a + (b + c)
  {
  }

  /**
   * Twenty bytes with four `place` bytes at `m` and zeros behind them carry the placement tag at 10 and the number
   * at 16 only in one case.
   */
  lemma MisplacedNumber(w: seq<byte>, m: nat, place: nat)
    requires |w| >= 20 && m < 16 && Fits(place) && m + 4 <= |w| && At(w, m, LittleEndian(place, 4))
    requires forall i | m + 4 <= i < |w| :: w[i] == 0
    requires w[10..16] == PLACEMENT_TAG && U32At(w, 16) == place
    ensures m == 15 && place == 0
  {
    assert w[14] == w[10..16][4] && w[12] == w[10..16][2] && w[13] == w[10..16][3] && w[11] == w[10..16][1];
    assert w[10] == w[10..16][0];
    var p := w[m..m + 4];
    assert p == LittleEndian(place, 4);
    FourBytes(p);
    FourBytes(w[16..20]);
    assert U32At(w, m) == place by {
      U32RoundTrip(w, m, place);
    }
    assert p[0] == w[m] && p[1] == w[m + 1] && p[2] == w[m + 2] && p[3] == w[m + 3];
  }

  // ---------------------------------------------------------------------------------------------
  // One record

  /**
   * `r` is the payload with the record from `start` to `end` written anew, piece by piece, around a string that took
   * `source` bytes before.
   */
  ghost predicate IsRewriteOf(
    r: Rewrite, payload: seq<byte>, start: nat, source: nat, end: nat, queue: int, owner: int, place: int,
    target: seq<byte>)
  {
    && start + 104 + source <= end <= |payload|
    && r.Rewritten? && r.offset == start && r.length == end - start
    && Fits(queue) && Fits(owner) && Fits(place) && |target| < U16_LIMIT
    && var suffix := NewSuffix(payload[start + 104 + source..end], owner, place);
       && 104 + |target| + |suffix| + r.padding == end - start
       && Assembled(r.payload, Front(payload, start, queue), target, suffix, r.padding, payload[end..])
  }

  lemma RewriteIsAssembled(
    payload: seq<byte>, start: nat, source: nat, end: nat, queue: int, owner: int, place: int, target: seq<byte>)
    requires start + 104 + source <= end <= |payload|
    requires RewriteRecord(
               payload, start, start + 86, start + 102, start + 104 + source, end, queue, owner, place, target).Rewritten?
    ensures IsRewriteOf(
              RewriteRecord(
                payload, start, start + 86, start + 102, start + 104 + source, end, queue, owner, place, target),
              payload, start, source, end, queue, owner, place, target)
  {
    hide RewriteRecord, IsRewriteOf, Assembled, Assemble, Front, NewSuffix;
    var idEnd := start + 104 + source;
    var r := RewriteRecord(payload, start, start + 86, start + 102, idEnd, end, queue, owner, place, target);
    RewrittenSize(payload, start, idEnd, end, queue, owner, place, target, r);
    RewrittenPieces(payload, start, idEnd, end, queue, owner, place, target, r);
    AssembledParts(
      Front(payload, start, queue), target, NewSuffix(payload[idEnd..end], owner, place), r.padding, payload[end..]);
    PiecesAreRewrite(r, payload, start, source, end, queue, owner, place, target);
  }

  lemma PiecesAreRewrite(
    r: Rewrite, payload: seq<byte>, start: nat, source: nat, end: nat, queue: int, owner: int, place: int,
    target: seq<byte>)
    requires start + 104 + source <= end <= |payload|
    requires r.Rewritten? && r.offset == start && r.length == end - start
    requires Fits(queue) && Fits(owner) && Fits(place) && |target| < U16_LIMIT
    requires 104 + |target| + |NewSuffix(payload[start + 104 + source..end], owner, place)| + r.padding == end - start
    requires Assembled(
               r.payload, Front(payload, start, queue), target,
               NewSuffix(payload[start + 104 + source..end], owner, place), r.padding, payload[end..])
    ensures IsRewriteOf(r, payload, start, source, end, queue, owner, place, target)
  {
  }

  /** Length, everything outside the record, and the record's front except for the queue. */
  ghost predicate FrameKept(payload: seq<byte>, r: Rewrite)
    requires r.Rewritten?
  {
    var end := r.offset + r.length;
    && |r.payload| == |payload| && r.offset + 104 + r.padding <= end <= |payload|
    && r.payload[..r.offset + 86] == payload[..r.offset + 86]
    && r.payload[r.offset + 90..r.offset + 102] == payload[r.offset + 90..r.offset + 102]
    && r.payload[end..] == payload[end..]
    && forall i | end - r.padding <= i < end :: r.payload[i] == 0
  }

  lemma RecordFrameKept(
    r: Rewrite, payload: seq<byte>, start: nat, source: nat, end: nat, queue: int, owner: int, place: int,
    target: seq<byte>)
    requires IsRewriteOf(r, payload, start, source, end, queue, owner, place, target)
    ensures FrameKept(payload, r) && r.offset == start && r.length == end - start
  {
    hide NewSuffix, Assembled, Front;
    AssembledFrame(
      r.payload, payload, start, queue, target, NewSuffix(payload[start + 104 + source..end], owner, place), r.padding,
      end);
  }

  /** What assembling a record of the same size leaves alone, and the zeros at its end. */
  lemma AssembledFrame(
    p: seq<byte>, payload: seq<byte>, start: nat, queue: nat, target: seq<byte>, suffix: seq<byte>, padding: nat,
    end: nat)
    requires start + 104 <= end <= |payload| && 104 + |target| + |suffix| + padding == end - start
    requires Assembled(p, Front(payload, start, queue), target, suffix, padding, payload[end..])
    ensures && |p| == |payload|
            && p[..start + 86] == payload[..start + 86]
            && p[start + 90..start + 102] == payload[start + 90..start + 102]
            && p[end..] == payload[end..]
            && forall i | end - padding <= i < end :: p[i] == 0
  {
    QueueInFront(payload, start, queue, p);
    PaddingInPlace(p, start + 104 + |target|, suffix, padding);
  }

  lemma PaddingInPlace(p: seq<byte>, at: nat, suffix: seq<byte>, padding: nat)
    requires At(p, at, suffix + Zeros(padding))
    ensures var end := at + |suffix| + padding; forall i | end - padding <= i < end :: p[i] == 0
  {
    var end := at + |suffix| + padding;
    forall i | end - padding <= i < end
      ensures p[i] == 0
    {
      assert p[at..end][i - at] == (suffix + Zeros(padding))[i - at];
    }
  }

  lemma RecordReads(
    r: Rewrite, payload: seq<byte>, start: nat, source: nat, end: nat, queue: int, owner: int, place: int,
    target: seq<byte>, ownerTag: seq<byte>, placeTag: seq<byte>)
    requires IsRewriteOf(r, payload, start, source, end, queue, owner, place, target)
    ensures Fits(queue) && Fits(owner) && Fits(place)
    ensures ReadCommand(r.payload, start, end, ownerTag, placeTag)
            == ReadNumbers(
                 queue, target, NewSuffix(payload[start + 104 + source..end], owner, place) + Zeros(r.padding),
                 ownerTag, placeTag)
  {
    hide ReadCommand, ReadNumbers, NewSuffix, Assembled, Front;
    ReadAssembled(
      r.payload, payload, start, queue, target, NewSuffix(payload[start + 104 + source..end], owner, place), r.padding,
      payload[end..], ownerTag, placeTag);
  }
}
