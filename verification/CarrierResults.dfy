/** The promises of the building rewriters, for every payload and every action. */
module CarrierResults {
  import opened Basics
  import opened PythonBytes
  import opened CarrierRewrite
  import opened CarrierReadBack

  lemma SliceOfSlice(p: seq<byte>, from: nat, to: nat, i: nat, j: nat)
    requires from <= to <= |p| && i <= j <= to - from
    ensures p[from..to][i..j] == p[from + i..from + j]
  {
    assert forall k | 0 <= k < j - i :: p[from..to][i..j][k] == p[from + i..from + j][k];
  }

  // ---------------------------------------------------------------------------------------------
  // The zone-slot layout

  lemma ZoneSlotRecord(payload: seq<byte>, action: BuildAction, source: seq<byte>, r: Rewrite)
    requires r == RewriteZoneSlot(payload, action, source) && r.Rewritten?
    ensures LocateZoneSlot(payload, source).Some?
    ensures var (record, marker) := LocateZoneSlot(payload, source).value;
            && record.length == 104 + |source| + 26
            && IsRewriteOf(
                 r, payload, record.offset, |source|, record.offset + record.length, action.queue, action.colony,
                 action.zone, action.buildingId)
            && At(payload, record.offset + 104 + |source|, ZONE_SLOT_COLONY_TAG)
            && At(payload, record.offset + 114 + |source|, ZONE_SLOT_ZONE_TAG)
            && At(payload, record.offset + 124 + |source|, RECORD_TAIL)
            && record in RecordsFrom(payload, COMMON_MARKER, 0)
  {
    hide LocateZoneSlot, RewriteRecord, IsRewriteOf, ZoneSlotShape, RecordsFrom, At;
    var (record, marker) := LocateZoneSlot(payload, source).value;
    ZoneSlotTags(payload, marker, |source|);
    LocatedIsRewritten(payload, action, |source|, record.offset, r);
  }

  lemma LocatedIsRewritten(payload: seq<byte>, action: BuildAction, source: nat, start: nat, r: Rewrite)
    requires start + 130 + source <= |payload| && r.Rewritten?
    requires r == RewriteRecord(
                    payload, start, start + 86, start + 102, start + 104 + source, start + 130 + source, action.queue,
                    action.colony, action.zone, action.buildingId)
    ensures IsRewriteOf(
              r, payload, start, source, start + 130 + source, action.queue, action.colony, action.zone,
              action.buildingId)
  {
    hide RewriteRecord, IsRewriteOf;
    RewriteIsAssembled(
      payload, start, source, start + 130 + source, action.queue, action.colony, action.zone, action.buildingId);
  }

  lemma ZoneSlotTags(payload: seq<byte>, marker: nat, sourceLength: nat)
    requires ZoneSlotShape(payload, marker, sourceLength)
    ensures At(payload, marker + 8 + sourceLength, ZONE_SLOT_COLONY_TAG)
    ensures At(payload, marker + 18 + sourceLength, ZONE_SLOT_ZONE_TAG)
    ensures At(payload, marker + 28 + sourceLength, RECORD_TAIL)
  {
  }

  lemma ZoneSlotRecordReads(
    r: Rewrite, payload: seq<byte>, start: nat, source: nat, end: nat, queue: int, colony: int, zone: int,
    target: seq<byte>)
    requires IsRewriteOf(r, payload, start, source, end, queue, colony, zone, target) && end == start + 130 + source
    requires At(payload, start + 104 + source, ZONE_SLOT_COLONY_TAG)
    requires At(payload, start + 114 + source, ZONE_SLOT_ZONE_TAG)
    ensures 0 <= queue && 0 <= colony && 0 <= zone
    ensures ReadCommand(r.payload, start, end, ZONE_SLOT_COLONY_TAG, ZONE_SLOT_ZONE_TAG)
            == Some(BuildFields(queue, target, colony, zone))
    ensures r.padding == source - |target|
  {
    hide Front, NewSuffix, ReadCommand, ReadNumbers;
    RecordReads(
      r, payload, start, source, end, queue, colony, zone, target, ZONE_SLOT_COLONY_TAG, ZONE_SLOT_ZONE_TAG);
    var idEnd := start + 104 + source;
    var suffix := payload[idEnd..end];
    SliceOfSlice(payload, idEnd, end, 0, 6);
    SliceOfSlice(payload, idEnd, end, 10, 16);
    LongSuffixReadsBack(suffix, r.padding, queue, target, colony, zone, ZONE_SLOT_COLONY_TAG, ZONE_SLOT_ZONE_TAG);
    SuffixKept(suffix, colony, zone);
  }

  /** The layout's tail follows the numbers, and the padding follows the tail. */
  lemma ZoneSlotTailKept(
    r: Rewrite, payload: seq<byte>, start: nat, source: nat, end: nat, queue: int, colony: int, zone: int,
    target: seq<byte>)
    requires IsRewriteOf(r, payload, start, source, end, queue, colony, zone, target) && end == start + 130 + source
    requires At(payload, start + 124 + source, RECORD_TAIL)
    ensures At(r.payload, start + 124 + |target|, RECORD_TAIL)
  {
    hide NewSuffix, LittleEndian, Front;
    var idEnd := start + 104 + source;
    var suffix := payload[idEnd..end];
    var s := NewSuffix(suffix, colony, zone);
    SuffixKept(suffix, colony, zone);
    TailInside(r.payload, start + 104 + |target|, s, r.padding);
    SliceOfSlice(payload, idEnd, end, 20, 26);
    assert suffix[20..] == suffix[20..26];
  }

  lemma TailInside(p: seq<byte>, at: nat, s: seq<byte>, padding: nat)
    requires |s| == 26 && At(p, at, s + Zeros(padding))
    ensures At(p, at + 20, s[20..])
  {
    var w := s + Zeros(padding);
    assert w[20..26] == s[20..];
    SliceOfSlice(p, at, at + |w|, 20, 26);
  }

  /** What a rewritten zone-slot record says: the action's fields, the layout's tail, then the padding. */
  ghost predicate SaysZoneSlot(r: Rewrite, action: BuildAction)
    requires r.Rewritten?
  {
    && 0 <= action.queue && 0 <= action.colony && 0 <= action.zone
    && ReadCommand(r.payload, r.offset, r.offset + r.length, ZONE_SLOT_COLONY_TAG, ZONE_SLOT_ZONE_TAG)
       == Some(BuildFields(action.queue, action.buildingId, action.colony, action.zone))
    && At(r.payload, r.offset + 124 + |action.buildingId|, RECORD_TAIL)
    && r.offset + 130 + |action.buildingId| + r.padding == r.offset + r.length
  }

  lemma ZoneSlotSays(payload: seq<byte>, action: BuildAction, source: nat, r: Rewrite, start: nat, end: nat)
    requires IsRewriteOf(
               r, payload, start, source, end, action.queue, action.colony, action.zone, action.buildingId)
    requires end == start + 130 + source
    requires At(payload, start + 104 + source, ZONE_SLOT_COLONY_TAG)
    requires At(payload, start + 114 + source, ZONE_SLOT_ZONE_TAG)
    requires At(payload, start + 124 + source, RECORD_TAIL)
    ensures FrameKept(payload, r) && SaysZoneSlot(r, action)
  {
    hide Assembled, At, NewSuffix, ReadCommand, ReadNumbers, FrameKept, Front;
    RecordFrameKept(r, payload, start, source, end, action.queue, action.colony, action.zone, action.buildingId);
    ZoneSlotTailKept(r, payload, start, source, end, action.queue, action.colony, action.zone, action.buildingId);
    ZoneSlotRecordReads(r, payload, start, source, end, action.queue, action.colony, action.zone, action.buildingId);
  }

  /** A rewritten zone-slot record says exactly what the action asks for, and nothing around it changes. */
  lemma ZoneSlotReadsBack(payload: seq<byte>, action: BuildAction, source: seq<byte>, r: Rewrite)
    requires r == RewriteZoneSlot(payload, action, source) && r.Rewritten?
    ensures FrameKept(payload, r) && SaysZoneSlot(r, action)
  {
    hide RewriteZoneSlot, LocateZoneSlot, IsRewriteOf, FrameKept, SaysZoneSlot, At, RecordsFrom;
    ZoneSlotRecord(payload, action, source, r);
    var (record, _) := LocateZoneSlot(payload, source).value;
    ZoneSlotSays(payload, action, |source|, r, record.offset, record.offset + record.length);
  }

  /** A located zone-slot record is rewritten exactly when every number fits and the new string is no longer. */
  lemma ZoneSlotSucceeds(payload: seq<byte>, action: BuildAction, source: seq<byte>)
    requires |source| < U16_LIMIT && LocateZoneSlot(payload, source).Some?
    ensures RewriteZoneSlot(payload, action, source).Rewritten?
            <==> Fits(action.queue) && Fits(action.colony) && Fits(action.zone) && |action.buildingId| <= |source|
  {
    var (record, marker) := LocateZoneSlot(payload, source).value;
    if Fits(action.queue) && Fits(action.colony) && Fits(action.zone) {
      SuffixKept(payload[marker + 8 + |source|..record.offset + record.length], action.colony, action.zone);
    }
  }

  // ---------------------------------------------------------------------------------------------
  // The older layout

  lemma FoundIsRewritten(payload: seq<byte>, action: BuildAction, sourceLength: nat, f: OlderFound)
    requires f.envelope + 90 == f.marker && f.marker + 14 + sourceLength < f.end <= |payload|
    requires RewriteFound(payload, action, sourceLength, f).Rewritten?
    ensures IsRewriteOf(
              RewriteFound(payload, action, sourceLength, f), payload, f.envelope, sourceLength, f.end, action.queue,
              action.planet, action.zone, action.buildingId)
  {
    hide RewriteRecord, IsRewriteOf;
    RewriteIsAssembled(
      payload, f.envelope, sourceLength, f.end, action.queue, action.planet, action.zone, action.buildingId);
  }

  lemma OlderRecord(payload: seq<byte>, action: BuildAction, source: seq<byte>, r: Rewrite, f: OlderFound)
    requires r == RewriteOlder(payload, action, source) && r.Rewritten?
    requires LocateOlder(payload, source) == Found(f)
    ensures IsRewriteOf(
              r, payload, f.envelope, |source|, f.end, action.queue, action.planet, action.zone, action.buildingId)
    ensures f.envelope + 90 == f.marker && OlderShape(payload, f.marker, |source|)
  {
    hide LocateOlder, IsRewriteOf, RewriteFound, OlderShape;
    FoundIsRewritten(payload, action, |source|, f);
  }

  lemma OlderTags(payload: seq<byte>, marker: nat, sourceLength: nat)
    requires OlderShape(payload, marker, sourceLength)
    ensures At(payload, marker + 14 + sourceLength, PLANET_TAG)
    ensures At(payload, marker + 24 + sourceLength, PLACEMENT_TAG)
  {
  }

  /** Where the placement number of the older layout starts. */
  function PlacementValueOffset(f: OlderFound, source: seq<byte>): nat {
    f.marker + 14 + |source| + 16
  }

  lemma RecordSuffixReads(
    payload: seq<byte>, idEnd: nat, end: nat, padding: nat, queue: nat, target: seq<byte>, planet: nat, zone: nat)
    requires idEnd <= end <= |payload| && Fits(planet) && Fits(zone)
    requires At(payload, idEnd, PLANET_TAG) && At(payload, idEnd + 10, PLACEMENT_TAG)
    ensures ReadNumbers(
              queue, target, NewSuffix(payload[idEnd..end], planet, zone) + Zeros(padding), PLANET_TAG, PLACEMENT_TAG)
            == Some(BuildFields(queue, target, planet, zone))
            <==> idEnd + 16 <= end || (idEnd + 15 == end && zone == 0 && padding > 0)
  {
    TagsInSuffix(payload, idEnd, end);
    SuffixReadsBackIff(payload[idEnd..end], padding, queue, target, planet, zone);
  }

  lemma OlderRecordReads(
    r: Rewrite, payload: seq<byte>, start: nat, source: nat, end: nat, queue: int, planet: int, zone: int,
    target: seq<byte>)
    requires IsRewriteOf(r, payload, start, source, end, queue, planet, zone, target)
    requires At(payload, start + 104 + source, PLANET_TAG) && At(payload, start + 114 + source, PLACEMENT_TAG)
    ensures 0 <= queue && 0 <= planet && 0 <= zone
    ensures ReadCommand(r.payload, start, end, PLANET_TAG, PLACEMENT_TAG)
            == Some(BuildFields(queue, target, planet, zone))
            <==> start + 120 + source <= end || (start + 119 + source == end && zone == 0 && r.padding > 0)
  {
    hide Assembled, At, NewSuffix, ReadCommand, ReadNumbers;
    RecordReads(r, payload, start, source, end, queue, planet, zone, target, PLANET_TAG, PLACEMENT_TAG);
    RecordSuffixReads(payload, start + 104 + source, end, r.padding, queue, target, planet, zone);
  }

  /**
   * The older layout checks only that the string ends inside the record. The rewritten record says what the action
   * asks for if and only if the record reaches the placement number, or ends one byte before it and a zero placement
   * is completed by a byte of padding.
   */
  lemma OlderReadsBackIff(payload: seq<byte>, action: BuildAction, source: seq<byte>, r: Rewrite, f: OlderFound)
    requires r == RewriteOlder(payload, action, source) && r.Rewritten?
    requires LocateOlder(payload, source) == Found(f)
    ensures 0 <= action.queue && 0 <= action.planet && 0 <= action.zone && FrameKept(payload, r)
    ensures ReadCommand(r.payload, r.offset, r.offset + r.length, PLANET_TAG, PLACEMENT_TAG)
            == Some(BuildFields(action.queue, action.buildingId, action.planet, action.zone))
            <==>
            || PlacementValueOffset(f, source) <= f.end
            || (PlacementValueOffset(f, source) == f.end + 1 && action.zone == 0 && r.padding > 0)
  {
    hide RewriteOlder, LocateOlder, IsRewriteOf, FrameKept, ReadCommand, ReadNumbers, At;
    OlderRecord(payload, action, source, r, f);
    OlderTags(payload, f.marker, |source|);
    OlderSaysIff(payload, action, |source|, r, f.envelope, f.end);
  }

  lemma OlderSaysIff(payload: seq<byte>, action: BuildAction, source: nat, r: Rewrite, start: nat, end: nat)
    requires IsRewriteOf(
               r, payload, start, source, end, action.queue, action.planet, action.zone, action.buildingId)
    requires At(payload, start + 104 + source, PLANET_TAG) && At(payload, start + 114 + source, PLACEMENT_TAG)
    ensures 0 <= action.queue && 0 <= action.planet && 0 <= action.zone && FrameKept(payload, r)
    ensures ReadCommand(r.payload, r.offset, r.offset + r.length, PLANET_TAG, PLACEMENT_TAG)
            == Some(BuildFields(action.queue, action.buildingId, action.planet, action.zone))
            <==> start + 120 + source <= end || (start + 119 + source == end && action.zone == 0 && r.padding > 0)
  {
    hide Assembled, At, NewSuffix, ReadCommand, ReadNumbers, FrameKept;
    RecordFrameKept(r, payload, start, source, end, action.queue, action.planet, action.zone, action.buildingId);
    OlderRecordReads(r, payload, start, source, end, action.queue, action.planet, action.zone, action.buildingId);
  }

  /** The tags that the older layout checks in the payload, as far as they lie inside the record. */
  lemma TagsInSuffix(payload: seq<byte>, idEnd: nat, end: nat)
    requires idEnd <= end <= |payload| && At(payload, idEnd, PLANET_TAG) && At(payload, idEnd + 10, PLACEMENT_TAG)
    ensures var suffix := payload[idEnd..end];
            && (|suffix| >= 16 ==> suffix[..6] == PLANET_TAG && suffix[10..16] == PLACEMENT_TAG)
            && (|suffix| == 15 ==> suffix[..6] == PLANET_TAG && suffix[10..] == PLACEMENT_TAG[..5])
  {
    var suffix := payload[idEnd..end];
    if |suffix| >= 15 {
      assert suffix[..6] == payload[idEnd..idEnd + 6];
      if |suffix| >= 16 {
        SliceOfSlice(payload, idEnd, end, 10, 16);
      } else {
        assert suffix[10..] == payload[idEnd + 10..idEnd + 10 + 6][..5];
      }
    }
  }

  lemma SuffixReadsBackIff(
    suffix: seq<byte>, padding: nat, queue: nat, target: seq<byte>, planet: nat, zone: nat)
    requires Fits(planet) && Fits(zone)
    requires |suffix| >= 16 ==> suffix[..6] == PLANET_TAG && suffix[10..16] == PLACEMENT_TAG
    requires |suffix| == 15 ==> suffix[..6] == PLANET_TAG && suffix[10..] == PLACEMENT_TAG[..5]
    ensures ReadNumbers(queue, target, NewSuffix(suffix, planet, zone) + Zeros(padding), PLANET_TAG, PLACEMENT_TAG)
            == Some(BuildFields(queue, target, planet, zone))
            <==> |suffix| >= 16 || (|suffix| == 15 && zone == 0 && padding > 0)
  {
    var w := NewSuffix(suffix, planet, zone) + Zeros(padding);
    if |suffix| >= 16 {
      LongSuffixReadsBack(suffix, padding, queue, target, planet, zone, PLANET_TAG, PLACEMENT_TAG);
    } else {
      ShortSuffix(suffix, planet, zone, padding);
      var m := |Assign(suffix, 6, 10, LittleEndian(planet, 4))|;
      if ReadNumbers(queue, target, w, PLANET_TAG, PLACEMENT_TAG) == Some(BuildFields(queue, target, planet, zone)) {
        MisplacedNumber(w, m, zone);
      }
      if |suffix| == 15 && zone == 0 && padding > 0 {
        FifteenBytes(suffix, planet, padding, w);
      }
    }
  }

  /** The one short suffix that still reads back: the missing tag byte and the number are all zeros. */
  lemma FifteenBytes(suffix: seq<byte>, planet: nat, padding: nat, w: seq<byte>)
    requires |suffix| == 15 && Fits(planet) && padding > 0
    requires suffix[..6] == PLANET_TAG && suffix[10..] == PLACEMENT_TAG[..5]
    requires |w| == 19 + padding && At(w, 0, suffix[..6]) && At(w, 6, LittleEndian(planet, 4)) && At(w, 10, suffix[10..])
    requires At(w, 15, LittleEndian(0, 4)) && forall i | 19 <= i < |w| :: w[i] == 0
    ensures w[..6] == PLANET_TAG && w[10..16] == PLACEMENT_TAG && U32At(w, 6) == planet && U32At(w, 16) == 0
  {
    U32RoundTrip(w, 6, planet);
    var zeros := LittleEndian(0, 4);
    assert w[15..19] == zeros;
    FourBytes(zeros);
    PowersOf256();
    LittleEndianRoundTrip(0, 4);
    assert w[15] == zeros[0] && w[16] == zeros[1] && w[17] == zeros[2] && w[18] == zeros[3];
    FourBytes(w[16..20]);
    assert w[10..16] == w[10..15] + [w[15]];
  }

  /** The search needle contains the length, so the declared string length always agrees. */
  lemma StringLengthAlwaysAgrees(payload: seq<byte>, source: seq<byte>)
    requires |source| < U16_LIMIT
    ensures LocateOlder(payload, source) != Broken(StringLengthMismatch)
  {
    var needle := Marker(BUILD_STRING_TAG, source);
    if CountFrom(payload, needle, 0) == 1 {
      var marker := Find(payload, needle, 0).value;
      MarkerLength(payload, marker, BUILD_STRING_TAG, source);
    }
  }

  lemma MarkerLength(payload: seq<byte>, marker: nat, tag: seq<byte>, source: seq<byte>)
    requires |source| < U16_LIMIT && At(payload, marker, Marker(tag, source))
    ensures U16At(payload, marker + |tag|) == |source|
  {
    var n := LittleEndian(|source|, 2);
    Middle(tag, n, source);
    var m := Marker(tag, source);
    assert payload[marker..marker + |m|] == m;
    SliceOfSlice(payload, marker, marker + |m|, |tag|, |tag| + 2);
    U16RoundTrip(payload, marker + |tag|, |source|);
  }

  // ---------------------------------------------------------------------------------------------
  // A record of the older layout that ends inside its numbers

  lemma OnlyOccurrence(b: seq<byte>, needle: seq<byte>, before: seq<byte>, after: seq<byte>)
    requires needle != [] && b == before + needle + after
    requires needle[0] !in before && needle[0] !in needle[1..] && needle[0] !in after
    ensures Find(b, needle, 0) == Some(|before|) && CountFrom(b, needle, 0) == 1
    ensures forall i: int :: At(b, i, needle) ==> i == |before|
  {
    Middle(before, needle, after);
    assert needle == [needle[0]] + needle[1..];
    forall i | 0 <= i <= |b| && i != |before| ensures !At(b, i, needle) {
      assert i < |before| ==> b[i] == before[i];
      assert |before| < i < |before| + |needle| ==> b[i] == needle[1..][i - |before| - 1];
      assert |before| + |needle| <= i < |b| ==> b[i] == after[i - |before| - |needle|];
      assert i + |needle| <= |b| ==> b[i..i + |needle|][0] == b[i];
    }
    assert Find(b, needle, |before| + |needle|).None?;
    assert CountFrom(b, needle, |before| + |needle|) == 0;
  }

  const SHORT_SOURCE: seq<byte> := [0x77, 0x77, 0x77, 0x77, 0x77, 0x77, 0x77, 0x77]

  function ShortHead(): (h: seq<byte>)
    ensures |h| == 90 && h[0] == 126 && h[1] == 0
    ensures At(h, 2, ENVELOPE_TYPE) && At(h, 70, BUILD_HEAD) && At(h, 80, QUEUE_TAG)
    ensures 0x41 !in h && 0xb2 !in h
  {
    var h := [126, 0, 4, 0, 0, 0] + Zeros(64) + [0x61, 0x2c, 0x01, 0x00, 0x14, 0x00, 0x00, 0x00, 0x00, 0x00]
             + [0xea, 0x3f, 0x01, 0x00, 0x14, 0x00] + Zeros(4);
    assert h[2..6] == ENVELOPE_TYPE;
    h
  }

  function ShortTail(): (t: seq<byte>)
    ensures |t| == 16 && At(t, 0, PLANET_TAG) && At(t, 10, PLACEMENT_TAG) && 0x41 !in t && 0xb2 !in t
  {
    [0xfc, 0x29, 0x01, 0x00, 0x14, 0x00] + Zeros(4) + [0x93, 0x2b, 0x01, 0x00, 0x14, 0x00]
  }

  /** A payload whose only command declares that it ends one byte before the placement number. */
  function ShortPayload(): seq<byte> {
    ShortHead() + ([0x41, 0x3d, 0x01, 0x00, 0x03, 0x00, 0x92, 0x2b, 0x01, 0x00, 0x0f, 0x00, 8, 0] + SHORT_SOURCE)
    + ShortTail()
  }

  lemma ShortNeedle()
    ensures var needle := Marker(BUILD_STRING_TAG, SHORT_SOURCE);
            |needle| == 22
            && needle == [0x41, 0x3d, 0x01, 0x00, 0x03, 0x00, 0x92, 0x2b, 0x01, 0x00, 0x0f, 0x00, 8, 0] + SHORT_SOURCE
            && needle[0] == 0x41 && 0x41 !in needle[1..] && 0xb2 !in needle && At(needle, 12, LittleEndian(8, 2))
  {
    var low := LittleEndian(8, 2);
    assert LittleEndian(0, 1) == [0] + LittleEndian(0, 0);
    assert low == [8] + LittleEndian(0, 1) == [8, 0];
    var needle := Marker(BUILD_STRING_TAG, SHORT_SOURCE);
    assert needle[1..] == BUILD_STRING_TAG[1..] + low + SHORT_SOURCE;
    Middle(BUILD_STRING_TAG, low, SHORT_SOURCE);
  }

  lemma ShortShape()
    ensures OlderShape(ShortPayload(), 90, 8) && Slice(ShortPayload(), 2, 6) == ENVELOPE_TYPE
    ensures U16At(ShortPayload(), 0) == 126
  {
    var p, needle := ShortPayload(), Marker(BUILD_STRING_TAG, SHORT_SOURCE);
    ShortNeedle();
    assert p[..90] == ShortHead();
    assert p[70..80] == ShortHead()[70..80] && p[80..86] == ShortHead()[80..86] && p[2..6] == ShortHead()[2..6];
    assert p[112..118] == ShortTail()[0..6] && p[122..128] == ShortTail()[10..16];
    assert p[0..2] == [126, 0];
    assert [126, 0][1..] == [0] && FromLittleEndian([0]) == 0 + 256 * FromLittleEndian([0][1..]);
  }

  lemma ShortIsFound()
    ensures LocateOlder(ShortPayload(), SHORT_SOURCE) == Found(OlderFound(0, 90, 127))
  {
    var needle := Marker(BUILD_STRING_TAG, SHORT_SOURCE);
    ShortNeedle();
    ShortShape();
    OnlyOccurrence(ShortPayload(), needle, ShortHead(), ShortTail());
    StringLengthAlwaysAgrees(ShortPayload(), SHORT_SOURCE);
  }

  lemma ShortIsOlder(action: BuildAction)
    ensures RewriteBuilding(ShortPayload(), action, SHORT_SOURCE) == RewriteOlder(ShortPayload(), action, SHORT_SOURCE)
  {
    ShortNeedle();
    var needle := Marker(ZONE_SLOT_STRING_TAG, SHORT_SOURCE);
    assert needle[0] == 0xb2;
    var p := ShortPayload();
    assert 0xb2 !in p;
    forall i | 0 <= i <= |p| ensures !At(p, i, needle) {
      assert i + |needle| <= |p| ==> p[i..i + |needle|][0] == p[i];
    }
    assert CountFrom(p, needle, 0) == 0;
  }

  /** A non-zero placement does not read back from a record that ends one byte before it. */
  lemma PlacementIsLost(payload: seq<byte>, action: BuildAction, source: seq<byte>, r: Rewrite, f: OlderFound)
    requires r == RewriteOlder(payload, action, source) && r.Rewritten? && LocateOlder(payload, source) == Found(f)
    requires PlacementValueOffset(f, source) == f.end + 1 && action.zone != 0
    ensures 0 <= action.queue && 0 <= action.planet && 0 <= action.zone
    ensures ReadCommand(r.payload, r.offset, r.offset + r.length, PLANET_TAG, PLACEMENT_TAG)
            != Some(BuildFields(action.queue, action.buildingId, action.planet, action.zone))
  {
    OlderReadsBackIff(payload, action, source, r, f);
  }

  lemma ShortPlacement()
    ensures PlacementValueOffset(OlderFound(0, 90, 127), SHORT_SOURCE) == 128
  {
  }

  lemma ShortOlderIsLost(action: BuildAction)
    requires Fits(action.queue) && Fits(action.planet) && Fits(action.zone) && |action.buildingId| == 1 && action.zone != 0
    ensures var r := RewriteOlder(ShortPayload(), action, SHORT_SOURCE);
            && r.Rewritten?
            && ReadCommand(r.payload, r.offset, r.offset + r.length, PLANET_TAG, PLACEMENT_TAG)
               != Some(BuildFields(action.queue, action.buildingId, action.planet, action.zone))
  {
    hide *;
    ShortIsFound();
    ShortIsRewritten(action);
    ShortPlacement();
    var r := RewriteOlder(ShortPayload(), action, SHORT_SOURCE);
    PlacementIsLost(ShortPayload(), action, SHORT_SOURCE, r, OlderFound(0, 90, 127));
  }

  /** The rewriter accepts this payload, and what it returns does not read back. */
  lemma ShortRecordLosesItsNumbers(action: BuildAction)
    requires action == BuildAction([0x78], 1, 2, 3, 4)
    ensures var r := RewriteBuilding(ShortPayload(), action, SHORT_SOURCE);
            && r.Rewritten?
            && ReadCommand(r.payload, r.offset, r.offset + r.length, PLANET_TAG, PLACEMENT_TAG)
               != Some(BuildFields(1, [0x78], 2, 4))
  {
    hide RewriteBuilding, RewriteOlder, ReadCommand, ShortPayload, LocateOlder, Obstacle, OlderShape;
    ShortIsOlder(action);
    ShortOlderIsLost(action);
  }

  lemma ShortIsRewritten(action: BuildAction)
    requires Fits(action.queue) && Fits(action.planet) && Fits(action.zone) && |action.buildingId| == 1
    ensures RewriteOlder(ShortPayload(), action, SHORT_SOURCE).Rewritten?
  {
    ShortIsFound();
    ShortNeedle();
    var suffix := ShortPayload()[112..127];
    assert |NewSuffix(suffix, action.planet, action.zone)| == 19;
  }

  // ---------------------------------------------------------------------------------------------
  // The command record survives

  lemma {:induction false} FoundWhereItStands(
    data: seq<byte>, marker: seq<byte>, from: nat, at: nat, record: CommandRecord)
    requires from <= at && At(data, at, marker) && RecordAt(data, at) == Some(record)
    ensures record in RecordsFrom(data, marker, from)
    decreases at - from
  {
    if from < at {
      FoundWhereItStands(data, marker, from + 1, at, record);
    }
  }

  /** Whether there is a record at a marker depends on the length and on the bytes up to the serial only. */
  lemma RecordDependsOnFront(p: seq<byte>, q: seq<byte>, marker: nat)
    requires |p| == |q| && 12 <= marker && marker + 74 <= |p| && p[..marker + 74] == q[..marker + 74]
    ensures RecordAt(p, marker) == RecordAt(q, marker)
  {
    var offset := marker - 12;
    assert forall i | 0 <= i < marker + 74 :: p[i] == p[..marker + 74][i] && q[i] == q[..marker + 74][i];
    assert p[offset + 58..offset + 60] == q[offset + 58..offset + 60];
    assert p[offset + 2..offset + 6] == q[offset + 2..offset + 6];
    if offset >= 3 {
      assert p[offset - 3..offset - 1] == q[offset - 3..offset - 1];
    }
  }

  /** The scanner still finds the rewritten record: same offset, same length, same serial. */
  lemma RecordStillFound(payload: seq<byte>, action: BuildAction, source: seq<byte>, r: Rewrite)
    requires r == RewriteZoneSlot(payload, action, source) && r.Rewritten?
    ensures exists record | record in RecordsFrom(payload, COMMON_MARKER, 0) ::
              && record.offset == r.offset && record.length == r.length
              && record in RecordsFrom(r.payload, COMMON_MARKER, 0)
  {
    hide RewriteZoneSlot, LocateZoneSlot, IsRewriteOf, RecordsFrom;
    ZoneSlotRecord(payload, action, source, r);
    var (record, _) := LocateZoneSlot(payload, source).value;
    RecordFrameKept(
      r, payload, record.offset, |source|, record.offset + record.length, action.queue, action.colony, action.zone,
      action.buildingId);
    SameRecord(payload, r.payload, COMMON_MARKER, record);
  }

  lemma SameRecord(p: seq<byte>, q: seq<byte>, marker: seq<byte>, record: CommandRecord)
    requires |p| == |q| && record.offset + 104 <= |p| && p[..record.offset + 86] == q[..record.offset + 86]
    requires record in RecordsFrom(p, marker, 0) && |marker| == 12
    ensures record in RecordsFrom(q, marker, 0)
  {
    RecordsAreComplete(p, marker, 0, record);
    var at := record.offset + 12;
    RecordDependsOnFront(p, q, at);
    assert q[at..at + 12] == q[..record.offset + 86][at..at + 12] == p[at..at + 12];
    FoundWhereItStands(q, marker, 0, at, record);
  }

  // ---------------------------------------------------------------------------------------------
  // The whole rewrite

  lemma BuildingFrameKept(payload: seq<byte>, action: BuildAction, source: seq<byte>, r: Rewrite)
    requires r == RewriteBuilding(payload, action, source) && r.Rewritten?
    ensures FrameKept(payload, r)
  {
    if RewriteZoneSlot(payload, action, source).NotThisLayout? {
      OlderFrameKept(payload, action, source, r);
    } else {
      ZoneSlotReadsBack(payload, action, source, r);
    }
  }

  lemma OlderFrameKept(payload: seq<byte>, action: BuildAction, source: seq<byte>, r: Rewrite)
    requires r == RewriteOlder(payload, action, source) && r.Rewritten?
    ensures FrameKept(payload, r)
  {
    var f := LocateOlder(payload, source).found;
    OlderRecord(payload, action, source, r, f);
    RecordFrameKept(
      r, payload, f.envelope, |source|, f.end, action.queue, action.planet, action.zone, action.buildingId);
  }

  /**
   * The checks after the rewriters: the length check can never fail, and a carrier that comes back rewritten keeps
   * its frame and no longer names the source anywhere, unless the action asks for the source itself.
   */
  lemma CarrierIsSafe(payload: seq<byte>, action: BuildAction, source: seq<byte>)
    requires source != []
    ensures var r := RewriteCarrier(payload, action, source);
            && r != Failed(LengthChanged)
            && (r.NotThisLayout? <==> !Contains(payload, source))
            && (r.Rewritten? ==> FrameKept(payload, r))
            && (r.Rewritten? && action.buildingId != source ==> !Contains(r.payload, source))
  {
    hide Contains, FrameKept, Find;
    ContainsIsFind(payload, source);
    var b := RewriteBuilding(payload, action, source);
    NoLengthError(payload, action, source);
    if b.Rewritten? {
      BuildingFrameKept(payload, action, source, b);
      ContainsIsFind(b.payload, source);
    }
  }

  lemma NoLengthError(payload: seq<byte>, action: BuildAction, source: seq<byte>)
    ensures RewriteBuilding(payload, action, source) != Failed(LengthChanged)
  {
    hide LocateZoneSlot, NewSuffix, NewPrefix, OlderShape, Slice;
  }
}
