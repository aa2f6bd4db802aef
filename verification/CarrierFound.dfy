/** Which payloads the building rewriters recognise, and exactly how a recognised one ends. */
module CarrierFound {
  import opened Basics
  import opened PythonBytes
  import opened CarrierRewrite
  import opened CarrierReadBack
  import opened CarrierResults

  // ---------------------------------------------------------------------------------------------
  // Counting occurrences

  /** The first occurrence stands at `at`, and no other one begins behind its end. */
  ghost predicate StandsOnce(b: seq<byte>, needle: seq<byte>, at: int) {
    At(b, at, needle) && forall i: int :: At(b, i, needle) ==> at <= i < at + |needle|
  }

  lemma OnceIff(b: seq<byte>, needle: seq<byte>, at: nat)
    requires needle != []
    ensures CountFrom(b, needle, 0) == 1 && Find(b, needle, 0) == Some(at) <==> StandsOnce(b, needle, at)
  {
    var first := Find(b, needle, 0);
    if first.Some? {
      var second := Find(b, needle, first.value + |needle|);
      assert CountFrom(b, needle, 0) == 1 <==> second.None?;
    }
  }

  lemma CountedOnceIff(b: seq<byte>, needle: seq<byte>)
    requires needle != []
    ensures CountFrom(b, needle, 0) == 1 <==> exists at: nat :: StandsOnce(b, needle, at)
  {
    if CountFrom(b, needle, 0) == 1 {
      OnceIff(b, needle, Find(b, needle, 0).value);
    }
    if at: nat :| StandsOnce(b, needle, at) {
      OnceIff(b, needle, at);
    }
  }

  // ---------------------------------------------------------------------------------------------
  // Command records

  /** How the three bytes in front of a record say which page of 256 its length lies in. */
  predicate PageBefore(before: seq<byte>, page: nat) {
    var n := |before|;
    if n >= 3 && before[n - 3] == 0 && before[n - 2] == 0 then before[n - 1] == page else page == 0
  }

  /** The bytes of a command: its low length byte, the envelope type, the common marker. */
  predicate IsCommand(record: seq<byte>) {
    && 60 <= |record| <= 65536
    && record[0] == (|record| - 1) % 256
    && record[2] == 4 && record[3] == 0 && record[4] == 0 && record[5] == 0
    && At(record, 12, COMMON_MARKER)
  }

  /** A command inside any bytes is found, with its own length and serial, exactly when its page stands before it. */
  lemma CommandIsFoundIff(before: seq<byte>, record: seq<byte>, after: seq<byte>)
    requires IsCommand(record)
    ensures CommandRecord(|before|, |record|, record[58] as int + 256 * (record[59] as int))
              in RecordsFrom(before + record + after, COMMON_MARKER, 0)
            <==> PageBefore(before, (|record| - 1) / 256)
  {
    var data, at := before + record + after, |before| + 12;
    var found := CommandRecord(|before|, |record|, record[58] as int + 256 * (record[59] as int));
    Middle(before, record, after);
    SliceOfSlice(data, |before|, |before| + |record|, 12, 24);
    SliceOfSlice(data, |before|, |before| + |record|, 2, 6);
    SliceOfSlice(data, |before|, |before| + |record|, 58, 60);
    TwoBytes(record[58..60]);
    CommandAt(data, before, record, after);
    if PageBefore(before, (|record| - 1) / 256) {
      FoundWhereItStands(data, COMMON_MARKER, 0, at, found);
    }
    if found in RecordsFrom(data, COMMON_MARKER, 0) {
      RecordsAreComplete(data, COMMON_MARKER, 0, found);
    }
  }

  lemma TwoBytes(b: seq<byte>)
    requires |b| == 2
    ensures FromLittleEndian(b) == b[0] as int + 256 * (b[1] as int)
  {
    assert b[1..][1..] == [];
    assert FromLittleEndian(b[1..]) == b[1] as int;
  }

  lemma CommandAt(data: seq<byte>, before: seq<byte>, record: seq<byte>, after: seq<byte>)
    requires IsCommand(record) && data == before + record + after
    requires data[|before| + 2..|before| + 6] == record[2..6]
    requires data[|before| + 58..|before| + 60] == record[58..60]
    requires FromLittleEndian(record[58..60]) == record[58] as int + 256 * (record[59] as int)
    ensures RecordAt(data, |before| + 12)
              == Some(CommandRecord(|before|, |record|, record[58] as int + 256 * (record[59] as int)))
            <==> PageBefore(before, (|record| - 1) / 256)
  {
    var n := |before|;
    assert data[n] == record[0] && record[2..6] == ENVELOPE_TYPE;
    assert U16At(data, n + 58) == record[58] as int + 256 * (record[59] as int);
    if n >= 3 {
      assert data[n - 1] == before[n - 1] && data[n - 2] == before[n - 2] && data[n - 3] == before[n - 3];
      assert data[n - 3..n - 1] == [data[n - 3], data[n - 2]];
    }
  }

  predicate InOrder(records: seq<CommandRecord>) {
    forall i, j | 0 <= i < j < |records| :: records[i].offset < records[j].offset
  }

  /** Records are reported in order, none twice. */
  lemma {:induction false} RecordsAscend(data: seq<byte>, marker: seq<byte>, from: nat)
    ensures InOrder(RecordsFrom(data, marker, from))
    ensures forall x | x in RecordsFrom(data, marker, from) :: x.offset + 12 >= from
    decreases |data| + 1 - from
  {
    if from <= |data| {
      RecordsAscend(data, marker, from + 1);
      var here, rest := RecordsHere(data, marker, from), RecordsFrom(data, marker, from + 1);
      assert forall x | x in here :: x.offset + 12 == from;
      assert RecordsFrom(data, marker, from) == here + rest;
    }
  }

  predicate Spans(record: CommandRecord, from: int, to: int) {
    record.offset <= from && to <= record.offset + record.length
  }

  lemma {:induction false} EnclosingIff(records: seq<CommandRecord>, from: nat, to: nat, x: CommandRecord)
    ensures x in Enclosing(records, from, to) <==> x in records && Spans(x, from, to)
  {
    if records != [] {
      EnclosingIff(records[1..], from, to, x);
      assert x in records <==> x == records[0] || x in records[1..];
    }
  }

  lemma {:induction false} EnclosingNone(records: seq<CommandRecord>, from: nat, to: nat)
    requires forall x | x in records :: !Spans(x, from, to)
    ensures Enclosing(records, from, to) == []
  {
    if records != [] {
      assert records[0] in records;
      EnclosingNone(records[1..], from, to);
    }
  }

  /** In an ordered list the one record that spans the stretch is found once. */
  lemma {:induction false} EnclosingOne(records: seq<CommandRecord>, from: nat, to: nat, record: CommandRecord)
    requires InOrder(records) && record in records && Spans(record, from, to)
    requires forall x | x in records && Spans(x, from, to) :: x == record
    ensures Enclosing(records, from, to) == [record]
  {
    var first, rest := records[0], records[1..];
    assert first in records && forall x | x in rest :: x in records;
    if first == record {
      forall x | x in rest ensures !Spans(x, from, to) {
        var i :| 0 <= i < |rest| && rest[i] == x;
        assert records[0].offset < records[i + 1].offset;
      }
      EnclosingNone(rest, from, to);
    } else {
      assert forall i | 0 <= i < |rest| :: rest[i] == records[i + 1];
      EnclosingOne(rest, from, to, record);
    }
  }

  // ---------------------------------------------------------------------------------------------
  // The tags around a string

  lemma SliceIff(b: seq<byte>, lo: nat, hi: nat, tag: seq<byte>)
    requires tag != [] && hi == lo + |tag|
    ensures Slice(b, lo, hi) == tag <==> At(b, lo, tag)
  {
  }

  /** The tags of a zone-slot command, counted from the position of its string tag. */
  lemma ZoneSlotShapeIff(payload: seq<byte>, marker: nat, sourceLength: nat)
    ensures ZoneSlotShape(payload, marker, sourceLength) <==>
            && At(payload, marker - 26, [0x82, 0x2c, 0x01, 0x00, 0x14, 0x00])
            && At(payload, marker - 14, [0x01, 0x00, 0x14, 0x00])
            && At(payload, marker - 4, [0x01, 0x00, 0x03, 0x00])
            && At(payload, marker + 8 + sourceLength, [0x13, 0x2a, 0x01, 0x00, 0x14, 0x00])
            && At(payload, marker + 18 + sourceLength, [0xb3, 0x2b, 0x01, 0x00, 0x14, 0x00])
            && At(payload, marker + 28 + sourceLength, [0x04, 0x00, 0x04, 0x00, 0x04, 0x00])
  {
    hide At, Slice;
    if marker >= 26 {
      SliceIff(payload, marker - 26, marker - 20, ZONE_SLOT_CONTEXT_TAG);
      SliceIff(payload, marker - 14, marker - 10, U32_FIELD_SUFFIX);
      SliceIff(payload, marker - 4, marker, STRING_FIELD_SUFFIX);
      SliceIff(payload, marker + 8 + sourceLength, marker + 14 + sourceLength, ZONE_SLOT_COLONY_TAG);
      SliceIff(payload, marker + 18 + sourceLength, marker + 24 + sourceLength, ZONE_SLOT_ZONE_TAG);
      SliceIff(payload, marker + 28 + sourceLength, marker + 34 + sourceLength, RECORD_TAIL);
    } else {
      NotBefore(payload, marker - 26, [0x82, 0x2c, 0x01, 0x00, 0x14, 0x00]);
    }
  }

  lemma NotBefore(b: seq<byte>, i: int, tag: seq<byte>)
    requires i < 0
    ensures !At(b, i, tag)
  {
  }

  /** The tags of an older command, counted in the same way. */
  lemma OlderShapeIff(payload: seq<byte>, marker: nat, sourceLength: nat)
    ensures OlderShape(payload, marker, sourceLength) <==>
            && At(payload, marker - 20, [0x61, 0x2c, 0x01, 0x00, 0x14, 0x00, 0x00, 0x00, 0x00, 0x00])
            && At(payload, marker - 10, [0xea, 0x3f, 0x01, 0x00, 0x14, 0x00])
            && At(payload, marker + 14 + sourceLength, [0xfc, 0x29, 0x01, 0x00, 0x14, 0x00])
            && At(payload, marker + 24 + sourceLength, [0x93, 0x2b, 0x01, 0x00, 0x14, 0x00])
  {
    hide At, Slice;
    if marker >= 20 {
      SliceIff(payload, marker - 20, marker - 10, BUILD_HEAD);
      SliceIff(payload, marker - 10, marker - 4, QUEUE_TAG);
      SliceIff(payload, marker + 14 + sourceLength, marker + 20 + sourceLength, PLANET_TAG);
      SliceIff(payload, marker + 24 + sourceLength, marker + 30 + sourceLength, PLACEMENT_TAG);
    } else {
      NotBefore(payload, marker - 20, [0x61, 0x2c, 0x01, 0x00, 0x14, 0x00, 0x00, 0x00, 0x00, 0x00]);
    }
  }

  // ---------------------------------------------------------------------------------------------
  // When a zone-slot command is recognised

  /** The command around a marker: one record, that begins 96 bytes before it and ends with the layout's tail. */
  ghost predicate OnlyRecord(payload: seq<byte>, sourceLength: nat, record: CommandRecord, marker: int) {
    var records, end := RecordsFrom(payload, COMMON_MARKER, 0), marker + 34 + sourceLength;
    && record in records && marker == record.offset + 96 && end == record.offset + record.length
    && forall x | x in records && Spans(x, marker - 26, end) :: x == record
  }

  /** The source stands there once as the string of a zone-slot command, which fills a record of its own. */
  ghost predicate ZoneSlotAt(payload: seq<byte>, source: seq<byte>, record: CommandRecord, marker: nat) {
    && StandsOnce(payload, Marker(ZONE_SLOT_STRING_TAG, source), marker)
    && ZoneSlotShape(payload, marker, |source|)
    && OnlyRecord(payload, |source|, record, marker)
  }

  /** A zone-slot command is located exactly when it stands in the payload, and then where it stands. */
  lemma ZoneSlotLocatedIff(payload: seq<byte>, source: seq<byte>, record: CommandRecord, marker: nat)
    ensures LocateZoneSlot(payload, source) == Some((record, marker)) <==> ZoneSlotAt(payload, source, record, marker)
  {
    hide RecordsFrom, ZoneSlotShape, At, Find, CountFrom, StandsOnce;
    var needle := Marker(ZONE_SLOT_STRING_TAG, source);
    OnceIff(payload, needle, marker);
    if CountFrom(payload, needle, 0) == 1 && Find(payload, needle, 0) == Some(marker)
       && ZoneSlotShape(payload, marker, |source|) {
      RecordChosenIff(payload, |source|, record, marker);
    }
  }

  lemma ShapeStandsBehind(payload: seq<byte>, marker: nat, sourceLength: nat)
    requires ZoneSlotShape(payload, marker, sourceLength)
    ensures marker >= 26
  {
  }

  lemma RecordChosenIff(payload: seq<byte>, sourceLength: nat, record: CommandRecord, marker: nat)
    requires ZoneSlotShape(payload, marker, sourceLength)
    ensures marker >= 26
    ensures var end := marker + 8 + sourceLength + 26;
            var matching := Enclosing(RecordsFrom(payload, COMMON_MARKER, 0), marker - 26, end);
            matching == [record] && marker - 26 == record.offset + ENVELOPE_DISTANCE
            && end == record.offset + record.length
            <==> OnlyRecord(payload, sourceLength, record, marker)
  {
    hide RecordsFrom, Enclosing;
    ShapeStandsBehind(payload, marker, sourceLength);
    var records, end := RecordsFrom(payload, COMMON_MARKER, 0), marker + 8 + sourceLength + 26;
    RecordsAscend(payload, COMMON_MARKER, 0);
    if OnlyRecord(payload, sourceLength, record, marker) {
      EnclosingOne(records, marker - 26, end, record);
    }
    if Enclosing(records, marker - 26, end) == [record] {
      forall x | x in records && Spans(x, marker - 26, end) ensures x == record {
        EnclosingIff(records, marker - 26, end, x);
      }
      EnclosingIff(records, marker - 26, end, record);
    }
  }


  // ---------------------------------------------------------------------------------------------
  // How a recognised command ends

  predicate IsU32(n: int) {
    0 <= n < 4294967296
  }

  /** The numbers fit four bytes each, the length of the string two. */
  predicate ZoneSlotFits(action: BuildAction) {
    IsU32(action.queue) && IsU32(action.colony) && IsU32(action.zone) && |action.buildingId| < 65536
  }

  /** A recognised zone-slot command is rewritten, or fails for one of two reasons. */
  lemma ZoneSlotOutcome(
    payload: seq<byte>, action: BuildAction, source: seq<byte>, record: CommandRecord, marker: nat)
    requires |source| < 65536 && ZoneSlotAt(payload, source, record, marker)
    ensures var r := RewriteZoneSlot(payload, action, source);
            if !ZoneSlotFits(action) then r == Failed(Overflow)
            else if |action.buildingId| > |source| then r == Failed(TooLong)
            else r.Rewritten? && r.offset == record.offset && r.length == record.length
  {
    hide ZoneSlotAt, RecordsFrom, Find, CountFrom, At, NewPrefix, NewSuffix, ZoneSlotShape;
    ZoneSlotLocatedIff(payload, source, record, marker);
    if ZoneSlotFits(action) {
      SuffixKept(payload[marker + 8 + |source|..record.offset + record.length], action.colony, action.zone);
    }
  }

  lemma ZoneSlotAbsentIff(payload: seq<byte>, action: BuildAction, source: seq<byte>)
    requires |source| < 65536
    ensures RewriteZoneSlot(payload, action, source).NotThisLayout?
            <==> !exists record, marker: nat :: ZoneSlotAt(payload, source, record, marker)
  {
    hide ZoneSlotAt;
    var located := LocateZoneSlot(payload, source);
    if located.Some? {
      var (record, marker) := located.value;
      ZoneSlotLocatedIff(payload, source, record, marker);
      ZoneSlotOutcome(payload, action, source, record, marker);
    } else {
      forall record, marker: nat ensures !ZoneSlotAt(payload, source, record, marker) {
        ZoneSlotLocatedIff(payload, source, record, marker);
      }
    }
  }

  ghost predicate StandsOnceSomewhere(b: seq<byte>, needle: seq<byte>) {
    exists at: nat :: StandsOnce(b, needle, at)
  }

  /** The rewriter leaves the source in the payload by accident, across the bytes that it writes. */
  ghost predicate SourceComesBack(rewritten: Rewrite, action: BuildAction, source: seq<byte>) {
    rewritten.Rewritten? && action.buildingId != source && Contains(rewritten.payload, source)
  }

  lemma CheckedOutcome(payload: seq<byte>, action: BuildAction, source: seq<byte>)
    requires source != [] && StandsOnceSomewhere(payload, source)
    ensures var b, r := RewriteBuilding(payload, action, source), RewriteCarrier(payload, action, source);
            match b
            case NotThisLayout => r == Failed(NoRecord)
            case Failed(error) => r == Failed(error)
            case Rewritten(_, _, _, _) => r == if SourceComesBack(b, action, source) then Failed(SourceRemains) else b
  {
    hide RewriteBuilding, Find, CountFrom, Contains, FrameKept, StandsOnce;
    CountedOnceIff(payload, source);
    CarrierIsSafe(payload, action, source);
    var at: nat :| StandsOnce(payload, source, at);
    OnceIff(payload, source, at);
    var b := RewriteBuilding(payload, action, source);
    if b.Rewritten? {
      BuildingFrameKept(payload, action, source, b);
      KeepsLength(payload, b);
      ContainsIsFind(b.payload, source);
    }
  }

  lemma KeepsLength(payload: seq<byte>, r: Rewrite)
    requires r.Rewritten? && FrameKept(payload, r)
    ensures |r.payload| == |payload|
  {
  }

  lemma ManyCarriersIff(payload: seq<byte>, action: BuildAction, source: seq<byte>)
    requires source != []
    ensures RewriteCarrier(payload, action, source) == Failed(ManyCarriers)
            <==> Contains(payload, source) && !StandsOnceSomewhere(payload, source)
  {
    hide RewriteBuilding, Find, CountFrom, Contains, StandsOnce;
    ContainsIsFind(payload, source);
    CountedOnceIff(payload, source);
    if StandsOnceSomewhere(payload, source) {
      CheckedOutcome(payload, action, source);
      NeverManyCarriers(payload, action, source);
    }
  }

  lemma NeverManyCarriers(payload: seq<byte>, action: BuildAction, source: seq<byte>)
    ensures RewriteBuilding(payload, action, source) != Failed(ManyCarriers)
  {
    hide LocateZoneSlot, NewSuffix, NewPrefix, OlderShape, Slice;
  }

  /**
   * A payload in which the source stands once, as the string of a zone-slot command: it comes back rewritten if and
   * only if the numbers fit, the new string is no longer than the old one, and the source does not come back by
   * accident; and otherwise these are the errors.
   */
  lemma ZoneSlotCarrierIff(
    payload: seq<byte>, action: BuildAction, source: seq<byte>, record: CommandRecord, marker: nat)
    requires 0 < |source| < 65536 && ZoneSlotAt(payload, source, record, marker) && StandsOnceSomewhere(payload, source)
    ensures var r, rewritten := RewriteCarrier(payload, action, source), RewriteZoneSlot(payload, action, source);
            if !ZoneSlotFits(action) then r == Failed(Overflow)
            else if |action.buildingId| > |source| then r == Failed(TooLong)
            else if SourceComesBack(rewritten, action, source) then r == Failed(SourceRemains)
            else r.Rewritten? && r == rewritten && r.offset == record.offset && r.length == record.length
  {
    hide RewriteZoneSlot, RewriteCarrier, RewriteOlder, ZoneSlotAt, StandsOnceSomewhere, Contains;
    ZoneSlotOutcome(payload, action, source, record, marker);
    CheckedOutcome(payload, action, source);
  }

  /** A source whose length two bytes cannot say is never rewritten. */
  lemma HugeSourceFails(payload: seq<byte>, action: BuildAction, source: seq<byte>)
    requires |source| >= 65536 && StandsOnceSomewhere(payload, source)
    ensures RewriteCarrier(payload, action, source) == Failed(Overflow)
  {
    hide RewriteCarrier, StandsOnceSomewhere, LocateZoneSlot;
    CheckedOutcome(payload, action, source);
  }

  // ---------------------------------------------------------------------------------------------
  // The older layout

  lemma OlderMarkerIff(payload: seq<byte>, source: seq<byte>, marker: nat)
    ensures OlderMarker(payload, source) == Some(marker)
            <==> StandsOnce(payload, Marker(BUILD_STRING_TAG, source), marker) && OlderShape(payload, marker, |source|)
  {
    hide StandsOnce, Find, CountFrom, OlderShape;
    OnceIff(payload, Marker(BUILD_STRING_TAG, source), marker);
  }

  predicate OlderFits(action: BuildAction) {
    IsU32(action.queue) && IsU32(action.planet) && IsU32(action.zone) && |action.buildingId| < 65536
  }

  /** How long the part behind the string is once both numbers are written; a short one grows. */
  function LengthWithNumbers(n: nat): nat {
    if n < 6 then n + 8 else if n < 10 then 14 else if n < 16 then n + 4 else if n < 20 then 20 else n
  }

  lemma SuffixLength(suffix: seq<byte>, owner: nat, place: nat)
    ensures |NewSuffix(suffix, owner, place)| == LengthWithNumbers(|suffix|)
  {
    var once := Assign(suffix, 6, 10, LittleEndian(owner, 4));
    assert |once| == if |suffix| < 6 then |suffix| + 4 else if |suffix| < 10 then 10 else |suffix|;
  }

  /** A located older command is rewritten, or fails for one of two reasons. */
  lemma OlderOutcome(payload: seq<byte>, action: BuildAction, source: seq<byte>, f: OlderFound)
    requires LocateOlder(payload, source) == Found(f)
    ensures var r := RewriteOlder(payload, action, source);
            var room := f.end - f.marker - 14;
            if !OlderFits(action) then r == Failed(Overflow)
            else if |action.buildingId| + LengthWithNumbers(room - |source|) > room then r == Failed(TooLong)
            else r.Rewritten? && r.offset == f.envelope && r.offset + r.length == f.end
  {
    hide LocateOlder, NewPrefix, NewSuffix, OlderShape, Obstacle;
    if OlderFits(action) {
      SuffixLength(payload[f.marker + 14 + |source|..f.end], action.planet, action.zone);
    }
  }

  // ---------------------------------------------------------------------------------------------
  // One payload that is rewritten

  const SOURCE: seq<byte> := [0x77, 0x61, 0x61, 0x61, 0x61, 0x61, 0x61, 0x61, 0x61, 0x61]

  /** The bytes of a zone-slot command in front of its string tag. */
  function ExampleHead(): (h: seq<byte>)
    ensures |h| == 96
  {
    [139, 0, 4, 0, 0, 0, 0, 0, 0, 0, 0, 0]
    + [0xf3, 0x01, 0x01, 0x00, 0x03, 0x00, 0x40, 0x02, 0x01, 0x00, 0x0c, 0x00] + ExampleMiddle()
  }

  /** The bytes behind the string. */
  function ExampleTail(): (t: seq<byte>)
    ensures |t| == 26
  {
    [0x13, 0x2a, 0x01, 0x00, 0x14, 0x00] + Zeros(4) + [0xb3, 0x2b, 0x01, 0x00, 0x14, 0x00] + Zeros(4)
    + [0x04, 0x00, 0x04, 0x00, 0x04, 0x00]
  }

  /** One command of 140 bytes whose string is ten bytes long. */
  function ExamplePayload(): (p: seq<byte>)
    ensures |p| == 140
  {
    ExampleHead() + [0xb2, 0x2b, 0x01, 0x00, 0x0f, 0x00, 10, 0] + SOURCE + ExampleTail()
  }

  lemma ExampleNeedle()
    ensures Marker(ZONE_SLOT_STRING_TAG, SOURCE) == [0xb2, 0x2b, 0x01, 0x00, 0x0f, 0x00, 10, 0] + SOURCE
  {
    assert LittleEndian(10, 2) == [10] + LittleEndian(0, 1);
    assert LittleEndian(0, 1) == [0] + LittleEndian(0, 0);
  }

  /** The part of the head behind the common marker. */
  function ExampleMiddle(): (m: seq<byte>)
    ensures |m| == 72 && 0xb2 !in m && 0x77 !in m && 0xf3 !in m
  {
    Zeros(46) + [0x82, 0x2c, 0x01, 0x00, 0x14, 0x00] + Zeros(4) + [9, 9, 0x01, 0x00, 0x14, 0x00] + Zeros(4)
    + [9, 9, 0x01, 0x00, 0x03, 0x00]
  }

  lemma HeadBytes()
    ensures 0xb2 !in ExampleHead() && 0x77 !in ExampleHead() && 0xf3 !in ExampleHead()[..12]
    ensures 0xf3 !in ExampleHead()[24..] && At(ExampleHead(), 12, COMMON_MARKER)
  {
    hide ExampleMiddle;
    var h := ExampleHead();
    assert h[..12] == [139, 0, 4, 0, 0, 0, 0, 0, 0, 0, 0, 0];
    assert h[24..] == ExampleMiddle();
  }

  lemma TailBytes()
    ensures 0xb2 !in ExampleTail() && 0x77 !in ExampleTail() && 0xf3 !in ExampleTail()
  {
  }

  lemma ExampleStrings()
    ensures StandsOnce(ExamplePayload(), Marker(ZONE_SLOT_STRING_TAG, SOURCE), 96)
    ensures StandsOnce(ExamplePayload(), SOURCE, 104)
  {
    hide ExampleHead, ExampleTail, StandsOnce, Find, CountFrom, Marker;
    HeadBytes();
    TailBytes();
    ExampleNeedle();
    var tag: seq<byte> := [0xb2, 0x2b, 0x01, 0x00, 0x0f, 0x00, 10, 0];
    assert ExamplePayload() == ExampleHead() + (tag + SOURCE) + ExampleTail();
    OnlyOccurrence(ExamplePayload(), tag + SOURCE, ExampleHead(), ExampleTail());
    OnceIff(ExamplePayload(), tag + SOURCE, 96);
    assert ExamplePayload() == (ExampleHead() + tag) + SOURCE + ExampleTail();
    OnlyOccurrence(ExamplePayload(), SOURCE, ExampleHead() + tag, ExampleTail());
    OnceIff(ExamplePayload(), SOURCE, 104);
  }

  lemma ExampleShape()
    ensures ZoneSlotShape(ExamplePayload(), 96, 10)
  {
    var p, h, t := ExamplePayload(), ExampleHead(), ExampleTail();
    assert p[..96] == h && p[114..] == t;
    var m := ExampleMiddle();
    assert h[24..] == m;
    assert p[70..76] == h[70..76] == m[46..52] == [0x82, 0x2c, 0x01, 0x00, 0x14, 0x00];
    assert p[82..86] == h[82..86] == m[58..62] == [0x01, 0x00, 0x14, 0x00];
    assert p[92..96] == h[92..96] == m[68..72] == [0x01, 0x00, 0x03, 0x00];
    assert p[114..120] == t[0..6] && p[124..130] == t[10..16] && p[134..140] == t[20..26];
  }

  lemma ExampleMarker()
    ensures forall i: int :: At(ExamplePayload(), i, COMMON_MARKER) ==> i == 12
  {
    hide Find, CountFrom, ExampleHead, ExampleTail;
    HeadBytes();
    TailBytes();
    var h := ExampleHead();
    var rest := h[24..] + [0xb2, 0x2b, 0x01, 0x00, 0x0f, 0x00, 10, 0] + SOURCE + ExampleTail();
    assert h == h[..12] + COMMON_MARKER + h[24..];
    assert ExamplePayload() == h[..12] + COMMON_MARKER + rest;
    OnlyOccurrence(ExamplePayload(), COMMON_MARKER, h[..12], rest);
  }

  lemma ExampleIsCommand()
    ensures IsCommand(ExamplePayload()) && ExamplePayload()[58] == 0 && ExamplePayload()[59] == 0
  {
    HeadBytes();
    var p, h := ExamplePayload(), ExampleHead();
    assert p[12..24] == h[12..24];
  }

  lemma ExampleRecord()
    ensures OnlyRecord(ExamplePayload(), 10, CommandRecord(0, 140, 0), 96)
  {
    hide RecordsFrom, RecordAt, ExamplePayload, At;
    var p, record := ExamplePayload(), CommandRecord(0, 140, 0);
    ExampleIsCommand();
    CommandIsFoundIff([], p, []);
    assert [] + p + [] == p;
    RecordsAreComplete(p, COMMON_MARKER, 0, record);
    ExampleMarker();
    forall x | x in RecordsFrom(p, COMMON_MARKER, 0) ensures x == record {
      RecordsAreComplete(p, COMMON_MARKER, 0, x);
    }
  }

  lemma ExampleIsZoneSlot()
    ensures ZoneSlotAt(ExamplePayload(), SOURCE, CommandRecord(0, 140, 0), 96)
  {
    hide StandsOnce, ZoneSlotShape, OnlyRecord, ExamplePayload;
    ExampleStrings();
    ExampleShape();
    ExampleRecord();
  }

  // What is written anew lacks a byte that neither the kept parts nor the new ones have.

  lemma {:induction false} SmallNumberBytes(n: nat, width: nat, x: byte)
    requires n < x
    ensures x !in LittleEndian(n, width)
  {
    if width > 0 {
      SmallNumberBytes(n / 256, width - 1, x);
    }
  }

  lemma RewriteLacks(payload: seq<byte>, action: BuildAction, source: seq<byte>, record: CommandRecord, marker: nat, x: byte)
    requires |source| < 65536 && LocateZoneSlot(payload, source) == Some((record, marker))
    requires x !in payload[..marker] && x !in payload[marker + 8 + |source|..] && x !in action.buildingId && x != 0
    requires 0 <= action.queue < x && 0 <= action.colony < x && 0 <= action.zone < x && |action.buildingId| < x
    requires x !in payload[marker..marker + 6]
    requires RewriteZoneSlot(payload, action, source).Rewritten?
    ensures x !in RewriteZoneSlot(payload, action, source).payload
  {
    hide LocateZoneSlot, Assembled, NewSuffix, LittleEndian, Front, At, RecordsFrom;
    var r := RewriteZoneSlot(payload, action, source);
    ZoneSlotLocatedAt(payload, source, record, marker);
    SmallNumberBytes(action.queue, 4, x);
    SmallNumberBytes(action.colony, 4, x);
    SmallNumberBytes(action.zone, 4, x);
    SmallNumberBytes(|action.buildingId|, 2, x);
    var idEnd, end := marker + 8 + |source|, record.offset + record.length;
    assert payload[..marker + 6] == payload[..marker] + payload[marker..marker + 6];
    PartLacks(payload[idEnd..], 0, end - idEnd, x);
    PartLacks(payload[idEnd..], end - idEnd, |payload| - idEnd, x);
    assert payload[idEnd..][..end - idEnd] == payload[idEnd..end] && payload[idEnd..][end - idEnd..] == payload[end..];
    SuffixLacks(payload[idEnd..end], action.colony, action.zone, x);
    FrontLacks(payload, record.offset, action.queue, x);
    ZoneSlotRecord(payload, action, source, r);
    AssembledLacks(
      r.payload, Front(payload, record.offset, action.queue), action.buildingId,
      NewSuffix(payload[idEnd..end], action.colony, action.zone), r.padding, payload[end..], x);
  }

  lemma ZoneSlotLocatedAt(payload: seq<byte>, source: seq<byte>, record: CommandRecord, marker: nat)
    requires LocateZoneSlot(payload, source) == Some((record, marker))
    ensures marker == record.offset + 96 && marker + 34 + |source| == record.offset + record.length <= |payload|
  {
  }

  lemma FrontLacks(payload: seq<byte>, start: nat, queue: nat, x: byte)
    requires start + 104 <= |payload| && x !in payload[..start + 102] && x !in LittleEndian(queue, 4)
    ensures x !in Front(payload, start, queue)
  {
    hide LittleEndian;
    PartLacks(payload[..start + 102], 0, start + 86, x);
    PartLacks(payload[..start + 102], start + 90, start + 102, x);
    assert payload[..start + 102][..start + 86] == payload[..start + 86];
    assert payload[..start + 102][start + 90..] == payload[start + 90..start + 102];
  }

  lemma AssembledLacks(
    p: seq<byte>, front: seq<byte>, target: seq<byte>, suffix: seq<byte>, padding: nat, rest: seq<byte>, x: byte)
    requires Assembled(p, front, target, suffix, padding, rest)
    requires x !in front && x !in LittleEndian(|target|, 2) && x !in target && x !in suffix && x !in rest && x != 0
    ensures x !in p
  {
    hide LittleEndian;
    var n := |front|;
    assert p[..n] == front && p[n + 2 + |target| + |suffix| + padding..] == rest;
    assert x !in suffix + Zeros(padding);
    assert p == front + LittleEndian(|target|, 2) + target + (suffix + Zeros(padding)) + rest;
  }

  lemma PartLacks(b: seq<byte>, from: nat, to: nat, x: byte)
    requires from <= to <= |b| && x !in b
    ensures x !in b[from..to]
  {
  }

  lemma SuffixLacks(suffix: seq<byte>, owner: nat, place: nat, x: byte)
    requires x !in suffix && x !in LittleEndian(owner, 4) && x !in LittleEndian(place, 4)
    ensures x !in NewSuffix(suffix, owner, place)
  {
    hide LittleEndian;
  }

  lemma ExampleParts()
    ensures 0x77 !in ExamplePayload()[..96] && 0x77 !in ExamplePayload()[96..102] && 0x77 !in ExamplePayload()[114..]
  {
    hide ExampleHead, ExampleTail;
    var p := ExamplePayload();
    HeadBytes();
    TailBytes();
    assert p[..96] == ExampleHead() && p[114..] == ExampleTail();
    assert p[96..102] == [0xb2, 0x2b, 0x01, 0x00, 0x0f, 0x00];
  }

  /** The rewriter takes this payload: it comes back rewritten, with the action's fields in it. */
  lemma ExampleIsRewritten()
    ensures var r := RewriteCarrier(ExamplePayload(), BuildAction([0x78], 1, 2, 3, 4), SOURCE);
            && r.Rewritten? && r.offset == 0 && r.length == 140 && r.padding == 9
            && ReadCommand(r.payload, 0, 140, ZONE_SLOT_COLONY_TAG, ZONE_SLOT_ZONE_TAG)
               == Some(BuildFields(1, [0x78], 3, 4))
  {
    hide RewriteCarrier, RewriteZoneSlot, ZoneSlotAt, StandsOnce, ReadCommand, LocateZoneSlot, Contains, FrameKept, At;
    var p, action, record := ExamplePayload(), BuildAction([0x78], 1, 2, 3, 4), CommandRecord(0, 140, 0);
    ExampleStrings();
    ExampleIsZoneSlot();
    assert StandsOnceSomewhere(p, SOURCE);
    ZoneSlotOutcome(p, action, SOURCE, record, 96);
    var r := RewriteZoneSlot(p, action, SOURCE);
    ExampleLosesSource(action, r);
    ZoneSlotCarrierIff(p, action, SOURCE, record, 96);
    ZoneSlotReadsBack(p, action, SOURCE, r);
  }

  lemma ExampleLosesSource(action: BuildAction, r: Rewrite)
    requires action == BuildAction([0x78], 1, 2, 3, 4) && r == RewriteZoneSlot(ExamplePayload(), action, SOURCE)
    requires r.Rewritten?
    ensures !Contains(r.payload, SOURCE)
  {
    hide RewriteZoneSlot, ZoneSlotAt, LocateZoneSlot, ExamplePayload;
    var p := ExamplePayload();
    ExampleIsZoneSlot();
    ZoneSlotLocatedIff(p, SOURCE, CommandRecord(0, 140, 0), 96);
    ExampleParts();
    RewriteLacks(p, action, SOURCE, CommandRecord(0, 140, 0), 96, 0x77);
    forall i | 0 <= i <= |r.payload| ensures !At(r.payload, i, SOURCE) {
      assert i + 10 <= |r.payload| ==> r.payload[i..i + 10][0] == r.payload[i];
    }
  }
}
