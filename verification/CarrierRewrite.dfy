/** Rewriting one building command inside a UDP payload without changing the length of the payload. */
module CarrierRewrite {
  import opened Basics
  import opened PythonBytes

  // ---------------------------------------------------------------------------------------------
  // Tags of the serialised command

  const ZONE_SLOT_CONTEXT_TAG: seq<byte> := [0x82, 0x2c, 0x01, 0x00, 0x14, 0x00]
  const U32_FIELD_SUFFIX: seq<byte> := [0x01, 0x00, 0x14, 0x00]
  const STRING_FIELD_SUFFIX: seq<byte> := [0x01, 0x00, 0x03, 0x00]
  const ZONE_SLOT_STRING_TAG: seq<byte> := [0xb2, 0x2b, 0x01, 0x00, 0x0f, 0x00]
  const ZONE_SLOT_COLONY_TAG: seq<byte> := [0x13, 0x2a, 0x01, 0x00, 0x14, 0x00]
  const ZONE_SLOT_ZONE_TAG: seq<byte> := [0xb3, 0x2b, 0x01, 0x00, 0x14, 0x00]
  const RECORD_TAIL: seq<byte> := [0x04, 0x00, 0x04, 0x00, 0x04, 0x00]

  const BUILD_HEAD: seq<byte> := [0x61, 0x2c, 0x01, 0x00, 0x14, 0x00, 0x00, 0x00, 0x00, 0x00]
  const QUEUE_TAG: seq<byte> := [0xea, 0x3f, 0x01, 0x00, 0x14, 0x00]
  const BUILD_STRING_TAG: seq<byte> := [0x41, 0x3d, 0x01, 0x00, 0x03, 0x00, 0x92, 0x2b, 0x01, 0x00, 0x0f, 0x00]
  const PLANET_TAG: seq<byte> := [0xfc, 0x29, 0x01, 0x00, 0x14, 0x00]
  const PLACEMENT_TAG: seq<byte> := [0x93, 0x2b, 0x01, 0x00, 0x14, 0x00]

  const COMMON_MARKER: seq<byte> := [0xf3, 0x01, 0x01, 0x00, 0x03, 0x00, 0x40, 0x02, 0x01, 0x00, 0x0c, 0x00]
  const ENVELOPE_TYPE: seq<byte> := [0x04, 0x00, 0x00, 0x00]
  const ENVELOPE_DISTANCE: nat := 70
  const SERIAL_OFFSET: nat := 58

  // ---------------------------------------------------------------------------------------------
  // Command records

  datatype CommandRecord = CommandRecord(offset: nat, length: nat, serial: nat)

  /** The record whose common marker stands at `marker`, when it is complete. */
  function RecordAt(data: seq<byte>, marker: nat): (r: Option<CommandRecord>)
    ensures r.Some? ==>
              && r.value.offset + 12 == marker && r.value.length >= 60
              && r.value.offset + r.value.length <= |data|
  {
    if marker < 12 || marker - 12 + 60 > |data| then None
    else
      var offset := marker - 12;
      var page: int := if offset >= 3 && data[offset - 3..offset - 1] == [0, 0] then data[offset - 1] else 0;
      var low: int := data[offset];
      var length := page * 256 + low + 1;
      if 60 <= length <= 0x10000 && offset + length <= |data| && data[offset + 2..offset + 6] == ENVELOPE_TYPE
      then Some(CommandRecord(offset, length, U16At(data, offset + SERIAL_OFFSET)))
      else None
  }

  /** All complete records whose marker stands at `from` or later, in order. */
  function RecordsFrom(data: seq<byte>, marker: seq<byte>, from: nat): seq<CommandRecord>
    decreases |data| + 1 - from
  {
    if from > |data| then []
    else RecordsHere(data, marker, from) + RecordsFrom(data, marker, from + 1)
  }

  function RecordsHere(data: seq<byte>, marker: seq<byte>, at: nat): seq<CommandRecord>
  {
    if At(data, at, marker) && RecordAt(data, at).Some? then [RecordAt(data, at).value] else []
  }

  /** A record that the search reports stands before its own marker. */
  lemma {:induction false} RecordsAreComplete(data: seq<byte>, marker: seq<byte>, from: nat, record: CommandRecord)
    requires record in RecordsFrom(data, marker, from)
    ensures At(data, record.offset + 12, marker) && RecordAt(data, record.offset + 12) == Some(record)
    decreases |data| + 1 - from
  {
    if record !in RecordsHere(data, marker, from) {
      RecordsAreComplete(data, marker, from + 1, record);
    }
  }

  lemma {:induction false} RecordsSkip(data: seq<byte>, marker: seq<byte>, from: nat, to: nat)
    requires from <= to && forall i | from <= i < to :: !At(data, i, marker)
    ensures RecordsFrom(data, marker, from) == RecordsFrom(data, marker, to)
    decreases if from < to then to - from else 0
  {
    if from < to {
      RecordsSkip(data, marker, from + 1, to);
    }
  }

  function RecordsFromFound(data: seq<byte>, marker: seq<byte>, found: Option<nat>): seq<CommandRecord> {
    if found.Some? then RecordsFrom(data, marker, found.value) else []
  }

  lemma RecordsFromNext(data: seq<byte>, marker: seq<byte>, from: nat)
    ensures RecordsFrom(data, marker, from) == RecordsFromFound(data, marker, Find(data, marker, from))
  {
    var next := Find(data, marker, from);
    if from <= |data| {
      RecordsSkip(data, marker, from, if next.Some? then next.value else |data| + 1);
    }
  }

  lemma RecordsAfter(data: seq<byte>, marker: seq<byte>, at: nat, before: seq<CommandRecord>)
    requires At(data, at, marker)
    ensures before + RecordsFrom(data, marker, at)
            == (before + RecordsHere(data, marker, at))
               + RecordsFromFound(data, marker, Find(data, marker, at + 1))
  {
    RecordsFromNext(data, marker, at + 1);
  }

  /** The search that the source runs for its common marker. */
  method FindCommandRecords(data: seq<byte>, marker: seq<byte>) returns (records: seq<CommandRecord>)
    ensures records == RecordsFrom(data, marker, 0)
  {
    hide RecordsFrom, RecordsHere;
    records := [];
    var next := Find(data, marker, 0);
    RecordsFromNext(data, marker, 0);
    while next.Some?
      invariant next.Some? ==> At(data, next.value, marker)
      invariant records + RecordsFromFound(data, marker, next) == RecordsFrom(data, marker, 0)
      decreases if next.Some? then |data| + 1 - next.value else 0
    {
      RecordsAfter(data, marker, next.value, records);
      records := AppendRecord(records, data, marker, next.value);
      next := Find(data, marker, next.value + 1);
    }
  }

  method AppendRecord(before: seq<CommandRecord>, data: seq<byte>, marker: seq<byte>, at: nat)
    returns (records: seq<CommandRecord>)
    requires At(data, at, marker)
    ensures records == before + RecordsHere(data, marker, at)
  {
    records := before;
    var record := RecordAt(data, at);
    if record.Some? {
      records := records + [record.value];
    }
  }

  // ---------------------------------------------------------------------------------------------
  // The action and the outcome

  datatype BuildAction = BuildAction(buildingId: seq<byte>, queue: int, planet: int, colony: int, zone: int)

  datatype RewriteError =
    | Overflow            // a number does not fit its field
    | TooLong             // the rewritten record would not fit the old one
    | NoEnvelope | WrongEnvelope | CrossesPayload | StringLengthMismatch | StringCrossesRecord
    | ManyCarriers | NoRecord | LengthChanged | SourceRemains

  datatype Rewrite =
    | NotThisLayout
    | Failed(error: RewriteError)
    | Rewritten(payload: seq<byte>, offset: nat, length: nat, padding: nat)

  predicate Fits(n: int) {
    0 <= n < U32_LIMIT
  }

  /**
   * The part that both layouts share: the queue is overwritten before the string, the string is replaced, two
   * numbers are overwritten behind it, and the record is filled up with zeros.
   */
  function RewriteRecord(
    payload: seq<byte>, start: nat, queueAt: nat, lengthAt: nat, idEnd: nat, end: nat,
    queue: int, first: int, second: int, target: seq<byte>): Rewrite
    requires start <= queueAt && queueAt + 4 <= lengthAt && lengthAt + 2 <= idEnd <= end <= |payload|
  {
    if !Fits(queue) || !Fits(first) || !Fits(second) || |target| >= U16_LIMIT then Failed(Overflow)
    else
      var prefix := NewPrefix(payload[start..lengthAt], queueAt - start, queue);
      var suffix := NewSuffix(payload[idEnd..end], first, second);
      var record := prefix + LittleEndian(|target|, 2) + target + suffix;
      if |record| > end - start then Failed(TooLong)
      else
        var padding := end - start - |record|;
        Rewritten(payload[..start] + (record + Zeros(padding)) + payload[end..], start, end - start, padding)
  }

  function NewPrefix(prefix: seq<byte>, queueAt: nat, queue: nat): (r: seq<byte>)
    requires queueAt + 4 <= |prefix|
    ensures |r| == |prefix|
  {
    Assign(prefix, queueAt, queueAt + 4, LittleEndian(queue, 4))
  }

  function NewSuffix(suffix: seq<byte>, first: nat, second: nat): seq<byte> {
    Assign(Assign(suffix, 6, 10, LittleEndian(first, 4)), 16, 20, LittleEndian(second, 4))
  }

  function Marker(tag: seq<byte>, source: seq<byte>): (m: seq<byte>)
    ensures |m| == |tag| + 2 + |source|
  {
    tag + LittleEndian(|source|, 2) + source
  }

  // ---------------------------------------------------------------------------------------------
  // The zone-slot layout

  /** Where the pieces of a zone-slot command stand, counted from the position of the building marker. */
  predicate ZoneSlotShape(payload: seq<byte>, marker: nat, sourceLength: nat) {
    var idEnd := marker + 8 + sourceLength;
    && marker >= 26
    && Slice(payload, marker - 26, marker - 20) == ZONE_SLOT_CONTEXT_TAG
    && Slice(payload, marker - 14, marker - 10) == U32_FIELD_SUFFIX
    && Slice(payload, marker - 4, marker) == STRING_FIELD_SUFFIX
    && Slice(payload, idEnd, idEnd + 6) == ZONE_SLOT_COLONY_TAG
    && Slice(payload, idEnd + 10, idEnd + 16) == ZONE_SLOT_ZONE_TAG
    && Slice(payload, idEnd + 20, idEnd + 26) == RECORD_TAIL
  }

  function Enclosing(records: seq<CommandRecord>, from: nat, to: nat): (r: seq<CommandRecord>)
    ensures forall x | x in r :: x in records && x.offset <= from && to <= x.offset + x.length
  {
    if records == [] then []
    else
      (if records[0].offset <= from && to <= records[0].offset + records[0].length then [records[0]] else [])
      + Enclosing(records[1..], from, to)
  }

  function LocateZoneSlot(payload: seq<byte>, source: seq<byte>): (r: Option<(CommandRecord, nat)>)
    ensures r.Some? ==>
              var (record, marker) := r.value;
              && marker == record.offset + ENVELOPE_DISTANCE + 26
              && marker + 8 + |source| + 26 == record.offset + record.length <= |payload|
              && At(payload, marker, Marker(ZONE_SLOT_STRING_TAG, source))
              && ZoneSlotShape(payload, marker, |source|)
              && record in RecordsFrom(payload, COMMON_MARKER, 0)
  {
    var needle := Marker(ZONE_SLOT_STRING_TAG, source);
    if CountFrom(payload, needle, 0) != 1 then None
    else
      var marker := Find(payload, needle, 0).value;
      if !ZoneSlotShape(payload, marker, |source|) then None
      else
        var end := marker + 8 + |source| + 26;
        var matching := Enclosing(RecordsFrom(payload, COMMON_MARKER, 0), marker - 26, end);
        if |matching| != 1 then None
        else
          var record := matching[0];
          if marker - 26 != record.offset + ENVELOPE_DISTANCE || end != record.offset + record.length then None
          else Some((record, marker))
  }

  function RewriteZoneSlot(payload: seq<byte>, action: BuildAction, source: seq<byte>): Rewrite {
    if |source| >= U16_LIMIT then Failed(Overflow)
    else
      match LocateZoneSlot(payload, source)
      case None => NotThisLayout
      case Some((record, marker)) =>
        RewriteRecord(
          payload, record.offset, marker - 10, marker + 6, marker + 8 + |source|, record.offset + record.length,
          action.queue, action.colony, action.zone, action.buildingId)
  }

  // ---------------------------------------------------------------------------------------------
  // The older building layout

  datatype OlderFound = OlderFound(envelope: nat, marker: nat, end: nat)

  datatype OlderLocation = Absent | Broken(error: RewriteError) | Found(found: OlderFound)

  predicate OlderShape(payload: seq<byte>, marker: nat, sourceLength: nat) {
    var idEnd := marker + 14 + sourceLength;
    && marker >= 20
    && Slice(payload, marker - 20, marker - 10) == BUILD_HEAD
    && Slice(payload, marker - 10, marker - 4) == QUEUE_TAG
    && Slice(payload, idEnd, idEnd + 6) == PLANET_TAG
    && Slice(payload, idEnd + 10, idEnd + 16) == PLACEMENT_TAG
  }

  /** Where an older command would be: the source stands there once, between the tags of a building command. */
  function OlderMarker(payload: seq<byte>, source: seq<byte>): (marker: Option<nat>)
    ensures marker.Some? ==>
              OlderShape(payload, marker.value, |source|) && At(payload, marker.value, Marker(BUILD_STRING_TAG, source))
  {
    var needle := Marker(BUILD_STRING_TAG, source);
    if CountFrom(payload, needle, 0) == 1 && OlderShape(payload, Find(payload, needle, 0).value, |source|)
    then Find(payload, needle, 0)
    else None
  }

  /** What each error says about the bytes around the marker. */
  predicate Obstacle(payload: seq<byte>, marker: nat, sourceLength: nat, error: RewriteError) {
    var envelope := marker - 20 - ENVELOPE_DISTANCE;
    match error
    case NoEnvelope => envelope < 0
    case WrongEnvelope => envelope >= 0 && Slice(payload, envelope + 2, envelope + 6) != ENVELOPE_TYPE
    case CrossesPayload => 0 <= envelope <= |payload| - 2 && envelope + U16At(payload, envelope) + 1 > |payload|
    case StringLengthMismatch => marker + 14 <= |payload| && U16At(payload, marker + 12) != sourceLength
    case StringCrossesRecord =>
      0 <= envelope <= |payload| - 2 && marker + 14 + sourceLength >= envelope + U16At(payload, envelope) + 1
    case _ => false
  }

  /** The order in which the errors are looked for. */
  function Place(error: RewriteError): nat {
    match error
    case NoEnvelope => 0
    case WrongEnvelope => 1
    case CrossesPayload => 2
    case StringLengthMismatch => 3
    case StringCrossesRecord => 4
    case _ => 5
  }

  /** The command around a marker: found without an obstacle, and otherwise the first obstacle is the error. */
  function OlderAround(payload: seq<byte>, marker: nat, sourceLength: nat): (r: OlderLocation)
    requires marker + 14 + sourceLength <= |payload|
    ensures r.Found? ==>
              && r.found.envelope + 90 == r.found.marker == marker
              && marker + 14 + sourceLength < r.found.end <= |payload|
    ensures match r
            case Absent => false
            case Found(_) => forall e :: !Obstacle(payload, marker, sourceLength, e)
            case Broken(error) =>
              && Obstacle(payload, marker, sourceLength, error)
              && forall e | Place(e) < Place(error) :: !Obstacle(payload, marker, sourceLength, e)
  {
    if marker < 20 + ENVELOPE_DISTANCE then Broken(NoEnvelope)
    else
      var envelope := marker - 20 - ENVELOPE_DISTANCE;
      if Slice(payload, envelope + 2, envelope + 6) != ENVELOPE_TYPE then Broken(WrongEnvelope)
      else
        var end := envelope + U16At(payload, envelope) + 1;
        if end > |payload| then Broken(CrossesPayload)
        else if U16At(payload, marker + 12) != sourceLength then Broken(StringLengthMismatch)
        else if marker + 14 + sourceLength >= end then Broken(StringCrossesRecord)
        else Found(OlderFound(envelope, marker, end))
  }

  /** Absent without a marker, found without an obstacle, and otherwise the first obstacle is the error. */
  function LocateOlder(payload: seq<byte>, source: seq<byte>): (r: OlderLocation)
    ensures r.Found? ==>
              && r.found.envelope + 90 == r.found.marker && OlderShape(payload, r.found.marker, |source|)
              && r.found.marker + 14 + |source| < r.found.end <= |payload|
    ensures var marker := OlderMarker(payload, source);
            match r
            case Absent => marker.None?
            case Found(_) => marker.Some? && forall e :: !Obstacle(payload, marker.value, |source|, e)
            case Broken(error) =>
              && marker.Some? && Obstacle(payload, marker.value, |source|, error)
              && forall e | Place(e) < Place(error) :: !Obstacle(payload, marker.value, |source|, e)
  {
    match OlderMarker(payload, source)
    case None => Absent
    case Some(marker) => OlderAround(payload, marker, |source|)
  }

  function RewriteOlder(payload: seq<byte>, action: BuildAction, source: seq<byte>): Rewrite {
    match LocateOlder(payload, source)
    case Absent => NotThisLayout
    case Broken(error) => Failed(error)
    case Found(f) => RewriteFound(payload, action, |source|, f)
  }

  function RewriteFound(payload: seq<byte>, action: BuildAction, sourceLength: nat, f: OlderFound): Rewrite
    requires f.envelope + 90 == f.marker && f.marker + 14 + sourceLength < f.end <= |payload|
  {
    RewriteRecord(
      payload, f.envelope, f.marker - 4, f.marker + 12, f.marker + 14 + sourceLength, f.end,
      action.queue, action.planet, action.zone, action.buildingId)
  }

  /** Zone-slot first, then the older layout. */
  function RewriteBuilding(payload: seq<byte>, action: BuildAction, source: seq<byte>): Rewrite {
    var first := RewriteZoneSlot(payload, action, source);
    if first.NotThisLayout? then RewriteOlder(payload, action, source) else first
  }

  /** The checks around the rewriters, for a building action: `NotThisLayout` when there is no carrier at all. */
  function RewriteCarrier(payload: seq<byte>, action: BuildAction, source: seq<byte>): Rewrite
    requires source != []
  {
    if Find(payload, source, 0).None? then NotThisLayout
    else if CountFrom(payload, source, 0) != 1 then Failed(ManyCarriers)
    else Checked(payload, RewriteBuilding(payload, action, source), action.buildingId, source)
  }

  function Checked(payload: seq<byte>, result: Rewrite, target: seq<byte>, source: seq<byte>): Rewrite {
    match result
    case NotThisLayout => Failed(NoRecord)
    case Failed(error) => Failed(error)
    case Rewritten(rewritten, _, _, _) =>
      if |rewritten| != |payload| then Failed(LengthChanged)
      else if Find(rewritten, source, 0).Some? && target != source then Failed(SourceRemains)
      else result
  }
}
