/** The event stream that the console writes, read back by the overlay's parser and by the standard. */
module ConsoleStream {
  import opened Basics
  import opened TabProtocol
  import opened JsonText
  import opened ServerSentEvents
  import JsonReader
  import VisibleReply

  /** An event of the broker, its payload in the order in which the dictionary keeps it. */
  datatype Outgoing = Outgoing(
    sequence: nat, conversation: string, kind: VisibleReply.EventType, payload: seq<JsonMember>)

  function TypeName(kind: VisibleReply.EventType): (name: string)
    ensures VisibleReply.EventTypeOf(name) == Some(kind)
  {
    match kind
    case TurnStarted => "turn_started"
    case UserMessage => "user_message"
    case AssistantStarted => "assistant_started"
    case AssistantDelta => "assistant_delta"
    case AssistantFinal => "assistant_final"
    case TurnFinished => "turn_finished"
  }

  /** The event as a dictionary. */
  function AsJson(e: Outgoing): Json {
    Obj([JsonMember("sequence", Num(e.sequence)), JsonMember("conversation_id", Str(e.conversation)),
         JsonMember("event_type", Str(TypeName(e.kind))), JsonMember("payload", Obj(e.payload))])
  }

  /** What is written of an event: its number, its type and its JSON text. */
  datatype Frame = Frame(sequence: nat, name: string, json: string)

  function FrameOf(e: Outgoing): Frame {
    Frame(e.sequence, TypeName(e.kind), Write(AsJson(e)))
  }

  function Frames(events: seq<Outgoing>): seq<Frame> {
    seq(|events|, i requires 0 <= i < |events| => FrameOf(events[i]))
  }

  function FieldLine(field: string, value: string): string {
    field + ": " + value
  }

  function Line(line: string): string {
    line + "\n"
  }

  /** Sent when there is nothing new: a type line, a data line and an empty line. */
  function Keepalive(): string {
    Line(FieldLine("event", "keepalive")) + Line(FieldLine("data", "{}")) + Line("")
  }

  /** An identifier line, a type line, a data line and an empty line. */
  function ChunkLines(e: Frame): seq<string> {
    [FieldLine("id", Decimal(e.sequence)), FieldLine("event", e.name), FieldLine("data", e.json), []]
  }

  function Chunk(e: Frame): string {
    var l := ChunkLines(e);
    Line(l[0]) + Line(l[1]) + Line(l[2]) + Line(l[3])
  }

  function Chunks(events: seq<Frame>): string {
    if events == [] then [] else Chunk(events[0]) + Chunks(events[1..])
  }

  lemma Appended(text: string, a: string, b: string, c: string, d: string)
    ensures text + a + b + c + d == text + (a + b + c + d)
  {
  }

  function Sent(events: seq<Outgoing>): string {
    if events == [] then Keepalive() else Chunks(Frames(events))
  }

  method SendOverlayEvents(events: seq<Outgoing>) returns (text: string)
    ensures text == Sent(events)
  {
    text := "";
    if events == [] {
      text := text + Keepalive();
      return;
    }
    ghost var frames := Frames(events);
    var i := 0;
    while i < |events|
      invariant 0 <= i <= |events|
      invariant text + Chunks(frames[i..]) == Chunks(frames)
    {
      text := SendEvent(text, FrameOf(events[i]), frames, i);
      i := i + 1;
    }
  }

  /** One turn of the loop moves one chunk from what is still to be written to what is written. */
  method SendEvent(before: string, e: Frame, ghost frames: seq<Frame>, ghost i: nat) returns (text: string)
    requires i < |frames| && frames[i] == e
    ensures text == before + Chunk(e)
    ensures text + Chunks(frames[i + 1..]) == before + Chunks(frames[i..])
  {
    var l := ChunkLines(e);
    text := before + Line(l[0]);
    text := text + Line(l[1]);
    text := text + Line(l[2]) + Line(l[3]);
    Appended(before, Line(l[0]), Line(l[1]), Line(l[2]), Line(l[3]));
    assert frames[i..][1..] == frames[i + 1..];
  }

  /** Event types and serialised JSON contain no line ends, and a type is not empty. */
  predicate Sendable(e: Frame) {
    && e.name != [] && '\n' !in e.name && '\r' !in e.name && '\n' !in e.json && '\r' !in e.json
  }

  predicate AllSendable(events: seq<Frame>) {
    forall i | 0 <= i < |events| :: Sendable(events[i])
  }

  lemma FieldOfLine(field: string, value: string)
    requires ':' !in field
    ensures Field(FieldLine(field, value)) == (field, value)
  {
    var line := FieldLine(field, value);
    assert line == field + (": " + value);
    assert line[|field|] == ':' && forall j | 0 <= j < |field| :: line[j] == field[j];
    assert IndexOf(line, ':') == |field|;
    assert line[..|field|] == field && line[|field| + 1..] == " " + value;
  }

  lemma OneLine(line: string, rest: string)
    requires '\n' !in line
    ensures Lines(Line(line) + rest) == [line] + Lines(rest)
  {
    hide Lines;
    FirstLine(line, rest);
    assert Line(line) + rest == line + ("\n" + rest);
  }

  lemma FourParts(a: string, b: string, c: string, d: string, rest: string)
    ensures (a + b + c + d) + rest == a + (b + (c + (d + rest)))
  {
  }

  lemma FourElements(a: string, b: string, c: string, d: string, rest: seq<string>)
    ensures [a] + ([b] + ([c] + ([d] + rest))) == [a, b, c, d] + rest
  {
  }

  lemma LinesOfFour(a: string, b: string, c: string, d: string, rest: string)
    requires '\n' !in a && '\n' !in b && '\n' !in c && '\n' !in d
    ensures Lines((Line(a) + Line(b) + Line(c) + Line(d)) + rest) == [a, b, c, d] + Lines(rest)
  {
    FourParts(Line(a), Line(b), Line(c), Line(d), rest);
    var r3 := Line(d) + rest;
    var r2 := Line(c) + r3;
    var r1 := Line(b) + r2;
    OneLine(d, rest);
    OneLine(c, r3);
    OneLine(b, r2);
    OneLine(a, r1);
    FourElements(a, b, c, d, Lines(rest));
  }

  lemma LinesOfChunk(e: Frame, rest: string)
    requires Sendable(e)
    ensures Lines(Chunk(e) + rest) == ChunkLines(e) + Lines(rest)
  {
    var l := ChunkLines(e);
    LinesOfFour(l[0], l[1], l[2], l[3], rest);
  }

  function ExpectedRaw(f: Frame): Raw {
    Raw(f.name, Some(Decimal(f.sequence)), f.json)
  }

  function ExpectedRaws(events: seq<Frame>): seq<Raw> {
    seq(|events|, i requires 0 <= i < |events| => ExpectedRaw(events[i]))
  }

  lemma FourLines(e: Frame, rest: seq<string>)
    requires Sendable(e)
    ensures RawEvents(ChunkLines(e) + rest, FRESH)
            == [Raw(e.name, Some(Decimal(e.sequence)), e.json)] + RawEvents(rest, FRESH)
  {
    var l := ChunkLines(e) + rest;
    FieldOfLine("id", Decimal(e.sequence));
    FieldOfLine("event", e.name);
    FieldOfLine("data", e.json);
    var p1 := FRESH.(id := Some(Decimal(e.sequence)));
    var p2 := p1.(name := e.name);
    var p3 := p2.(data := [e.json]);
    assert l[1..][1..] == l[2..] && l[2..][1..] == l[3..] && l[3..][1..] == l[4..] && l[4..] == rest;
    assert RawEvents(l, FRESH) == RawEvents(l[1..], p1);
    assert RawEvents(l[1..], p1) == RawEvents(l[2..], p2);
    assert RawEvents(l[2..], p2) == RawEvents(l[3..], p3);
    assert RawEvents(l[3..], p3) == Flushed(p3) + RawEvents(l[4..], FRESH);
  }

  function ExpectedMessages(events: seq<Frame>): seq<Message> {
    seq(|events|, i requires 0 <= i < |events| =>
      Message(events[i].name, Decimal(events[i].sequence), events[i].json))
  }

  lemma FirstEvent(events: seq<Frame>)
    requires events != [] && AllSendable(events)
    ensures Sendable(events[0]) && AllSendable(events[1..])
    ensures var e, rest := events[0], events[1..];
            && ExpectedRaws(events) == [Raw(e.name, Some(Decimal(e.sequence)), e.json)] + ExpectedRaws(rest)
            && ExpectedMessages(events) == [Message(e.name, Decimal(e.sequence), e.json)] + ExpectedMessages(rest)
  {
  }

  lemma NoLines(lastId: string)
    ensures Lines([]) == [[]] && RawEvents(Lines([]), FRESH) == [] && Standard(Lines([]), Buffers("", "", lastId)) == []
  {
    assert Lines([]) == [[]];
  }

  lemma ParseStep(e: Frame, rest: string)
    requires Sendable(e)
    ensures RawEvents(Lines(Chunk(e) + rest), FRESH)
            == [Raw(e.name, Some(Decimal(e.sequence)), e.json)] + RawEvents(Lines(rest), FRESH)
  {
    LinesOfChunk(e, rest);
    FourLines(e, Lines(rest));
  }

  lemma {:induction false} ChunksParse(events: seq<Frame>)
    requires AllSendable(events)
    ensures RawEvents(Lines(Chunks(events)), FRESH) == ExpectedRaws(events)
  {
    if events == [] {
      NoLines("");
    } else {
      var e, rest := events[0], Chunks(events[1..]);
      FirstEvent(events);
      ParseStep(e, rest);
      ChunksParse(events[1..]);
    }
  }

  lemma {:induction false} ChunksHaveNoReturns(events: seq<Frame>)
    requires AllSendable(events)
    ensures '\r' !in Chunks(events)
  {
    if events != [] {
      var e := events[0];
      assert '\r' !in Decimal(e.sequence);
      assert '\r' !in "id: " + Decimal(e.sequence) + "\n";
      assert '\r' !in "event: " + e.name + "\n";
      assert '\r' !in "data: " + e.json + "\n\n";
      ChunksHaveNoReturns(events[1..]);
    }
  }

  /** Every line end in a type name or in the written JSON is escaped, so each stays on its line. */
  lemma FramesAreSendable(events: seq<Outgoing>)
    ensures AllSendable(Frames(events))
  {
    forall i | 0 <= i < |events|
      ensures Sendable(Frames(events)[i])
    {
      FrameIsSendable(events[i]);
    }
  }

  lemma FrameIsSendable(e: Outgoing)
    ensures Sendable(FrameOf(e))
  {
    TypeNameIsPlain(e.kind);
    JsonIsPlain(AsJson(e));
  }

  lemma TypeNameIsPlain(kind: VisibleReply.EventType)
    ensures TypeName(kind) != [] && '\n' !in TypeName(kind) && '\r' !in TypeName(kind)
  {
    match kind
    case TurnStarted =>
    case UserMessage =>
    case AssistantStarted =>
    case AssistantDelta =>
    case AssistantFinal =>
    case TurnFinished =>
  }

  lemma JsonIsPlain(json: Json)
    ensures '\n' !in Write(json) && '\r' !in Write(json)
  {
    WriteHasNoControl(json);
    NoControlNoLineEnd(Write(json));
  }

  lemma NoControlNoLineEnd(s: string)
    requires NoControl(s)
    ensures '\n' !in s && '\r' !in s
  {
  }

  lemma ThreeParts(a: string, b: string, c: string)
    ensures a + b + c == a + (b + (c + []))
  {
  }

  lemma ThreeElements(a: string, b: string, c: string, d: string)
    ensures [a] + ([b] + ([c] + [d])) == [a, b, c, d]
  {
  }

  lemma LinesOfThree(a: string, b: string, c: string)
    requires '\n' !in a && '\n' !in b && '\n' !in c
    ensures Lines(Line(a) + Line(b) + Line(c)) == [a, b, c, []]
  {
    var r2 := Line(c) + [];
    var r1 := Line(b) + r2;
    ThreeParts(Line(a), Line(b), Line(c));
    NoLines("");
    OneLine(c, []);
    OneLine(b, r2);
    OneLine(a, r1);
    ThreeElements(a, b, c, []);
  }

  lemma TwoFields(name: string, data: string)
    ensures RawEvents([FieldLine("event", name), FieldLine("data", data), "", ""], FRESH) == [Raw(name, None, data)]
  {
    var l := [FieldLine("event", name), FieldLine("data", data), "", ""];
    FieldOfLine("event", name);
    FieldOfLine("data", data);
    var p1 := FRESH.(name := name);
    var p2 := p1.(data := [data]);
    assert l[1..][1..] == l[2..] && l[2..] == ["", ""] && l[2..][1..] == [""] && [""][1..] == [];
    assert RawEvents(l, FRESH) == RawEvents(l[1..], p1);
    assert RawEvents(l[1..], p1) == RawEvents(l[2..], p2);
    assert RawEvents(l[2..], p2) == Flushed(p2) + RawEvents([""], FRESH);
  }

  lemma KeepaliveIsPlain()
    ensures var event, data := FieldLine("event", "keepalive"), FieldLine("data", "{}");
            '\n' !in event && '\n' !in data && '\r' !in event && '\r' !in data
  {
  }

  lemma NoReturnInTwoLines(a: string, b: string)
    requires '\r' !in a && '\r' !in b
    ensures '\r' !in Line(a) + Line(b) + Line("")
  {
  }

  /** The answer to a client for which nothing is new is one event without identifier and with an empty object. */
  lemma KeepaliveParses()
    ensures Parsed(Keepalive()) == [Raw("keepalive", None, "{}")]
  {
    var event, data := FieldLine("event", "keepalive"), FieldLine("data", "{}");
    KeepaliveIsPlain();
    NoReturnInTwoLines(event, data);
    NoReturnsNoChange(Keepalive());
    LinesOfThree(event, data, "");
    TwoFields("keepalive", "{}");
  }

  /** A text that ends inside an event: the parser finds it, a reader that follows the standard does not. */
  lemma UnfinishedEvent()
    ensures Parsed(FieldLine("data", "{}")) == [Raw("message", None, "{}")]
    ensures StandardEvents(FieldLine("data", "{}")) == []
  {
    hide FieldLine, Normalised, Lines, StandardLines, RawEvents, Standard;
    var line := FieldLine("data", "{}");
    KeepaliveIsPlain();
    NormalisedLines(line);
    OnlyLine(line);
    OnlyField("{}");
  }

  lemma OnlyLine(line: string)
    requires '\n' !in line && '\r' !in line
    ensures Lines(line) == [line] && Normalised(line) == line
  {
    NoReturnsNoChange(line);
    assert IndexOf(line, '\n') == |line|;
  }

  lemma OnlyField(data: string)
    ensures RawEvents([FieldLine("data", data)], FRESH) == [Raw("message", None, data)]
    ensures Standard([FieldLine("data", data)], Buffers("", "", "")) == []
  {
    FieldOfLine("data", data);
    assert [FieldLine("data", data)][1..] == [];
  }

  lemma DecodedOne(raw: Raw, json: Json)
    requires raw.data == Write(json)
    ensures Decoded([raw], JsonReader.Parse) == Some([Event(raw.name, raw.id, json)])
  {
    JsonReader.RoundTrip(json);
    assert [raw][1..] == [];
    assert [Event(raw.name, raw.id, json)] + [] == [Event(raw.name, raw.id, json)];
  }

  lemma EmptyObject()
    ensures Write(Obj([])) == "{}"
  {
  }

  /**
   * What the console sends comes back: parsing it and reading the data as JSON gives the very events, with their
   * types, identifiers and dictionaries in order, or the keepalive when there were none.
   */
  lemma RoundTrip(events: seq<Outgoing>)
    ensures var parsed := Decoded(Parsed(Sent(events)), JsonReader.Parse);
            && parsed.Some?
            && parsed.value == if events == [] then [Event("keepalive", None, Obj([]))] else ExpectedEvents(events)
  {
    if events == [] {
      KeepaliveParses();
      EmptyObject();
      DecodedOne(Raw("keepalive", None, "{}"), Obj([]));
    } else {
      SentParses(events);
      DecodeExpected(events);
    }
  }

  lemma SentParses(events: seq<Outgoing>)
    requires events != []
    ensures Parsed(Sent(events)) == ExpectedRaws(Frames(events))
  {
    var frames := Frames(events);
    FramesAreSendable(events);
    ChunksHaveNoReturns(frames);
    NoReturnsNoChange(Chunks(frames));
    ChunksParse(frames);
  }

  function ExpectedEvent(e: Outgoing): Event<Json> {
    Event(TypeName(e.kind), Some(Decimal(e.sequence)), AsJson(e))
  }

  function ExpectedEvents(events: seq<Outgoing>): seq<Event<Json>> {
    seq(|events|, i requires 0 <= i < |events| =>
      ExpectedEvent(events[i]))
  }

  lemma {:induction false} DecodeExpected(events: seq<Outgoing>)
    ensures Decoded(ExpectedRaws(Frames(events)), JsonReader.Parse) == Some(ExpectedEvents(events))
  {
    if events == [] {
      assert ExpectedRaws(Frames(events)) == [] && ExpectedEvents(events) == [];
    } else {
      var e, rest := events[0], events[1..];
      DecodeExpected(rest);
      FramesOfCons(events);
      DecodedOne(ExpectedRaw(FrameOf(e)), AsJson(e));
      DecodedConcat([ExpectedRaw(FrameOf(e))], ExpectedRaws(Frames(rest)), JsonReader.Parse);
    }
  }

  lemma FramesOfCons(events: seq<Outgoing>)
    requires events != []
    ensures ExpectedRaws(Frames(events)) == [ExpectedRaw(FrameOf(events[0]))] + ExpectedRaws(Frames(events[1..]))
    ensures ExpectedEvents(events) == [ExpectedEvent(events[0])] + ExpectedEvents(events[1..])
  {
  }

  lemma FourLinesStandard(e: Frame, rest: seq<string>, lastId: string)
    requires Sendable(e)
    ensures Standard(ChunkLines(e) + rest, Buffers("", "", lastId))
            == [Message(e.name, Decimal(e.sequence), e.json)]
               + Standard(rest, Buffers("", "", Decimal(e.sequence)))
  {
    var l, id := ChunkLines(e) + rest, Decimal(e.sequence);
    FieldOfLine("id", id);
    FieldOfLine("event", e.name);
    FieldOfLine("data", e.json);
    assert '\0' !in id;
    var b0 := Buffers("", "", lastId);
    var b1 := b0.(lastId := id);
    var b2 := b1.(name := e.name);
    var b3 := b2.(data := "" + e.json + "\n");
    assert l[1..][1..] == l[2..] && l[2..][1..] == l[3..] && l[3..][1..] == l[4..] && l[4..] == rest;
    assert Standard(l, b0) == Standard(l[1..], b1);
    assert Standard(l[1..], b1) == Standard(l[2..], b2);
    assert Standard(l[2..], b2) == Standard(l[3..], b3);
    assert b3.data[..|b3.data| - 1] == e.json;
    assert Standard(l[3..], b3) == Dispatched(b3) + Standard(l[4..], Buffers("", "", id));
  }

  lemma StandardStep(e: Frame, rest: string, lastId: string)
    requires Sendable(e)
    ensures Standard(Lines(Chunk(e) + rest), Buffers("", "", lastId))
            == [Message(e.name, Decimal(e.sequence), e.json)]
               + Standard(Lines(rest), Buffers("", "", Decimal(e.sequence)))
  {
    LinesOfChunk(e, rest);
    FourLinesStandard(e, Lines(rest), lastId);
  }

  lemma {:induction false} ChunksAreStandard(frames: seq<Frame>, lastId: string)
    requires AllSendable(frames)
    ensures Standard(Lines(Chunks(frames)), Buffers("", "", lastId)) == ExpectedMessages(frames)
  {
    if frames == [] {
      NoLines(lastId);
    } else {
      var e, rest := frames[0], Chunks(frames[1..]);
      FirstEvent(frames);
      StandardStep(e, rest, lastId);
      ChunksAreStandard(frames[1..], Decimal(e.sequence));
    }
  }

  lemma TwoFieldsStandard(name: string, data: string)
    requires name != []
    ensures Standard([FieldLine("event", name), FieldLine("data", data), "", ""], Buffers("", "", ""))
            == [Message(name, "", data)]
  {
    var l := [FieldLine("event", name), FieldLine("data", data), "", ""];
    FieldOfLine("event", name);
    FieldOfLine("data", data);
    var b1 := Buffers("", name, "");
    var b2 := b1.(data := "" + data + "\n");
    assert l[1..][1..] == l[2..] && l[2..] == ["", ""] && l[2..][1..] == [""] && [""][1..] == [];
    assert Standard(l, Buffers("", "", "")) == Standard(l[1..], b1);
    assert Standard(l[1..], b1) == Standard(l[2..], b2);
    assert b2.data[..|b2.data| - 1] == data;
    assert Standard(l[2..], b2) == Dispatched(b2) + Standard([""], Buffers("", "", ""));
  }

  lemma KeepaliveIsStandard()
    ensures StandardEvents(Keepalive()) == [Message("keepalive", "", "{}")]
  {
    var event, data := FieldLine("event", "keepalive"), FieldLine("data", "{}");
    KeepaliveIsPlain();
    NoReturnInTwoLines(event, data);
    NoReturnsNoChange(Keepalive());
    NormalisedLines(Keepalive());
    LinesOfThree(event, data, "");
    TwoFieldsStandard("keepalive", "{}");
  }

  /** Any reader that follows the standard gets the same events from the console, identifiers included. */
  lemma SentIsStandard(events: seq<Outgoing>)
    ensures StandardEvents(Sent(events))
            == if events == [] then [Message("keepalive", "", "{}")] else ExpectedMessages(Frames(events))
  {
    if events == [] {
      KeepaliveIsStandard();
    } else {
      var frames := Frames(events);
      FramesAreSendable(events);
      NormalisedLines(Chunks(frames));
      ChunksHaveNoReturns(frames);
      NoReturnsNoChange(Chunks(frames));
      ChunksAreStandard(frames, "");
    }
  }
}
