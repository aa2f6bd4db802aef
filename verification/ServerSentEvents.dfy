/** The event-stream text between the console and the overlay, and the parsing rules of section 9.2.6 of the HTML standard. */
module ServerSentEvents {
  import opened Basics
  import opened TabProtocol

  // ---------------------------------------------------------------------------------------------
  // Lines

  function ReplaceCrLf(s: string): string {
    if s == [] then []
    else if |s| > 1 && s[0] == '\r' && s[1] == '\n' then ['\n'] + ReplaceCrLf(s[2..])
    else [s[0]] + ReplaceCrLf(s[1..])
  }

  function ReplaceCr(s: string): string {
    if s == [] then [] else [if s[0] == '\r' then '\n' else s[0]] + ReplaceCr(s[1..])
  }

  /** `text.split("\n")` */
  function Lines(s: string): (lines: seq<string>)
    ensures lines != []
    decreases |s|
  {
    var i := IndexOf(s, '\n');
    if i == |s| then [s] else [s[..i]] + Lines(s[i + 1..])
  }

  function Normalised(text: string): string {
    ReplaceCr(ReplaceCrLf(text))
  }

  lemma {:induction false} NoReturnsNoChange(s: string)
    requires '\r' !in s
    ensures ReplaceCrLf(s) == s && ReplaceCr(s) == s
  {
    if s != [] {
      assert s == [s[0]] + s[1..];
      NoReturnsNoChange(s[1..]);
    }
  }

  lemma FirstLine(line: string, rest: string)
    requires '\n' !in line
    ensures Lines(line + ("\n" + rest)) == [line] + Lines(rest)
  {
    var s := line + ("\n" + rest);
    assert s[|line|] == '\n' && forall j | 0 <= j < |line| :: s[j] == line[j];
    assert IndexOf(s, '\n') == |line|;
    assert s[..|line|] == line && s[|line| + 1..] == rest;
  }

  // ---------------------------------------------------------------------------------------------
  // The overlay's parser

  datatype Raw = Raw(name: string, id: Option<string>, data: string)

  datatype Pending = Pending(name: string, id: Option<string>, data: seq<string>)

  const FRESH: Pending := Pending("message", None, [])

  /** Field name and value of a line, with one leading space of the value removed. */
  function Field(line: string): (string, string) {
    var i := IndexOf(line, ':');
    if i == |line| then (line, "")
    else
      var value := line[i + 1..];
      (line[..i], if value != [] && value[0] == ' ' then value[1..] else value)
  }

  /** Without a colon the whole line is a name, and there is no value. */
  lemma FieldWithoutColon(line: string)
    requires ':' !in line
    ensures Field(line) == (line, "")
  {
  }

  /** A name up to the first colon, and behind it a value without one leading space. */
  lemma FieldAtColon(name: string, value: string)
    requires ':' !in name
    ensures Field(name + (":" + value)) == (name, if value != "" && value[0] == ' ' then value[1..] else value)
  {
    hide IndexOf;
    var line := name + (":" + value);
    assert line[|name|] == ':' && forall i | 0 <= i < |name| :: line[i] == name[i];
    assert line[..|name|] == name && line[|name| + 1..] == value;
  }

  function Feed(p: Pending, line: string): Pending {
    if line != [] && line[0] == ':' then p
    else
      var (field, value) := Field(line);
      if field == "event" then p.(name := value)
      else if field == "id" then p.(id := Some(value))
      else if field == "data" then p.(data := p.data + [value])
      else p
  }

  function JoinLines(data: seq<string>): string
    requires data != []
  {
    if |data| == 1 then data[0] else JoinLines(data[..|data| - 1]) + ("\n" + data[|data| - 1])
  }

  function Flushed(p: Pending): seq<Raw> {
    if p.data == [] then [] else [Raw(p.name, p.id, JoinLines(p.data))]
  }

  /** The events of the remaining lines; the end of the input flushes like an empty line. */
  function RawEvents(lines: seq<string>, p: Pending): seq<Raw> {
    if lines == [] then Flushed(p)
    else if lines[0] == [] then Flushed(p) + RawEvents(lines[1..], FRESH)
    else RawEvents(lines[1..], Feed(p, lines[0]))
  }

  datatype Event<T> = Event(name: string, id: Option<string>, data: T)

  /** Decoding stops the parse at the first event whose data is not valid. */
  function Decoded<T(!new)>(raw: seq<Raw>, decode: string -> Option<T>): Option<seq<Event<T>>> {
    if raw == [] then Some([])
    else
      var data, rest := decode(raw[0].data), Decoded(raw[1..], decode);
      if data.None? || rest.None? then None
      else Some([Event(raw[0].name, raw[0].id, data.value)] + rest.value)
  }

  function Combined<T(!new)>(a: Option<seq<Event<T>>>, b: Option<seq<Event<T>>>): Option<seq<Event<T>>> {
    if a.None? || b.None? then None else Some(a.value + b.value)
  }

  lemma DecodedCons<T(!new)>(raw: Raw, rest: seq<Raw>, decode: string -> Option<T>)
    ensures Decoded([raw] + rest, decode) == DecodedFirst(raw, decode(raw.data), Decoded(rest, decode))
  {
    assert ([raw] + rest)[1..] == rest;
  }

  function DecodedFirst<T(!new)>(raw: Raw, data: Option<T>, rest: Option<seq<Event<T>>>): Option<seq<Event<T>>> {
    if data.None? || rest.None? then None else Some([Event(raw.name, raw.id, data.value)] + rest.value)
  }

  lemma FirstThenCombined<T(!new)>(
    raw: Raw, data: Option<T>, y: Option<seq<Event<T>>>, z: Option<seq<Event<T>>>)
    ensures DecodedFirst(raw, data, Combined(y, z)) == Combined(DecodedFirst(raw, data, y), z)
  {
    if data.Some? && y.Some? && z.Some? {
      var first := [Event(raw.name, raw.id, data.value)];
      assert first + (y.value + z.value) == (first + y.value) + z.value;
    }
  }

  lemma NothingDecoded<T(!new)>(b: Option<seq<Event<T>>>, decode: string -> Option<T>)
    ensures Combined(Decoded([], decode), b) == b
  {
    if b.Some? {
      assert [] + b.value == b.value;
    }
  }

  lemma {:induction false} DecodedConcat<T(!new)>(a: seq<Raw>, b: seq<Raw>, decode: string -> Option<T>)
    ensures Decoded(a + b, decode) == Combined(Decoded(a, decode), Decoded(b, decode))
  {
    hide Decoded, Combined, DecodedFirst;
    if a == [] {
      assert a + b == b;
      NothingDecoded(Decoded(b, decode), decode);
    } else {
      var rest := a[1..];
      DecodedConcat(rest, b, decode);
      assert a == [a[0]] + rest && a + b == [a[0]] + (rest + b);
      DecodedCons(a[0], rest, decode);
      DecodedCons(a[0], rest + b, decode);
      FirstThenCombined(a[0], decode(a[0].data), Decoded(rest, decode), Decoded(b, decode));
    }
  }

  method Flush<T(!new)>(p: Pending, decode: string -> Option<T>) returns (flushed: Option<seq<Event<T>>>)
    ensures flushed == Decoded(Flushed(p), decode)
  {
    if p.data == [] {
      return Some([]);
    }
    assert Flushed(p)[1..] == [];
    var data := decode(JoinLines(p.data));
    if data.None? {
      return None;
    }
    var event := [Event(p.name, p.id, data.value)];
    assert event + [] == event;
    return Some(event);
  }

  /** What is decoded so far, and what the remaining lines still add to it. */
  ghost predicate Parsing<T(!new)>(
    lines: seq<string>, i: nat, pending: Pending, events: seq<Event<T>>, decode: string -> Option<T>)
    requires i <= |lines|
  {
    Decoded(RawEvents(lines, FRESH), decode) == Combined(Some(events), Decoded(RawEvents(lines[i..], pending), decode))
  }

  lemma ParsingFlush<T(!new)>(
    lines: seq<string>, i: nat, pending: Pending, events: seq<Event<T>>, decode: string -> Option<T>)
    requires i <= |lines| && (i < |lines| ==> lines[i] == []) && Parsing(lines, i, pending, events, decode)
    ensures var flushed := Decoded(Flushed(pending), decode);
            && (flushed.None? ==> Decoded(RawEvents(lines, FRESH), decode) == None)
            && (flushed.Some? && i < |lines| ==> Parsing(lines, i + 1, FRESH, events + flushed.value, decode))
            && (flushed.Some? && i == |lines| ==>
                  Decoded(RawEvents(lines, FRESH), decode) == Some(events + flushed.value))
  {
    hide Decoded, Flushed, Feed;
    var flushed := Decoded(Flushed(pending), decode);
    if i < |lines| {
      var rest := RawEvents(lines[i + 1..], FRESH);
      assert lines[i..][1..] == lines[i + 1..];
      DecodedConcat(Flushed(pending), rest, decode);
      if flushed.Some? && Decoded(rest, decode).Some? {
        var r := Decoded(rest, decode).value;
        assert events + (flushed.value + r) == (events + flushed.value) + r;
      }
    }
  }

  /** The parser's loop: nothing when some event's data cannot be decoded, otherwise all events in order. */
  method ParseSseEvents<T(!new)>(text: string, decode: string -> Option<T>) returns (r: Option<seq<Event<T>>>)
    ensures r == Decoded(RawEvents(Lines(Normalised(text)), FRESH), decode)
  {
    var lines := Lines(Normalised(text));
    var events: seq<Event<T>> := [];
    var pending := FRESH;
    StartParsing(lines, decode);
    var i := 0;
    while i < |lines|
      invariant 0 <= i <= |lines|
      invariant Parsing(lines, i, pending, events, decode)
    {
      if lines[i] == [] {
        ParsingFlush(lines, i, pending, events, decode);
        var flushed := Flush(pending, decode);
        if flushed.None? {
          return None;
        }
        events := events + flushed.value;
        pending := FRESH;
      } else {
        assert lines[i..][1..] == lines[i + 1..];
        pending := Feed(pending, lines[i]);
      }
      i := i + 1;
    }
    ParsingFlush(lines, i, pending, events, decode);
    var flushed := Flush(pending, decode);
    if flushed.None? {
      return None;
    }
    return Some(events + flushed.value);
  }

  lemma StartParsing<T(!new)>(lines: seq<string>, decode: string -> Option<T>)
    ensures Parsing(lines, 0, FRESH, [], decode)
  {
    assert lines[0..] == lines;
    var all := Decoded(RawEvents(lines, FRESH), decode);
    if all.Some? {
      assert [] + all.value == all.value;
    }
  }

  // ---------------------------------------------------------------------------------------------
  // The standard

  /** The three buffers of the standard: data, event type, last event identifier. */
  datatype Buffers = Buffers(data: string, name: string, lastId: string)

  datatype Message = Message(name: string, lastId: string, data: string)

  function StandardFeed(b: Buffers, line: string): Buffers {
    if line != [] && line[0] == ':' then b
    else
      var (field, value) := Field(line);
      if field == "event" then b.(name := value)
      else if field == "data" then b.(data := b.data + value + "\n")
      else if field == "id" then (if '\0' in value then b else b.(lastId := value))
      else b
  }

  function Dispatched(b: Buffers): seq<Message> {
    if b.data == [] then []
    else
      var data := if b.data[|b.data| - 1] == '\n' then b.data[..|b.data| - 1] else b.data;
      [Message(if b.name == [] then "message" else b.name, b.lastId, data)]
  }

  /** An empty line dispatches; what is pending at the end is discarded. */
  function Standard(lines: seq<string>, b: Buffers): seq<Message> {
    if lines == [] then []
    else if lines[0] == [] then Dispatched(b) + Standard(lines[1..], Buffers("", "", b.lastId))
    else Standard(lines[1..], StandardFeed(b, lines[0]))
  }

  // ---------------------------------------------------------------------------------------------
  // The parser against the standard

  /**
   * One event in both readings. The data are equal; the types are equal unless the parser's is empty, which the
   * standard turns into "message"; the identifiers are equal exactly when the event itself carries one without U+0000,
   * since the standard lets an event without one inherit the last identifier and the parser forgets it.
   */
  predicate SameEvent(r: Raw, m: Message) {
    && r.data == m.data
    && m.name == (if r.name == [] then "message" else r.name)
    && (r.id == Some(m.lastId) <==> HasIdentifier(r))
  }

  predicate HasIdentifier(r: Raw) {
    r.id.Some? && '\0' !in r.id.value
  }

  predicate SameEvents(raw: seq<Raw>, messages: seq<Message>) {
    |raw| == |messages| && forall i | 0 <= i < |raw| :: SameEvent(raw[i], messages[i])
  }

  lemma SameEventsConcat(a: seq<Raw>, b: seq<Raw>, c: seq<Message>, d: seq<Message>)
    requires SameEvents(a, c) && SameEvents(b, d)
    ensures SameEvents(a + b, c + d)
  {
    forall i | 0 <= i < |a + b|
      ensures SameEvent((a + b)[i], (c + d)[i])
    {
      if i >= |a| {
        assert SameEvent(b[i - |a|], d[i - |a|]);
      }
    }
  }

  function Buffered(data: seq<string>): string {
    if data == [] then [] else Buffered(data[..|data| - 1]) + data[|data| - 1] + "\n"
  }

  ghost predicate Corresponds(p: Pending, b: Buffers) {
    && b.data == Buffered(p.data)
    && (b.name == p.name || (b.name == [] && p.name == "message"))
    && '\0' !in b.lastId
    && (p.id.Some? && '\0' !in p.id.value ==> b.lastId == p.id.value)
  }

  lemma {:induction false} BufferedIsJoined(data: seq<string>)
    requires data != []
    ensures Buffered(data) == JoinLines(data) + "\n"
  {
    if |data| == 1 {
      assert data[..0] == [];
    } else {
      BufferedIsJoined(data[..|data| - 1]);
    }
  }

  lemma FlushIsDispatch(p: Pending, b: Buffers)
    requires Corresponds(p, b)
    ensures SameEvents(Flushed(p), Dispatched(b))
  {
    if p.data != [] {
      BufferedIsJoined(p.data);
    }
  }

  lemma FeedsCorrespond(p: Pending, b: Buffers, line: string)
    requires Corresponds(p, b)
    ensures Corresponds(Feed(p, line), StandardFeed(b, line))
  {
    var after := Feed(p, line);
    if |after.data| > |p.data| {
      assert after.data[..|after.data| - 1] == p.data;
    }
  }

  /**
   * The parser treats the end of the text like an empty line; apart from that it finds the same events as the
   * standard, in any text.
   */
  lemma {:induction false} ParserIsStandard(lines: seq<string>, p: Pending, b: Buffers)
    requires Corresponds(p, b)
    ensures SameEvents(RawEvents(lines, p), Standard(lines + [[]], b))
  {
    var more := lines + [[]];
    if lines == [] {
      assert more[1..] == [];
      FlushIsDispatch(p, b);
      assert Dispatched(b) + [] == Dispatched(b);
    } else {
      assert more[0] == lines[0] && more[1..] == lines[1..] + [[]];
      if lines[0] == [] {
        var next := Buffers("", "", b.lastId);
        FlushIsDispatch(p, b);
        ParserIsStandard(lines[1..], FRESH, next);
        SameEventsConcat(Flushed(p), RawEvents(lines[1..], FRESH), Dispatched(b), Standard(more[1..], next));
      } else {
        FeedsCorrespond(p, b, lines[0]);
        ParserIsStandard(lines[1..], Feed(p, lines[0]), StandardFeed(b, lines[0]));
      }
    }
  }

  /** What the standard still holds back when the text ends. */
  function Final(lines: seq<string>, b: Buffers): Buffers {
    if lines == [] then b
    else if lines[0] == [] then Final(lines[1..], Buffers("", "", b.lastId))
    else Final(lines[1..], StandardFeed(b, lines[0]))
  }

  lemma {:induction false} OneMoreEmptyLine(lines: seq<string>, b: Buffers)
    ensures Standard(lines + [[]], b) == Standard(lines, b) + Dispatched(Final(lines, b))
  {
    var more := lines + [[]];
    if lines == [] {
      assert more[1..] == [];
    } else {
      assert more[0] == lines[0] && more[1..] == lines[1..] + [[]];
      if lines[0] == [] {
        OneMoreEmptyLine(lines[1..], Buffers("", "", b.lastId));
      } else {
        OneMoreEmptyLine(lines[1..], StandardFeed(b, lines[0]));
      }
    }
  }

  function Parsed(text: string): seq<Raw> {
    RawEvents(Lines(Normalised(text)), FRESH)
  }

  function StandardEvents(text: string): seq<Message> {
    Standard(StandardLines(text), Buffers("", "", ""))
  }

  /** Nothing is waiting for its empty line when the text ends. */
  predicate Complete(text: string) {
    Final(StandardLines(text), Buffers("", "", "")).data == []
  }

  /** For a whole text the parser finds the standard's events if and only if no data is pending at its end. */
  lemma ParserAgreesIff(text: string)
    ensures SameEvents(Parsed(text), StandardEvents(text)) <==> Complete(text)
  {
    var lines, start := StandardLines(text), Buffers("", "", "");
    NormalisedLines(text);
    ParserIsStandard(lines, FRESH, start);
    OneMoreEmptyLine(lines, start);
    var found, pending := Standard(lines, start), Dispatched(Final(lines, start));
    if pending == [] {
      assert found + pending == found;
    }
  }

  predicate Identical(raw: seq<Raw>, messages: seq<Message>) {
    && |raw| == |messages|
    && forall i | 0 <= i < |raw| ::
         raw[i].name == messages[i].name && raw[i].id == Some(messages[i].lastId) && raw[i].data == messages[i].data
  }

  /** And the two agree in every part of every event if and only if each event also names its type and identifier. */
  lemma ParserIdenticalIff(text: string)
    ensures Identical(Parsed(text), StandardEvents(text))
            <==> Complete(text) && forall r | r in Parsed(text) :: r.name != [] && HasIdentifier(r)
  {
    if Complete(text) {
      ParserAgreesIff(text);
      IdenticalIffNamed(Parsed(text), StandardEvents(text));
    } else {
      LengthDecides(text);
    }
  }

  lemma LengthDecides(text: string)
    ensures |Parsed(text)| == |StandardEvents(text)| <==> Complete(text)
  {
    var lines, start := StandardLines(text), Buffers("", "", "");
    NormalisedLines(text);
    ParserIsStandard(lines, FRESH, start);
    OneMoreEmptyLine(lines, start);
  }

  lemma IdenticalIffNamed(raw: seq<Raw>, messages: seq<Message>)
    requires SameEvents(raw, messages)
    ensures Identical(raw, messages) <==> forall r | r in raw :: r.name != [] && HasIdentifier(r)
  {
    if Identical(raw, messages) {
      forall r | r in raw
        ensures r.name != [] && HasIdentifier(r)
      {
        var i :| 0 <= i < |raw| && raw[i] == r;
        assert SameEvent(raw[i], messages[i]);
      }
    } else {
      var i :| 0 <= i < |raw| && !(raw[i].name == messages[i].name && raw[i].id == Some(messages[i].lastId)
                                   && raw[i].data == messages[i].data);
      assert SameEvent(raw[i], messages[i]);
      assert raw[i] in raw;
    }
  }

  /** Lines as the standard delimits them: by a pair of carriage return and line feed, or by either alone. */
  function StandardLines(s: string): (lines: seq<string>)
    ensures lines != []
  {
    if s == [] then [[]]
    else if |s| > 1 && s[0] == '\r' && s[1] == '\n' then [[]] + StandardLines(s[2..])
    else if s[0] == '\r' || s[0] == '\n' then [[]] + StandardLines(s[1..])
    else Prepend(s[0], StandardLines(s[1..]))
  }

  function Prepend(c: char, lines: seq<string>): seq<string>
    requires lines != []
  {
    [[c] + lines[0]] + lines[1..]
  }

  lemma LinesOfCons(c: char, rest: string)
    ensures Lines([c] + rest) == if c == '\n' then [[]] + Lines(rest) else Prepend(c, Lines(rest))
  {
    hide Lines, IndexOf;
    var s, i := [c] + rest, IndexOf(rest, '\n');
    IndexOfCons(c, rest);
    LinesAt(s);
    LinesAt(rest);
    if c == '\n' {
      assert s[..0] == [] && s[1..] == rest;
    } else if i < |rest| {
      CutCons(c, rest, i);
      Cons(rest[..i], Lines(rest[i + 1..]));
    }
  }

  lemma LinesAt(s: string)
    ensures var i := IndexOf(s, '\n'); Lines(s) == if i == |s| then [s] else [s[..i]] + Lines(s[i + 1..])
  {
    hide IndexOf;
  }

  lemma Cons(line: string, lines: seq<string>)
    ensures ([line] + lines)[0] == line && ([line] + lines)[1..] == lines
  {
  }

  lemma IndexOfCons(c: char, rest: string)
    ensures IndexOf([c] + rest, '\n') == if c == '\n' then 0 else IndexOf(rest, '\n') + 1
  {
    assert ([c] + rest)[1..] == rest;
  }

  lemma CutCons(c: char, rest: string, i: nat)
    requires i < |rest|
    ensures ([c] + rest)[..i + 1] == [c] + rest[..i] && ([c] + rest)[i + 2..] == rest[i + 1..]
  {
  }

  lemma {:induction false} NormalisedLines(s: string)
    ensures Lines(Normalised(s)) == StandardLines(s)
  {
    if s == [] {
      assert Lines([]) == [[]];
    } else {
      var pair := |s| > 1 && s[0] == '\r' && s[1] == '\n';
      var rest := if pair then s[2..] else s[1..];
      var c := if pair || s[0] == '\r' then '\n' else s[0];
      NormalisedLines(rest);
      NormalisedCons(s, pair, rest, c);
      LinesOfCons(c, Normalised(rest));
    }
  }

  lemma NormalisedCons(s: string, pair: bool, rest: string, c: char)
    requires s != [] && pair == (|s| > 1 && s[0] == '\r' && s[1] == '\n')
    requires rest == (if pair then s[2..] else s[1..]) && c == (if pair || s[0] == '\r' then '\n' else s[0])
    ensures Normalised(s) == [c] + Normalised(rest)
  {
    var first := if pair then '\n' else s[0];
    var once := ReplaceCrLf(s);
    assert once == [first] + ReplaceCrLf(rest);
    assert once[1..] == ReplaceCrLf(rest);
  }
}
