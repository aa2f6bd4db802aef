/** From the broker's answer over the event-stream text to the batch that the overlay's worker delivers. */
module OverlayWire {
  import opened Basics
  import opened VisibleReply
  import opened JsonText
  import opened ConsoleStream
  import OverlayRuns

  // ---------------------------------------------------------------------------------------------
  // Payloads as dictionaries

  function KeyName(key: Key): string {
    match key
    case Trigger => "trigger"
    case Id => "id"
    case Role => "role"
    case Kind => "kind"
    case Content => "content"
    case RoundIndex => "round_index"
    case Delta => "delta"
    case ApplicationId => "application_id"
    case ApplicationDisplayName => "application_display_name"
    case Other(name) => name
  }

  function KeyOf(name: string): Key {
    if name == "trigger" then Trigger
    else if name == "id" then Id
    else if name == "role" then Role
    else if name == "kind" then Kind
    else if name == "content" then Content
    else if name == "round_index" then RoundIndex
    else if name == "delta" then Delta
    else if name == "application_id" then ApplicationId
    else if name == "application_display_name" then ApplicationDisplayName
    else Other(name)
  }

  function ValueJson(value: Value): Json {
    match value
    case Null => Json.Null
    case Number(n) => Num(n)
    case Text(text) => Str(text)
  }

  /** What a reader makes of a payload's value; the broker's payloads hold texts, numbers and nulls only. */
  function ValueOf(json: Json): Option<Value> {
    match json
    case Null => Some(Value.Null)
    case Num(n) => Some(Number(n))
    case Str(text) => Some(Text(text))
    case _ => None
  }

  /** A dictionary's items read back in order; a repeated key would keep its last value. */
  function PayloadOf(members: seq<JsonMember>): Option<Payload> {
    if members == [] then Some(map[])
    else
      var last := members[|members| - 1];
      var earlier, value := PayloadOf(members[..|members| - 1]), ValueOf(last.value);
      if earlier.None? || value.None? then None else Some(earlier.value[KeyOf(last.key) := value.value])
  }

  /** The allowed keys are the named ones, so no key is lost under another's name. */
  predicate PlainKeys(payload: Payload) {
    forall key | key in payload :: !key.Other?
  }

  lemma KeyRoundTrip(key: Key)
    requires !key.Other?
    ensures KeyOf(KeyName(key)) == key
  {
    match key
    case Trigger =>
    case Id =>
    case Role =>
    case Kind =>
    case Content =>
    case RoundIndex =>
    case Delta =>
    case ApplicationId =>
    case ApplicationDisplayName =>
  }

  lemma AllowedIsPlain(kind: EventType, payload: Payload)
    requires payload.Keys <= AllowedKeys(kind)
    ensures PlainKeys(payload)
  {
    assert forall key | key in AllowedKeys(kind) :: !key.Other?;
  }

  /** Every payload with allowed keys has a list of items that reads back as it. */
  lemma {:induction false} PayloadRoundTrip(payload: Payload) returns (members: seq<JsonMember>)
    requires PlainKeys(payload)
    ensures PayloadOf(members) == Some(payload)
    decreases |payload|
  {
    hide KeyName, KeyOf, ValueJson, PayloadOf;
    if payload == map[] {
      members := [];
      NoItems();
    } else {
      var key :| key in payload;
      var rest := payload - {key};
      var earlier := PayloadRoundTrip(rest);
      OneMoreItem(earlier, rest, key, payload[key]);
      members := earlier + [JsonMember(KeyName(key), ValueJson(payload[key]))];
      assert rest[key := payload[key]] == payload;
    }
  }

  lemma NoItems()
    ensures PayloadOf([]) == Some(map[])
  {
  }

  lemma OneMoreItem(earlier: seq<JsonMember>, rest: Payload, key: Key, value: Value)
    requires PayloadOf(earlier) == Some(rest) && !key.Other?
    ensures PayloadOf(earlier + [JsonMember(KeyName(key), ValueJson(value))]) == Some(rest[key := value])
  {
    hide KeyName, KeyOf;
    KeyRoundTrip(key);
    var last := JsonMember(KeyName(key), ValueJson(value));
    assert (earlier + [last])[..|earlier|] == earlier;
  }

  // ---------------------------------------------------------------------------------------------
  // Events as dictionaries

  /** The value of a key; in a dictionary the last one counts. */
  function Lookup(members: seq<JsonMember>, key: string): Option<Json> {
    if members == [] then None
    else if members[|members| - 1].key == key then Some(members[|members| - 1].value)
    else Lookup(members[..|members| - 1], key)
  }

  /** What worker and window take from a received dictionary. */
  function EventOf(json: Json): Option<Event> {
    if !json.Obj? then None
    else
      match (Lookup(json.members, "sequence"), Lookup(json.members, "conversation_id"),
             Lookup(json.members, "event_type"), Lookup(json.members, "payload"))
      case (Some(Num(n)), Some(Str(conversation)), Some(Str(name)), Some(Obj(members))) =>
        var kind, payload := EventTypeOf(name), PayloadOf(members);
        if n < 0 || kind.None? || payload.None? then None
        else Some(Event(n, conversation, kind.value, payload.value))
      case _ => None
  }

  /** `o` is the event with its payload as a dictionary. */
  predicate Encodes(o: Outgoing, e: Event) {
    && o.sequence == e.sequence && o.conversation == e.conversation && o.kind == e.kind
    && PayloadOf(o.payload) == Some(e.payload)
  }

  lemma LookupLast(members: seq<JsonMember>, last: JsonMember, key: string)
    ensures Lookup(members + [last], key) == if last.key == key then Some(last.value) else Lookup(members, key)
  {
    assert (members + [last])[..|members|] == members;
  }

  function FourItems(k1: string, a: Json, k2: string, b: Json, k3: string, c: Json, k4: string, d: Json): seq<JsonMember> {
    [JsonMember(k1, a), JsonMember(k2, b), JsonMember(k3, c), JsonMember(k4, d)]
  }

  lemma LookupInFour(
    k1: string, a: Json, k2: string, b: Json, k3: string, c: Json, k4: string, d: Json, key: string)
    ensures Lookup(FourItems(k1, a, k2, b, k3, c, k4, d), key)
            == if key == k4 then Some(d) else if key == k3 then Some(c) else if key == k2 then Some(b)
               else if key == k1 then Some(a) else None
  {
    hide Lookup;
    var m1 := [JsonMember(k1, a)];
    var m2 := m1 + [JsonMember(k2, b)];
    var m3 := m2 + [JsonMember(k3, c)];
    LookupNothing(key);
    assert [] + [JsonMember(k1, a)] == m1;
    LookupLast([], JsonMember(k1, a), key);
    LookupLast(m1, JsonMember(k2, b), key);
    LookupLast(m2, JsonMember(k3, c), key);
    LookupLast(m3, JsonMember(k4, d), key);
    assert m3 + [JsonMember(k4, d)] == FourItems(k1, a, k2, b, k3, c, k4, d);
  }

  lemma LookupNothing(key: string)
    ensures Lookup([], key) == None
  {
  }

  lemma FourMembers(a: Json, b: Json, c: Json, d: Json)
    ensures var members := FourItems("sequence", a, "conversation_id", b, "event_type", c, "payload", d);
            && Lookup(members, "sequence") == Some(a) && Lookup(members, "conversation_id") == Some(b)
            && Lookup(members, "event_type") == Some(c) && Lookup(members, "payload") == Some(d)
  {
    hide Lookup, FourItems;
    LookupInFour("sequence", a, "conversation_id", b, "event_type", c, "payload", d, "sequence");
    LookupInFour("sequence", a, "conversation_id", b, "event_type", c, "payload", d, "conversation_id");
    LookupInFour("sequence", a, "conversation_id", b, "event_type", c, "payload", d, "event_type");
    LookupInFour("sequence", a, "conversation_id", b, "event_type", c, "payload", d, "payload");
  }

  /** A received dictionary is the event that was sent. */
  lemma EventRoundTrip(o: Outgoing, e: Event)
    requires Encodes(o, e)
    ensures EventOf(AsJson(o)) == Some(e)
  {
    hide Lookup, PayloadOf, EventTypeOf, TypeName;
    FourMembers(Num(o.sequence), Str(o.conversation), Str(TypeName(o.kind)), Obj(o.payload));
  }

  // ---------------------------------------------------------------------------------------------
  // The worker's loop over what it parsed

  /** Keepalives and anything but dictionaries are skipped. */
  function Received(events: seq<ServerSentEvents.Event<Json>>): Option<seq<Event>> {
    if events == [] then Some([])
    else
      var first, rest := events[0], Received(events[1..]);
      if first.name == "keepalive" || !first.data.Obj? then rest
      else
        var e := EventOf(first.data);
        if e.None? || rest.None? then None else Some([e.value] + rest.value)
  }

  predicate AllEncode(outs: seq<Outgoing>, batch: seq<Event>) {
    |outs| == |batch| && forall i | 0 <= i < |batch| :: Encodes(outs[i], batch[i])
  }

  /** Every batch of events with allowed keys can be written as dictionaries. */
  lemma {:induction false} BatchCanBeWritten(batch: seq<Event>) returns (outs: seq<Outgoing>)
    requires forall e | e in batch :: e.payload.Keys <= AllowedKeys(e.kind)
    ensures AllEncode(outs, batch)
  {
    hide PayloadOf, AllowedKeys;
    if batch == [] {
      outs := [];
    } else {
      var front, e := batch[..|batch| - 1], batch[|batch| - 1];
      assert e in batch && forall d | d in front :: d in batch;
      var earlier := BatchCanBeWritten(front);
      AllowedIsPlain(e.kind, e.payload);
      var members := PayloadRoundTrip(e.payload);
      outs := earlier + [Outgoing(e.sequence, e.conversation, e.kind, members)];
    }
  }

  lemma NoKeepalive(kind: EventType)
    ensures TypeName(kind) != "keepalive"
  {
    assert EventTypeOf("keepalive") == None;
  }

  lemma ReceivedFirst(
    first: ServerSentEvents.Event<Json>, rest: seq<ServerSentEvents.Event<Json>>, e: Event, later: seq<Event>)
    requires first.name != "keepalive" && first.data.Obj? && EventOf(first.data) == Some(e)
    requires Received(rest) == Some(later)
    ensures Received([first] + rest) == Some([e] + later)
  {
    hide EventOf;
    assert ([first] + rest)[1..] == rest;
  }

  lemma ExpectedCons(outs: seq<Outgoing>)
    requires outs != []
    ensures ExpectedEvents(outs) == [ExpectedEvent(outs[0])] + ExpectedEvents(outs[1..])
  {
  }

  lemma NothingReceived()
    ensures ExpectedEvents([]) == [] && Received([]) == Some([])
  {
  }

  lemma {:induction false} ReceivedInOrder(outs: seq<Outgoing>, batch: seq<Event>)
    requires AllEncode(outs, batch)
    ensures Received(ExpectedEvents(outs)) == Some(batch)
  {
    hide Received, ExpectedEvents, EventOf, Encodes, AsJson, TypeName;
    if batch == [] {
      NothingReceived();
      assert outs == [];
    } else {
      ReceivedInOrder(outs[1..], batch[1..]);
      NoKeepalive(outs[0].kind);
      EventRoundTrip(outs[0], batch[0]);
      DictionaryIsObject(outs[0]);
      ExpectedCons(outs);
      ReceivedFirst(ExpectedEvent(outs[0]), ExpectedEvents(outs[1..]), batch[0], batch[1..]);
      assert batch == [batch[0]] + batch[1..];
    }
  }

  lemma DictionaryIsObject(o: Outgoing)
    ensures AsJson(o).Obj?
  {
  }

  /** What the worker hands to its window after fetching a text; `None` when the text cannot be decoded. */
  function Fetched(text: string): Option<seq<Event>> {
    var parsed := ServerSentEvents.Decoded(ServerSentEvents.Parsed(text), JsonReader.Parse);
    if parsed.None? then None else Received(parsed.value)
  }

  lemma KeepaliveIsSkipped()
    ensures Received([ServerSentEvents.Event("keepalive", None, Obj([]))]) == Some([])
  {
    assert [ServerSentEvents.Event("keepalive", None, Obj([]))][1..] == [];
  }

  /**
   * Over the wire the worker gets exactly the answer of the broker: the batch that it delivers in the transition
   * system is what it reads from the text that the console sends for that answer, and an empty answer, sent as a
   * keepalive, delivers nothing.
   */
  lemma FetchDeliversAnswer(s: OverlayRuns.System, outs: seq<Outgoing>)
    requires AllEncode(outs, OverlayRuns.Answer(s)) && s.phase.NeedEvents?
    ensures Fetched(Sent(outs)) == Some(OverlayRuns.Answer(s))
    ensures match Fetched(Sent(outs))
            case None => false
            case Some(batch) =>
              OverlayRuns.Next(s, OverlayRuns.ReadEvents).phase
              == if batch == [] then OverlayRuns.NeedBootstrap else OverlayRuns.Delivering(batch)
  {
    hide OverlayRuns.Answer, Sent, ServerSentEvents.Decoded, ServerSentEvents.Parsed, Received;
    RoundTrip(outs);
    if outs == [] {
      KeepaliveIsSkipped();
      assert OverlayRuns.Answer(s) == [];
    } else {
      ReceivedInOrder(outs, OverlayRuns.Answer(s));
    }
  }
}
