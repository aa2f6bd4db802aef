/** The broker of visible conversation events: a bounded log and an incremental summary for each conversation. */
module VisibleReply {
  import opened Basics

  // ---------------------------------------------------------------------------------------------
  // Events

  datatype EventType = TurnStarted | UserMessage | AssistantStarted | AssistantDelta | AssistantFinal | TurnFinished

  function EventTypeOf(name: string): Option<EventType> {
    if name == "turn_started" then Some(TurnStarted)
    else if name == "user_message" then Some(UserMessage)
    else if name == "assistant_started" then Some(AssistantStarted)
    else if name == "assistant_delta" then Some(AssistantDelta)
    else if name == "assistant_final" then Some(AssistantFinal)
    else if name == "turn_finished" then Some(TurnFinished)
    else None
  }

  datatype Key =
    | Trigger | Id | Role | Kind | Content | RoundIndex | Delta | ApplicationId | ApplicationDisplayName
    | Other(name: string)

  datatype Value = Null | Number(n: int) | Text(text: string)

  type Payload = map<Key, Value>

  function AllowedKeys(kind: EventType): set<Key> {
    {ApplicationId, ApplicationDisplayName}
    + match kind
      case TurnStarted => {Trigger}
      case UserMessage => {Id, Role, Kind, Content}
      case AssistantStarted => {RoundIndex}
      case AssistantDelta => {RoundIndex, Delta}
      case AssistantFinal => {Id, Role, Kind, Content, RoundIndex}
      case TurnFinished => {Trigger}
  }

  /** `str(payload.get(key) or "")` */
  function TextAt(payload: Payload, key: Key): string {
    if key !in payload then ""
    else
      match payload[key]
      case Null => ""
      case Number(n) => if n == 0 then "" else if n < 0 then "-" + Decimal(-n) else Decimal(n)
      case Text(text) => text
  }

  datatype Event = Event(sequence: nat, conversation: string, kind: EventType, payload: Payload)

  predicate IsSpace(c: char) {
    c == ' ' || '\t' <= c <= '\r' || '\U{1c}' <= c <= '\U{1f}' || c == '\U{85}' || c == '\U{a0}'
  }

  function StripLeft(s: string): string {
    if s != [] && IsSpace(s[0]) then StripLeft(s[1..]) else s
  }

  function StripRight(s: string): string {
    if s != [] && IsSpace(s[|s| - 1]) then StripRight(s[..|s| - 1]) else s
  }

  function Strip(s: string): string {
    StripRight(StripLeft(s))
  }

  // ---------------------------------------------------------------------------------------------
  // The full history, and what it means for one conversation

  /** Sequence numbers count the events from 1. */
  predicate Numbered(history: seq<Event>) {
    forall i | 0 <= i < |history| :: history[i].sequence == i + 1
  }

  /** The events of a conversation, in order. */
  function Of(history: seq<Event>, conversation: string): seq<Event> {
    if history == [] then []
    else
      var last := history[|history| - 1];
      Of(history[..|history| - 1], conversation) + if last.conversation == conversation then [last] else []
  }

  datatype Summary = Summary(active: bool, draft: string, latest: nat)

  const START: Summary := Summary(false, "", 0)

  function Apply(s: Summary, e: Event): Summary {
    var t := s.(latest := e.sequence);
    match e.kind
    case TurnStarted => t.(active := true, draft := "")
    case UserMessage => t
    case AssistantStarted => t.(draft := "")
    case AssistantDelta => t.(draft := t.draft + TextAt(e.payload, Delta))
    case AssistantFinal => t.(draft := "")
    case TurnFinished => t.(active := false, draft := "")
  }

  function Fold(events: seq<Event>): Summary {
    if events == [] then START else Apply(Fold(events[..|events| - 1]), events[|events| - 1])
  }

  function LastN<T>(s: seq<T>, n: nat): (r: seq<T>)
    ensures |r| == if |s| < n then |s| else n
    ensures forall i | 0 <= i < |r| :: r[i] == s[|s| - |r| + i]
  {
    if |s| <= n then s else s[|s| - n..]
  }

  predicate Ascending(events: seq<Event>) {
    forall i, j | 0 <= i < j < |events| :: events[i].sequence < events[j].sequence
  }

  /** The events behind a sequence number. */
  function After(events: seq<Event>, cursor: int): seq<Event> {
    if events == [] then []
    else (if events[0].sequence > cursor then [events[0]] else []) + After(events[1..], cursor)
  }

  function Take<T>(s: seq<T>, n: nat): seq<T> {
    if |s| <= n then s else s[..n]
  }

  /** The clamped limit of one page. */
  function PageSize(limit: int): (n: nat)
    ensures 1 <= n <= 1024 && (1 <= limit <= 1024 ==> n == limit)
    ensures (limit > 1024 ==> n == 1024) && (limit < 1 ==> n == 1)
  {
    if limit < 1 then 1 else if limit > 1024 then 1024 else limit
  }

  // ---------------------------------------------------------------------------------------------
  // The broker

  datatype PublishError = UnknownType | EmptyConversation | UnexpectedKeys(keys: set<Key>)

  datatype Published = Accepted(event: Event) | Refused(error: PublishError)

  /** A conversation that has events has its last ones in the log and all of them in the summary. */
  ghost predicate Row(
    history: seq<Event>, capacity: nat, events: map<string, seq<Event>>, states: map<string, Summary>, c: string)
  {
    && (c in events <==> c in states) && (c in states <==> Of(history, c) != [])
    && (c in states ==> events[c] == LastN(Of(history, c), capacity) && states[c] == Fold(Of(history, c)))
  }

  ghost predicate Represents(
    history: seq<Event>, capacity: nat, events: map<string, seq<Event>>, states: map<string, Summary>)
  {
    forall c :: Row(history, capacity, events, states, c)
  }

  function Log(events: map<string, seq<Event>>, c: string): seq<Event> {
    if c in events then events[c] else []
  }

  function State(states: map<string, Summary>, c: string): Summary {
    if c in states then states[c] else START
  }

  lemma RowAppended(
    history: seq<Event>, event: Event, capacity: nat, events: map<string, seq<Event>>, states: map<string, Summary>)
    requires capacity > 0 && Row(history, capacity, events, states, event.conversation)
    ensures var c := event.conversation;
            Row(
              history + [event], capacity, events[c := LastN(Log(events, c) + [event], capacity)],
              states[c := Apply(State(states, c), event)], c)
  {
    var c := event.conversation;
    OfAppended(history, event, c);
    LogAppended(Of(history, c), event, capacity);
    FoldAppended(Of(history, c), event);
    OldRow(history, capacity, events, states, c);
  }

  lemma OldRow(
    history: seq<Event>, capacity: nat, events: map<string, seq<Event>>, states: map<string, Summary>, c: string)
    requires Row(history, capacity, events, states, c)
    ensures Log(events, c) == LastN(Of(history, c), capacity) && State(states, c) == Fold(Of(history, c))
  {
  }

  lemma FoldAppended(log: seq<Event>, e: Event)
    ensures Fold(log + [e]) == Apply(Fold(log), e)
  {
    assert (log + [e])[..|log|] == log;
  }

  lemma RepresentsAppended(
    history: seq<Event>, event: Event, capacity: nat, events: map<string, seq<Event>>, states: map<string, Summary>)
    requires capacity > 0 && Represents(history, capacity, events, states)
    ensures var c := event.conversation;
            Represents(
              history + [event], capacity, events[c := LastN(Log(events, c) + [event], capacity)],
              states[c := Apply(State(states, c), event)])
  {
    var changed := event.conversation;
    var newEvents := events[changed := LastN(Log(events, changed) + [event], capacity)];
    var newStates := states[changed := Apply(State(states, changed), event)];
    forall c ensures Row(history + [event], capacity, newEvents, newStates, c) {
      assert Row(history, capacity, events, states, c);
      if c == changed {
        RowAppended(history, event, capacity, events, states);
      } else {
        OfAppended(history, event, c);
        RowKept(history, history + [event], capacity, events, newEvents, states, newStates, c);
      }
    }
  }

  lemma RowKept(
    h: seq<Event>, h': seq<Event>, capacity: nat, events: map<string, seq<Event>>, events': map<string, seq<Event>>,
    states: map<string, Summary>, states': map<string, Summary>, c: string)
    requires Row(h, capacity, events, states, c) && Of(h', c) == Of(h, c)
    requires (c in events' <==> c in events) && (c in events ==> events'[c] == events[c])
    requires (c in states' <==> c in states) && (c in states ==> states'[c] == states[c])
    ensures Row(h', capacity, events', states', c)
  {
  }

  class VisibleReplyBroker {
    const capacity: nat
    var sequence: nat
    var events: map<string, seq<Event>>
    var states: map<string, Summary>
    ghost var history: seq<Event>

    /** The log keeps the last events of every conversation; the summary still covers all of them. */
    ghost predicate Valid()
      reads this
    {
      && capacity >= 64 && sequence == |history| && Numbered(history)
      && Represents(history, capacity, events, states)
    }

    constructor (maximumEvents: int)
      ensures Valid() && history == [] && capacity == (if maximumEvents > 64 then maximumEvents else 64)
    {
      capacity := if maximumEvents > 64 then maximumEvents else 64;
      sequence := 0;
      events := map[];
      states := map[];
      history := [];
    }

    method Publish(conversationId: string, eventType: string, payload: Payload) returns (r: Published)
      requires Valid()
      modifies this
      ensures Valid()
      ensures r == var kind, selected := EventTypeOf(eventType), Strip(conversationId);
                   if kind.None? then Refused(UnknownType)
                   else if selected == "" then Refused(EmptyConversation)
                   else if payload.Keys - AllowedKeys(kind.value) != {}
                   then Refused(UnexpectedKeys(payload.Keys - AllowedKeys(kind.value)))
                   else Accepted(Event(old(sequence) + 1, selected, kind.value, payload))
      ensures history == if r.Accepted? then old(history) + [r.event] else old(history)
      ensures r.Refused? ==> events == old(events) && states == old(states)
    {
      var kind := EventTypeOf(eventType);
      if kind.None? {
        return Refused(UnknownType);
      }
      var selected := Strip(conversationId);
      if selected == "" {
        return Refused(EmptyConversation);
      }
      var unexpected := payload.Keys - AllowedKeys(kind.value);
      if unexpected != {} {
        return Refused(UnexpectedKeys(unexpected));
      }
      var event := Event(sequence + 1, selected, kind.value, payload);
      Append(event);
      return Accepted(event);
    }

    /** The locked part of `publish`. */
    method Append(event: Event)
      requires Valid() && event.sequence == sequence + 1
      modifies this
      ensures Valid() && history == old(history) + [event]
    {
      var selected := event.conversation;
      RepresentsAppended(history, event, capacity, events, states);
      sequence := sequence + 1;
      events := events[selected := LastN(Log(events, selected) + [event], capacity)];
      states := states[selected := Apply(State(states, selected), event)];
      history := history + [event];
    }

    method EventsAfter(conversationId: string, after: int, limit: int) returns (page: seq<Event>)
      requires Valid()
      ensures page
              == Take(
                   After(LastN(Of(history, Strip(conversationId)), capacity), if after < 0 then 0 else after),
                   PageSize(limit))
    {
      var selected := Strip(conversationId);
      assert Row(history, capacity, events, states, selected);
      return Take(After(Log(events, selected), if after < 0 then 0 else after), PageSize(limit));
    }

    method Snapshot(conversationId: string) returns (summary: Summary)
      requires Valid()
      ensures summary == SnapshotOf(history, Strip(conversationId))
    {
      var selected := Strip(conversationId);
      assert Row(history, capacity, events, states, selected);
      if selected !in states {
        return Summary(false, "", sequence);
      }
      return states[selected];
    }
  }

  /** A conversation without events reports the newest sequence number of all conversations. */
  function SnapshotOf(history: seq<Event>, conversation: string): Summary {
    if Of(history, conversation) == [] then Summary(false, "", |history|) else Fold(Of(history, conversation))
  }

  lemma OfAppended(history: seq<Event>, event: Event, conversation: string)
    ensures Of(history + [event], conversation)
            == Of(history, conversation) + if event.conversation == conversation then [event] else []
  {
    assert (history + [event])[..|history|] == history;
  }

  /** Appending to a bounded log is bounding the appended log. */
  lemma LogAppended(log: seq<Event>, event: Event, capacity: nat)
    requires capacity > 0
    ensures LastN(LastN(log, capacity) + [event], capacity) == LastN(log + [event], capacity)
  {
  }

  // ---------------------------------------------------------------------------------------------
  // Order and paging

  /** A conversation's events are events of the history, each at the place that its number says. */
  lemma {:induction false} OfHistory(history: seq<Event>, conversation: string)
    requires Numbered(history)
    ensures forall e | e in Of(history, conversation) ::
              1 <= e.sequence <= |history| && e.conversation == conversation && history[e.sequence - 1] == e
  {
    if history != [] {
      var earlier := history[..|history| - 1];
      OfHistory(earlier, conversation);
      forall e | e in Of(history, conversation)
        ensures 1 <= e.sequence <= |history| && e.conversation == conversation && history[e.sequence - 1] == e
      {
        if e in Of(earlier, conversation) {
          assert earlier[e.sequence - 1] == e;
        }
      }
    }
  }

  lemma AscendingAppended(events: seq<Event>, e: Event)
    requires Ascending(events) && forall x | x in events :: x.sequence < e.sequence
    ensures Ascending(events + [e])
  {
    forall i, j | 0 <= i < j < |events + [e]| ensures (events + [e])[i].sequence < (events + [e])[j].sequence {
      assert i < |events| && events[i] in events;
    }
  }

  /** Sequence numbers strictly increase within every conversation. */
  lemma {:induction false} ConversationAscends(history: seq<Event>, conversation: string)
    requires Numbered(history)
    ensures Ascending(Of(history, conversation))
  {
    if history != [] {
      var earlier, last := history[..|history| - 1], history[|history| - 1];
      ConversationAscends(earlier, conversation);
      if last.conversation == conversation {
        OfHistory(earlier, conversation);
        AscendingAppended(Of(earlier, conversation), last);
      } else {
        assert Of(history, conversation) == Of(earlier, conversation) + [];
      }
    }
  }

  /** How many events at the front of a log are not behind the cursor. */
  function Seen(events: seq<Event>, cursor: int): (k: nat)
    ensures k <= |events| && (forall i | 0 <= i < k :: events[i].sequence <= cursor)
    ensures k < |events| ==> events[k].sequence > cursor
  {
    if events == [] || events[0].sequence > cursor then 0 else 1 + Seen(events[1..], cursor)
  }

  /** In an ascending log the events behind a number are a suffix. */
  lemma {:induction false} AfterIsSuffix(events: seq<Event>, cursor: int)
    requires Ascending(events)
    ensures After(events, cursor) == events[Seen(events, cursor)..]
  {
    if events != [] {
      if events[0].sequence > cursor {
        AfterAll(events, cursor);
      } else {
        AfterIsSuffix(events[1..], cursor);
      }
    }
  }

  lemma {:induction false} AfterAll(events: seq<Event>, cursor: int)
    requires forall i | 0 <= i < |events| :: events[i].sequence > cursor
    ensures After(events, cursor) == events
  {
    if events != [] {
      AfterAll(events[1..], cursor);
      assert events == [events[0]] + events[1..];
    }
  }

  lemma SeenIs(events: seq<Event>, cursor: int, k: nat)
    requires k <= |events| && (forall i | 0 <= i < k :: events[i].sequence <= cursor)
    requires k < |events| ==> events[k].sequence > cursor
    ensures Seen(events, cursor) == k
  {
  }

  lemma SeenByPage(events: seq<Event>, cursor: int, n: nat)
    requires Ascending(events) && 0 < n <= |events| - Seen(events, cursor)
    ensures Seen(events, events[Seen(events, cursor) + n - 1].sequence) == Seen(events, cursor) + n
  {
    var last := Seen(events, cursor) + n - 1;
    assert forall i | 0 <= i <= last :: events[i].sequence <= events[last].sequence;
    SeenIs(events, events[last].sequence, last + 1);
  }

  /** Page after page, each starting behind the last event of the previous one, until a page is empty. */
  function Pages(events: seq<Event>, cursor: int, size: nat): seq<Event>
    requires size > 0 && Ascending(events)
    decreases |events| - Seen(events, cursor)
  {
    AfterIsSuffix(events, cursor);
    var page := Take(After(events, cursor), size);
    if page == [] then []
    else
      SeenByPage(events, cursor, |page|);
      page + Pages(events, page[|page| - 1].sequence, size)
  }

  /** What is behind the last event of a page is what the page left over. */
  lemma BehindPage(events: seq<Event>, cursor: int, n: nat)
    requires Ascending(events) && 0 < n <= |After(events, cursor)|
    ensures After(events, After(events, cursor)[n - 1].sequence) == After(events, cursor)[n..]
    ensures Seen(events, After(events, cursor)[n - 1].sequence) > Seen(events, cursor)
  {
    AfterIsSuffix(events, cursor);
    SeenByPage(events, cursor, n);
    AfterIsSuffix(events, After(events, cursor)[n - 1].sequence);
  }

  /** For any page size, paging yields every event behind the cursor exactly once and in order. */
  lemma {:induction false} PagingIsComplete(events: seq<Event>, cursor: int, size: nat)
    requires Ascending(events) && size > 0
    ensures Pages(events, cursor, size) == After(events, cursor)
    decreases |events| - Seen(events, cursor)
  {
    var rest := After(events, cursor);
    if rest != [] {
      var page := Take(rest, size);
      TakeAndRest(rest, size);
      BehindPage(events, cursor, |page|);
      PagingIsComplete(events, page[|page| - 1].sequence, size);
    }
  }

  lemma TakeAndRest(rest: seq<Event>, size: nat)
    requires rest != [] && size > 0
    ensures var page := Take(rest, size);
            0 < |page| <= |rest| && page[|page| - 1] == rest[|page| - 1] && page + rest[|page|..] == rest
  {
  }

  /** The same for a broker's log: what can be paged through is what was not evicted. */
  lemma BrokerPaging(history: seq<Event>, conversation: string, capacity: nat, cursor: int, limit: int)
    requires Numbered(history)
    ensures var log := LastN(Of(history, conversation), capacity);
            Ascending(log) && Pages(log, cursor, PageSize(limit)) == After(log, cursor)
  {
    ConversationAscends(history, conversation);
    PagingIsComplete(LastN(Of(history, conversation), capacity), cursor, PageSize(limit));
  }
}
