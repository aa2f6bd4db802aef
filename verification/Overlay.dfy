/** The overlay client: its network worker's cursor and its window's conversation state. */
module Overlay {
  import opened Basics
  import opened VisibleReply

  // ---------------------------------------------------------------------------------------------
  // The window

  /** A message to show; the identifier is 0 when there is none. */
  datatype Message = Message(id: int, content: string, assistant: bool)

  datatype Line = Line(id: int, text: string)

  datatype Window = Window(conversation: string, active: bool, draft: string, seen: set<int>, transcript: seq<Line>)

  /** What the console answers to a bootstrap request; `at` is the number of events published before the answer. */
  datatype Bootstrap = Bootstrap(conversation: string, messages: seq<Message>, stream: Summary, at: nat)

  function IdAt(payload: Payload): int {
    if Id !in payload then 0
    else
      match payload[Id]
      case Null => 0
      case Number(n) => n
      case Text(text) => if text != "" && AllDigits(text) then DigitsValue(text) else 0
  }

  function MessageOf(payload: Payload): Message {
    Message(IdAt(payload), TextAt(payload, Content), Role in payload && payload[Role] == Text("assistant"))
  }

  function Appended(w: Window, m: Message): Window {
    var content := Strip(m.content);
    if (m.id != 0 && m.id in w.seen) || content == "" then w
    else
      w.(seen := if m.id != 0 then w.seen + {m.id} else w.seen,
         transcript := w.transcript + [Line(m.id, (if m.assistant then "" else "> ") + content)])
  }

  function AppendedAll(w: Window, messages: seq<Message>): Window {
    if messages == [] then w
    else Appended(AppendedAll(w, messages[..|messages| - 1]), messages[|messages| - 1])
  }

  function Selected(w: Window, conversation: string): Window {
    if conversation != w.conversation then w.(conversation := conversation, seen := {}, transcript := []) else w
  }

  function Bootstrapped(w: Window, b: Bootstrap): Window {
    AppendedAll(Selected(w, b.conversation), b.messages).(active := b.stream.active, draft := b.stream.draft)
  }

  function AfterEvent(w: Window, e: Event): Window {
    if e.conversation != w.conversation then w
    else
      match e.kind
      case TurnStarted => w.(active := true, draft := "")
      case UserMessage => Appended(w, MessageOf(e.payload))
      case AssistantStarted => w.(draft := "")
      case AssistantDelta => w.(draft := w.draft + TextAt(e.payload, Delta))
      case AssistantFinal => Appended(w.(draft := ""), MessageOf(e.payload))
      case TurnFinished => w.(active := false, draft := "")
  }

  function AfterEvents(w: Window, events: seq<Event>): Window {
    if events == [] then w else AfterEvent(AfterEvents(w, events[..|events| - 1]), events[|events| - 1])
  }

  /** The transcript shows no identified message twice, and `seen` is what it shows. */
  ghost predicate NoRepeats(w: Window) {
    && (forall i, j | 0 <= i < j < |w.transcript| && w.transcript[i].id != 0 ::
          w.transcript[i].id != w.transcript[j].id)
    && (forall id :: id in w.seen <==> id != 0 && exists i :: 0 <= i < |w.transcript| && w.transcript[i].id == id)
  }

  class OverlayWindow {
    var conversation: string
    var active: bool
    var draft: string
    var seen: set<int>
    var transcript: seq<Line>

    function Value(): Window
      reads this
    {
      Window(conversation, active, draft, seen, transcript)
    }

    constructor ()
      ensures Value() == Window("", false, "", {}, [])
    {
      conversation, active, draft, seen, transcript := "", false, "", {}, [];
    }

    method AppendMessage(m: Message)
      modifies this
      ensures Value() == Appended(old(Value()), m)
      ensures old(NoRepeats(Value())) ==> NoRepeats(Value())
    {
      AppendKeepsNoRepeats(Value(), m);
      if m.id != 0 && m.id in seen {
        return;
      }
      var content := Strip(m.content);
      if content == "" {
        return;
      }
      if m.id != 0 {
        seen := seen + {m.id};
      }
      transcript := transcript + [Line(m.id, (if m.assistant then "" else "> ") + content)];
    }

    method ApplyBootstrap(b: Bootstrap)
      modifies this
      ensures Value() == Bootstrapped(old(Value()), b)
    {
      if b.conversation != conversation {
        conversation := b.conversation;
        seen := {};
        transcript := [];
      }
      ghost var start := Value();
      var i := 0;
      while i < |b.messages|
        invariant 0 <= i <= |b.messages|
        invariant Value() == AppendedAll(start, b.messages[..i])
      {
        assert b.messages[..i + 1][..i] == b.messages[..i];
        AppendMessage(b.messages[i]);
        i := i + 1;
      }
      assert b.messages[..i] == b.messages;
      active := b.stream.active;
      draft := b.stream.draft;
    }

    method ApplyEvent(e: Event)
      modifies this
      ensures Value() == AfterEvent(old(Value()), e)
    {
      if e.conversation != conversation {
        return;
      }
      match e.kind
      case TurnStarted =>
        active := true;
        draft := "";
      case UserMessage =>
        AppendMessage(MessageOf(e.payload));
      case AssistantStarted =>
        draft := "";
      case AssistantDelta =>
        draft := draft + TextAt(e.payload, Delta);
      case AssistantFinal =>
        draft := "";
        AppendMessage(MessageOf(e.payload));
      case TurnFinished =>
        active := false;
        draft := "";
    }
  }

  lemma AppendKeepsNoRepeats(w: Window, m: Message)
    ensures NoRepeats(w) ==> NoRepeats(Appended(w, m))
  {
    var after := Appended(w, m);
    if NoRepeats(w) && after != w {
      forall id
        ensures id in after.seen
                <==> id != 0 && exists i :: 0 <= i < |after.transcript| && after.transcript[i].id == id
      {
        assert after.transcript[|w.transcript|].id == m.id;
        if i :| 0 <= i < |w.transcript| && w.transcript[i].id == id {
          assert after.transcript[i].id == id;
        }
      }
    }
  }

  // ---------------------------------------------------------------------------------------------
  // The worker

  datatype Worker = Worker(conversation: string, cursor: nat)

  function Max(a: nat, b: nat): (m: nat)
    ensures m >= a && m >= b && (m == a || m == b)
  {
    if a < b then b else a
  }

  /** A new conversation starts at its own newest event; otherwise the cursor only grows. */
  function FollowBootstrap(w: Worker, b: Bootstrap): Worker {
    if b.conversation != "" && b.conversation != w.conversation then Worker(b.conversation, b.stream.latest)
    else w.(cursor := Max(w.cursor, b.stream.latest))
  }

  function FollowEvent(w: Worker, e: Event): Worker {
    w.(cursor := Max(w.cursor, e.sequence))
  }

  function FollowEvents(w: Worker, events: seq<Event>): Worker {
    if events == [] then w else FollowEvent(FollowEvents(w, events[..|events| - 1]), events[|events| - 1])
  }

  class OverlayNetworkWorker {
    var conversation: string
    var cursor: nat
    const window: OverlayWindow

    function Value(): Worker
      reads this
    {
      Worker(conversation, cursor)
    }

    constructor (window: OverlayWindow)
      ensures Value() == Worker("", 0) && this.window == window
    {
      conversation, cursor := "", 0;
      this.window := window;
    }

    method ApplyBootstrap(b: Bootstrap)
      modifies this, window
      ensures Value() == FollowBootstrap(old(Value()), b)
      ensures window.Value() == Bootstrapped(old(window.Value()), b)
    {
      var changed := b.conversation != "" && b.conversation != conversation;
      if changed {
        conversation := b.conversation;
        cursor := b.stream.latest;
      } else {
        cursor := Max(cursor, b.stream.latest);
      }
      window.ApplyBootstrap(b);
    }

    /** One answer of the event endpoint. */
    method Deliver(events: seq<Event>)
      modifies this, window
      ensures Value() == FollowEvents(old(Value()), events)
      ensures window.Value() == AfterEvents(old(window.Value()), events)
    {
      var i := 0;
      while i < |events|
        invariant 0 <= i <= |events|
        invariant Value() == FollowEvents(old(Value()), events[..i])
        invariant window.Value() == AfterEvents(old(window.Value()), events[..i])
      {
        assert events[..i + 1][..i] == events[..i];
        cursor := Max(cursor, events[i].sequence);
        window.ApplyEvent(events[i]);
        i := i + 1;
      }
      assert events[..i] == events;
    }
  }
}
