/** What the texts of events become: the draft of a turn, the lines of the transcript. */
module OverlayText {
  import opened Basics
  import opened VisibleReply
  import opened Overlay
  import opened OverlayRuns

  // ---------------------------------------------------------------------------------------------
  // The text of a payload

  /** The payload has this text under a key: itself, nothing at all, or a number other than zero in decimal. */
  predicate Says(payload: Payload, key: Key, text: string) {
    || (key in payload && payload[key] == Text(text))
    || (text == "" && (key !in payload || payload[key] == Null || payload[key] == Number(0)))
    || (key in payload && payload[key].Number? && payload[key].n > 0 && text == Decimal(payload[key].n))
    || (key in payload && payload[key].Number? && payload[key].n < 0 && text == "-" + Decimal(-payload[key].n))
  }

  lemma SaysIff(payload: Payload, key: Key, text: string)
    ensures TextAt(payload, key) == text <==> Says(payload, key, text)
  {
  }

  // ---------------------------------------------------------------------------------------------
  // One event

  /** The summary that a client is told behind one more event of the conversation. */
  lemma OneMoreEvent(history: seq<Event>, e: Event, text: string)
    requires e.kind.AssistantDelta? ==> Says(e.payload, Delta, text)
    ensures var before, after := SnapshotOf(history, e.conversation), SnapshotOf(history + [e], e.conversation);
            && after.latest == e.sequence
            && after.active == (if e.kind.TurnStarted? then true else if e.kind.TurnFinished? then false else before.active)
            && after.draft == if e.kind.AssistantDelta? then before.draft + text
                              else if e.kind.UserMessage? then before.draft else ""
  {
    hide TextAt, Says;
    OfAppended(history, e, e.conversation);
    FoldAppended(Of(history, e.conversation), e);
    SaysIff(e.payload, Delta, text);
  }

  /** Events of other conversations change nothing but the newest number of a conversation without events. */
  lemma OtherEvent(history: seq<Event>, e: Event, conversation: string)
    requires e.conversation != conversation
    ensures var before, after := SnapshotOf(history, conversation), SnapshotOf(history + [e], conversation);
            after.active == before.active && after.draft == before.draft
  {
    OfAppended(history, e, conversation);
    assert Of(history, conversation) + [] == Of(history, conversation);
  }

  /** The window behind one event that is not a message. */
  lemma WindowBehindEvent(w: Window, e: Event, text: string)
    requires e.conversation == w.conversation && !e.kind.UserMessage? && !e.kind.AssistantFinal?
    requires e.kind.AssistantDelta? ==> Says(e.payload, Delta, text)
    ensures AfterEvent(w, e)
            == match e.kind
               case TurnStarted => w.(active := true, draft := "")
               case AssistantStarted => w.(draft := "")
               case AssistantDelta => w.(draft := w.draft + text)
               case _ => w.(active := false, draft := "")
  {
    hide TextAt, Says;
    SaysIff(e.payload, Delta, text);
  }

  // ---------------------------------------------------------------------------------------------
  // One turn

  function Concat(texts: seq<string>): string {
    if texts == [] then "" else Concat(texts[..|texts| - 1]) + texts[|texts| - 1]
  }

  /** Pieces of text of one conversation. */
  predicate Pieces(events: seq<Event>, conversation: string, texts: seq<string>) {
    && |events| == |texts|
    && forall i | 0 <= i < |events| ::
         events[i].kind.AssistantDelta? && events[i].conversation == conversation && Says(events[i].payload, Delta, texts[i])
  }

  lemma FewerPieces(events: seq<Event>, conversation: string, texts: seq<string>)
    requires Pieces(events, conversation, texts) && events != []
    ensures |texts| == |events| && Pieces(events[..|events| - 1], conversation, texts[..|texts| - 1])
  {
    hide Says;
  }

  lemma LastApart(history: seq<Event>, events: seq<Event>)
    requires events != []
    ensures history + events == (history + events[..|events| - 1]) + [events[|events| - 1]]
  {
  }

  /** From the start of a turn on, the broker's draft is the pieces so far, one behind the other. */
  lemma {:induction false} TurnDraft(
    history: seq<Event>, start: Event, events: seq<Event>, texts: seq<string>)
    requires start.kind.TurnStarted? && Pieces(events, start.conversation, texts)
    ensures var s := SnapshotOf(history + [start] + events, start.conversation);
            s.active && s.draft == Concat(texts)
  {
    hide SnapshotOf, Says, Pieces;
    if events == [] {
      assert history + [start] + events == history + [start];
      OneMoreEvent(history, start, "");
      NoPieces(events, start.conversation, texts);
    } else {
      var front, last := events[..|events| - 1], events[|events| - 1];
      FewerPieces(events, start.conversation, texts);
      TurnDraft(history, start, front, texts[..|texts| - 1]);
      LastApart(history + [start], events);
      LastPiece(events, start.conversation, texts);
      OneMoreEvent(history + [start] + front, last, texts[|texts| - 1]);
    }
  }

  lemma NoPieces(events: seq<Event>, conversation: string, texts: seq<string>)
    requires Pieces(events, conversation, texts) && events == []
    ensures Concat(texts) == ""
  {
  }

  lemma LastPiece(events: seq<Event>, conversation: string, texts: seq<string>)
    requires Pieces(events, conversation, texts) && events != []
    ensures var e := events[|events| - 1];
            && texts != [] && e.kind.AssistantDelta? && e.conversation == conversation
            && Says(e.payload, Delta, texts[|texts| - 1])
            && Concat(texts) == Concat(texts[..|texts| - 1]) + texts[|texts| - 1]
  {
    hide Says;
  }

  /** The same in the window; nothing is added to the transcript meanwhile. */
  lemma {:induction false} TurnInWindow(w: Window, start: Event, events: seq<Event>, texts: seq<string>)
    requires start.kind.TurnStarted? && start.conversation == w.conversation
    requires Pieces(events, w.conversation, texts)
    ensures AfterEvents(w, [start] + events) == w.(active := true, draft := Concat(texts))
  {
    hide AfterEvent, Says, Pieces;
    if events == [] {
      assert [start] + events == [start] && [start][..0] == [];
      assert AfterEvents(w, [start]) == AfterEvent(AfterEvents(w, [start][..0]), start);
      WindowBehindEvent(w, start, "");
      NoPieces(events, w.conversation, texts);
    } else {
      var front, last := events[..|events| - 1], events[|events| - 1];
      FewerPieces(events, w.conversation, texts);
      TurnInWindow(w, start, front, texts[..|texts| - 1]);
      LastApart([start], events);
      LastPiece(events, w.conversation, texts);
      LastOfBatch(w, [start] + front, last);
      WindowBehindEvent(AfterEvents(w, [start] + front), last, texts[|texts| - 1]);
    }
  }

  lemma LastOfBatch(w: Window, front: seq<Event>, last: Event)
    ensures AfterEvents(w, front + [last]) == AfterEvent(AfterEvents(w, front), last)
  {
    assert (front + [last])[..|front|] == front;
  }

  // ---------------------------------------------------------------------------------------------
  // White space

  predicate White(c: char) {
    c as int in {9, 10, 11, 12, 13, 28, 29, 30, 31, 32, 133, 160}
  }

  predicate AllWhite(s: string) {
    forall c | c in s :: White(c)
  }

  /** `t` stands in `s` between white space only, and has none at its own ends. */
  ghost predicate Trimmed(s: string, t: string) {
    && (t != "" ==> !White(t[0]) && !White(t[|t| - 1]))
    && exists a, b :: AllWhite(a) && AllWhite(b) && s == a + t + b
  }

  lemma WhiteIff(c: char)
    ensures White(c) <==> IsSpace(c)
  {
    assert '\t' as int == 9 && '\r' as int == 13 && ' ' as int == 32;
  }

  lemma {:induction false} StrippedLeft(s: string)
    ensures exists a :: AllWhite(a) && s == a + StripLeft(s)
    ensures StripLeft(s) != "" ==> !White(StripLeft(s)[0])
  {
    if s != "" {
      WhiteIff(s[0]);
      if IsSpace(s[0]) {
        StrippedLeft(s[1..]);
        var a :| AllWhite(a) && s[1..] == a + StripLeft(s[1..]);
        assert s == ([s[0]] + a) + StripLeft(s) && AllWhite([s[0]] + a);
        return;
      }
    }
    assert s == "" + StripLeft(s) && AllWhite("");
  }

  lemma {:induction false} StrippedRight(s: string)
    ensures exists b :: AllWhite(b) && s == StripRight(s) + b
    ensures StripRight(s) != "" ==> !White(StripRight(s)[|StripRight(s)| - 1]) && StripRight(s)[0] == s[0]
  {
    if s != "" {
      var last := s[|s| - 1];
      WhiteIff(last);
      if IsSpace(last) {
        var front := s[..|s| - 1];
        StrippedRight(front);
        var b :| AllWhite(b) && front == StripRight(front) + b;
        assert s == StripRight(s) + (b + [last]) && AllWhite(b + [last]);
        return;
      }
    }
    assert s == StripRight(s) + "" && AllWhite("");
  }

  lemma StripTrims(s: string)
    ensures Trimmed(s, Strip(s))
  {
    hide White;
    StrippedLeft(s);
    var a :| AllWhite(a) && s == a + StripLeft(s);
    var r := StripLeft(s);
    StrippedRight(r);
    var b :| AllWhite(b) && r == StripRight(r) + b;
    assert s == a + Strip(s) + b;
  }

  lemma SameTrimmed(a: string, t: string, b: string, c: string, u: string, d: string)
    requires a + t + b == c + u + d && AllWhite(a) && AllWhite(b) && AllWhite(c) && AllWhite(d)
    requires t != "" ==> !White(t[0]) && !White(t[|t| - 1])
    requires u != "" ==> !White(u[0]) && !White(u[|u| - 1])
    ensures t == u
  {
    hide White;
    var s := a + t + b;
    var n := |s|;
    if t == "" {
      WhiteThrough(s, c, u, d);
    } else if u == "" {
      WhiteThrough(s, a, t, b);
    } else {
      Edges(s, a, t, b);
      Edges(s, c, u, d);
      assert s[|a|] == t[0] && s[|c|] == u[0];
      assert s[|a| + |t| - 1] == t[|t| - 1] && s[|c| + |u| - 1] == u[|u| - 1];
      assert |a| == |c|;
      assert |t| == |u|;
      assert t == s[|a|..|a| + |t|];
    }
  }

  lemma WhiteThrough(s: string, a: string, t: string, b: string)
    requires s == a + t + b && AllWhite(s)
    requires t != "" ==> !White(t[0])
    ensures t == ""
  {
    if t != "" {
      FirstInside(s, a, t, b);
    }
  }

  lemma FirstInside(s: string, a: string, t: string, b: string)
    requires s == a + t + b && t != ""
    ensures t[0] in s
  {
    assert s[|a|] == t[0];
  }

  lemma Edges(s: string, a: string, t: string, b: string)
    requires s == a + t + b && AllWhite(a) && AllWhite(b)
    ensures forall i | 0 <= i < |a| :: White(s[i])
    ensures forall i | |a| + |t| <= i < |s| :: White(s[i])
    ensures s[|a|..|a| + |t|] == t
  {
    assert forall i | 0 <= i < |a| :: s[i] == a[i] && a[i] in a;
    assert forall i | |a| + |t| <= i < |s| :: s[i] == b[i - |a| - |t|] && b[i - |a| - |t|] in b;
  }

  /** Stripping removes exactly the white space at both ends. */
  lemma StripIff(s: string, t: string)
    ensures Strip(s) == t <==> Trimmed(s, t)
  {
    hide White, Strip;
    StripTrims(s);
    if Trimmed(s, t) {
      var a, b :| AllWhite(a) && AllWhite(b) && s == a + t + b;
      var c, d :| AllWhite(c) && AllWhite(d) && s == c + Strip(s) + d;
      SameTrimmed(a, t, b, c, Strip(s), d);
    }
  }

  // ---------------------------------------------------------------------------------------------
  // Lines of the transcript

  /** The identifier of a message: a number, its digits, or 0 for everything else. */
  predicate Names(payload: Payload, id: int) {
    if Id in payload && payload[Id].Number? then payload[Id].n == id
    else if Id in payload && payload[Id].Text? && payload[Id].text != "" && AllDigits(payload[Id].text)
    then DigitsValue(payload[Id].text) == id
    else id == 0
  }

  lemma NamesIff(payload: Payload, id: int)
    ensures IdAt(payload) == id <==> Names(payload, id)
  {
  }

  predicate FromAssistant(payload: Payload) {
    Role in payload && payload[Role] == Text("assistant")
  }

  /** How a message looks in the transcript: the player's own lines are marked. */
  function Shown(assistant: bool, text: string): string {
    if assistant then text else "> " + text
  }

  /** A message is shown once, with the white space at its ends removed; one without text is not shown. */
  lemma MessageIsShown(w: Window, m: Message, text: string)
    requires Trimmed(m.content, text)
    ensures Appended(w, m)
            == if text == "" || (m.id != 0 && m.id in w.seen) then w
               else w.(transcript := w.transcript + [Line(m.id, Shown(m.assistant, text))],
                       seen := w.seen + if m.id == 0 then {} else {m.id})
  {
    hide Trimmed, Strip;
    StripIff(m.content, text);
    assert w.seen + {} == w.seen && "" + text == text;
  }

  /** The window behind an event that brings a message: the player's, or a final answer, which ends the draft. */
  lemma MessageEventIsShown(w: Window, e: Event, content: string, text: string, id: int)
    requires e.conversation == w.conversation && (e.kind.UserMessage? || e.kind.AssistantFinal?)
    requires Says(e.payload, Content, content) && Trimmed(content, text) && Names(e.payload, id)
    ensures var after := AfterEvent(w, e);
            && after.active == w.active && after.conversation == w.conversation
            && after.draft == (if e.kind.AssistantFinal? then "" else w.draft)
            && after.transcript
               == w.transcript
                  + if text == "" || (id != 0 && id in w.seen) then []
                    else [Line(id, Shown(FromAssistant(e.payload), text))]
  {
    hide Trimmed, Says, Names, TextAt, IdAt, Appended;
    SaysIff(e.payload, Content, content);
    NamesIff(e.payload, id);
    var m := MessageOf(e.payload);
    assert FromAssistant(e.payload) <==> m.assistant;
    MessageIsShown(if e.kind.AssistantFinal? then w.(draft := "") else w, m, text);
    assert w.transcript + [] == w.transcript;
  }

  /** Messages that can all be shown: different identifiers and some text. */
  predicate Showable(messages: seq<Message>) {
    && (forall i, j | 0 <= i < j < |messages| && messages[i].id != 0 :: messages[i].id != messages[j].id)
    && forall i | 0 <= i < |messages| :: Strip(messages[i].content) != ""
  }

  function LinesOf(messages: seq<Message>): seq<Line> {
    seq(|messages|, i requires 0 <= i < |messages| =>
      Line(messages[i].id, Shown(messages[i].assistant, Strip(messages[i].content))))
  }

  lemma {:induction false} AllAreShown(w: Window, messages: seq<Message>)
    requires Showable(messages) && forall i | 0 <= i < |messages| :: messages[i].id !in w.seen
    ensures var after := AppendedAll(w, messages);
            && after.transcript == w.transcript + LinesOf(messages)
            && forall id | id in after.seen :: id in w.seen || exists i :: 0 <= i < |messages| && messages[i].id == id
  {
    hide Appended, Strip;
    if messages != [] {
      var front, last := messages[..|messages| - 1], messages[|messages| - 1];
      AllAreShown(w, front);
      var before := AppendedAll(w, front);
      StripTrimmed(last.content);
      MessageIsShown(before, last, Strip(last.content));
      assert last.id != 0 ==> last.id !in before.seen;
      assert LinesOf(messages) == LinesOf(front) + [Line(last.id, Shown(last.assistant, Strip(last.content)))];
      assert w.transcript + LinesOf(messages)
             == (w.transcript + LinesOf(front)) + [Line(last.id, Shown(last.assistant, Strip(last.content)))];
    }
  }

  lemma StripTrimmed(s: string)
    ensures Trimmed(s, Strip(s))
  {
    StripIff(s, Strip(s));
  }

  /** A bootstrap of another conversation replaces the transcript by the messages it brings. */
  lemma BootstrapShowsMessages(w: Window, b: Bootstrap)
    requires b.conversation != w.conversation && Showable(b.messages)
    ensures Bootstrapped(w, b).transcript == LinesOf(b.messages)
  {
    hide AppendedAll, Showable, LinesOf;
    AllAreShown(Selected(w, b.conversation), b.messages);
    assert [] + LinesOf(b.messages) == LinesOf(b.messages);
  }

  /** A bootstrap of the same conversation adds the messages that are not shown yet. */
  lemma BootstrapAddsMessages(w: Window, b: Bootstrap)
    requires b.conversation == w.conversation && Showable(b.messages)
    requires forall i | 0 <= i < |b.messages| :: b.messages[i].id !in w.seen
    ensures Bootstrapped(w, b).transcript == w.transcript + LinesOf(b.messages)
  {
    hide AppendedAll, Showable, LinesOf;
    AllAreShown(w, b.messages);
  }

  /**
   * From wherever a fault throws the client back, the bootstrap behind a switch shows the messages of the newly active
   * conversation, and the broker's draft and turn.
   */
  lemma RecoversInRun(s: System, conversation: string, messages: seq<Message>)
    requires conversation != s.window.conversation && Showable(messages)
    ensures Enabled(s, Fault) && Enabled(Next(s, Fault), Activate(conversation))
    ensures var a := Next(Next(s, Fault), Activate(conversation));
            && Enabled(a, ReadBootstrap(messages))
            && Enabled(Next(a, ReadBootstrap(messages)), UseBootstrap)
            && var t := Next(Next(a, ReadBootstrap(messages)), UseBootstrap);
               && t.window.conversation == conversation && t.window.transcript == LinesOf(messages)
               && t.window.active == SnapshotOf(s.history, conversation).active
               && t.window.draft == SnapshotOf(s.history, conversation).draft
               && (conversation != "" && conversation != s.worker.conversation ==>
                     t.worker == Worker(conversation, SnapshotOf(s.history, conversation).latest))
  {
    hide Showable, LinesOf, SnapshotOf, AppendedAll;
    var b := Bootstrap(conversation, messages, SnapshotOf(s.history, conversation), |s.history|);
    BootstrapShowsMessages(s.window, b);
    AppendedKeepsConversation(Selected(s.window, conversation), messages);
  }

  /** The first bootstrap of a fresh client shows the messages and puts the cursor in front of the first event. */
  lemma FirstBootstrap(capacity: nat, active: string, messages: seq<Message>)
    requires active != "" && Showable(messages)
    ensures var s := Start(capacity, active);
            && Enabled(s, ReadBootstrap(messages)) && Enabled(Next(s, ReadBootstrap(messages)), UseBootstrap)
            && var t := Next(Next(s, ReadBootstrap(messages)), UseBootstrap);
               && t.worker == Worker(active, 0) && t.phase == NeedEvents && !t.gap
               && t.window.transcript == LinesOf(messages) && t.window.draft == "" && !t.window.active
  {
    hide Showable, LinesOf, AppendedAll;
    var s := Start(capacity, active);
    BootstrapShowsMessages(s.window, Bootstrap(active, messages, SnapshotOf([], active), 0));
  }

  /** One answer carries what is retained behind the cursor, at most 256 events of it. */
  lemma AnswerSize(s: System)
    ensures var behind := After(LastN(Of(s.history, s.worker.conversation), s.capacity), s.worker.cursor);
            Answer(s) <= behind && |Answer(s)| == if |behind| < 256 then |behind| else 256
  {
  }

  /** As long as the client stays with a conversation, its cursor never goes back. */
  lemma CursorOnlyGrows(s: System, step: Step)
    requires Enabled(s, step) && Next(s, step).worker.conversation == s.worker.conversation
    ensures Next(s, step).worker.cursor >= s.worker.cursor
    ensures step.DeliverEvent? ==> Next(s, step).worker.cursor >= s.phase.batch[0].sequence
  {
  }

  lemma {:induction false} AppendedKeepsConversation(w: Window, messages: seq<Message>)
    ensures AppendedAll(w, messages).conversation == w.conversation
  {
    if messages != [] {
      AppendedKeepsConversation(w, messages[..|messages| - 1]);
    }
  }

  // ---------------------------------------------------------------------------------------------
  // What may be published, and what is lost

  /** Which events may carry a key. */
  lemma AllowedIff(kind: EventType, key: Key)
    ensures key in AllowedKeys(kind) <==>
            match key
            case ApplicationId => true
            case ApplicationDisplayName => true
            case Trigger => kind.TurnStarted? || kind.TurnFinished?
            case Delta => kind.AssistantDelta?
            case RoundIndex => kind.AssistantStarted? || kind.AssistantDelta? || kind.AssistantFinal?
            case Other(_) => false
            case _ => kind.UserMessage? || kind.AssistantFinal?
  {
  }

  /**
   * At the start nothing is missed; an answer misses something exactly when an event behind the cursor is no longer in
   * the bounded log, and a bootstrap makes up for it.
   */
  lemma GapIff(s: System, step: Step)
    requires Enabled(s, step) && Numbered(s.history)
    ensures !Start(s.capacity, s.active).gap
    ensures var log := Of(s.history, s.worker.conversation);
            Next(s, step).gap
            <==> (s.gap && !step.UseBootstrap?)
                 || (step.ReadEvents?
                     && exists e :: e in log && e.sequence > s.worker.cursor && e !in LastN(log, s.capacity))
  {
    hide Evicted;
    ConversationAscends(s.history, s.worker.conversation);
    EvictedIff(Of(s.history, s.worker.conversation), s.capacity, s.worker.cursor);
  }

  /** The client misses something exactly when an event behind its cursor is no longer in the bounded log. */
  lemma EvictedIff(log: seq<Event>, capacity: nat, cursor: nat)
    requires Ascending(log)
    ensures Evicted(log, capacity, cursor)
            <==> exists e :: e in log && e.sequence > cursor && e !in LastN(log, capacity)
  {
    hide LastN, Ascending;
    if Evicted(log, capacity, cursor) {
      DroppedIsNotKept(log, capacity);
    }
    if e :| e in log && e.sequence > cursor && e !in LastN(log, capacity) {
      NotKeptIsBefore(log, capacity, e);
    }
  }

  /** The newest event that the bounded log has dropped. */
  lemma DroppedIsNotKept(log: seq<Event>, capacity: nat)
    requires Ascending(log) && |log| > capacity
    ensures var e := log[|log| - capacity - 1]; e in log && e !in LastN(log, capacity)
  {
    var kept, e := LastN(log, capacity), log[|log| - capacity - 1];
    assert forall i | 0 <= i < |kept| :: kept[i] == log[|log| - capacity + i] && kept[i].sequence > e.sequence;
  }

  lemma NotKeptIsBefore(log: seq<Event>, capacity: nat, e: Event)
    requires Ascending(log) && e in log && e !in LastN(log, capacity)
    ensures |log| > capacity && e.sequence <= log[|log| - capacity - 1].sequence
  {
    var kept, d := LastN(log, capacity), |log| - |LastN(log, capacity)|;
    forall i | d <= i < |log| ensures log[i] in kept {
      assert kept[i - d] == log[i];
    }
    var i :| 0 <= i < |log| && log[i] == e;
    assert i < d;
  }
}
