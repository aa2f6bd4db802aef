/** Broker, worker and window together: what the overlay shows over every run. */
module OverlayRuns {
  import opened VisibleReply
  import opened Overlay

  /** The worker's loop: ask for a bootstrap, apply it, ask for events, hand them to the window one by one. */
  datatype Phase =
    | NeedBootstrap
    | Bootstrapping(answer: Bootstrap)
    | NeedEvents
    | Delivering(batch: seq<Event>)

  /** `gap`: the last answer of the event endpoint missed an event that was already evicted. */
  datatype System = System(
    history: seq<Event>, capacity: nat, active: string, worker: Worker, window: Window, phase: Phase, gap: bool)

  datatype Step =
    | Publish(conversation: string, kind: EventType, payload: Payload)
    | Activate(conversation: string)
    | ReadBootstrap(messages: seq<Message>)
    | UseBootstrap
    | ReadEvents
    | DeliverEvent
    | Fault

  const DEFAULT_LIMIT: nat := 256

  /** Some event of the conversation behind the cursor is no longer in the bounded log. */
  predicate Evicted(log: seq<Event>, capacity: nat, cursor: nat) {
    |log| > capacity && log[|log| - capacity - 1].sequence > cursor
  }

  function Answer(s: System): seq<Event> {
    Take(After(LastN(Of(s.history, s.worker.conversation), s.capacity), s.worker.cursor), DEFAULT_LIMIT)
  }

  predicate Enabled(s: System, step: Step) {
    match step
    case Publish(c, _, _) => c != ""
    case Activate(_) => true
    case ReadBootstrap(_) => s.phase.NeedBootstrap?
    case UseBootstrap => s.phase.Bootstrapping?
    case ReadEvents => s.phase.NeedEvents?
    case DeliverEvent => s.phase.Delivering? && s.phase.batch != []
    case Fault => true
  }

  function Next(s: System, step: Step): System
    requires Enabled(s, step)
  {
    match step
    case Publish(c, kind, payload) => s.(history := s.history + [Event(|s.history| + 1, c, kind, payload)])
    case Activate(c) => s.(active := c)
    case ReadBootstrap(messages) =>
      s.(phase := Bootstrapping(Bootstrap(s.active, messages, SnapshotOf(s.history, s.active), |s.history|)))
    case UseBootstrap =>
      var worker := FollowBootstrap(s.worker, s.phase.answer);
      s.(worker := worker, window := Bootstrapped(s.window, s.phase.answer), gap := false,
         phase := if worker.conversation == "" then NeedBootstrap else NeedEvents)
    case ReadEvents =>
      s.(phase := if Answer(s) == [] then NeedBootstrap else Delivering(Answer(s)),
         gap := s.gap || Evicted(Of(s.history, s.worker.conversation), s.capacity, s.worker.cursor))
    case DeliverEvent =>
      var e, rest := s.phase.batch[0], s.phase.batch[1..];
      s.(worker := FollowEvent(s.worker, e), window := AfterEvent(s.window, e),
         phase := if rest == [] then NeedBootstrap else Delivering(rest))
    case Fault => s.(phase := NeedBootstrap)
  }

  function Start(capacity: nat, active: string): System {
    System([], capacity, active, Worker("", 0), Window("", false, "", {}, []), NeedBootstrap, false)
  }

  predicate CanRun(s: System, steps: seq<Step>)
    decreases |steps|
  {
    steps == [] || (Enabled(s, steps[0]) && CanRun(Next(s, steps[0]), steps[1..]))
  }

  function Run(s: System, steps: seq<Step>): System
    requires CanRun(s, steps)
    decreases |steps|
  {
    if steps == [] then s else Run(Next(s, steps[0]), steps[1..])
  }

  // ---------------------------------------------------------------------------------------------
  // What the window should show

  /** The summary of the conversation's events up to a sequence number. */
  function UpTo(history: seq<Event>, conversation: string, cursor: nat): Summary
    requires cursor <= |history|
  {
    Fold(Of(history[..cursor], conversation))
  }

  ghost predicate Shows(w: Window, s: Summary) {
    w.active == s.active && w.draft == s.draft
  }

  /** The batch continues the conversation's events behind the cursor without a hole. */
  ghost predicate Follows(history: seq<Event>, conversation: string, cursor: nat, batch: seq<Event>)
    decreases |batch|
  {
    cursor <= |history|
    && (batch != [] ==>
          && cursor < batch[0].sequence <= |history|
          && Of(history[..batch[0].sequence], conversation) == Of(history[..cursor], conversation) + [batch[0]]
          && Follows(history, conversation, batch[0].sequence, batch[1..]))
  }

  ghost predicate PhaseInv(s: System) {
    match s.phase
    case Bootstrapping(b) =>
      && s.worker.cursor <= b.at <= |s.history|
      && b.stream == SnapshotOf(s.history[..b.at], b.conversation)
    case NeedEvents => s.worker.conversation != ""
    case Delivering(batch) =>
      && s.worker.conversation != ""
      && (forall i | 0 <= i < |batch| ::
            batch[i].conversation == s.worker.conversation && batch[i].sequence <= |s.history|)
      && (!s.gap ==> Follows(s.history, s.worker.conversation, s.worker.cursor, batch))
    case _ => true
  }

  ghost predicate Inv(s: System) {
    && Numbered(s.history) && (forall i | 0 <= i < |s.history| :: s.history[i].conversation != "")
    && s.worker.cursor <= |s.history|
    && (s.window.conversation == s.worker.conversation || s.window.conversation == "")
    && (!s.gap ==> Shows(s.window, UpTo(s.history, s.window.conversation, s.worker.cursor)))
    && PhaseInv(s) && NoRepeats(s.window)
  }

  // ---------------------------------------------------------------------------------------------
  // Events up to a cursor

  lemma {:induction false} NobodysEvents(history: seq<Event>)
    requires forall i | 0 <= i < |history| :: history[i].conversation != ""
    ensures Of(history, "") == []
  {
    if history != [] {
      NobodysEvents(history[..|history| - 1]);
    }
  }

  lemma OfNext(history: seq<Event>, n: nat, conversation: string)
    requires n < |history|
    ensures Of(history[..n + 1], conversation)
            == Of(history[..n], conversation) + if history[n].conversation == conversation then [history[n]] else []
  {
    assert history[..n + 1] == history[..n] + [history[n]];
    OfAppended(history[..n], history[n], conversation);
  }

  /** The part of a log that a cursor has seen. */
  function SeenPart(log: seq<Event>, cursor: nat): seq<Event> {
    log[..Seen(log, cursor)]
  }

  lemma SeenPartExtended(log: seq<Event>, e: Event, cursor: nat)
    requires e.sequence > cursor
    ensures SeenPart(log + [e], cursor) == SeenPart(log, cursor)
  {
    SeenIs(log + [e], cursor, Seen(log, cursor));
  }

  lemma SeenAll(log: seq<Event>, cursor: nat)
    requires forall e | e in log :: e.sequence <= cursor
    ensures Seen(log, cursor) == |log| && SeenPart(log, cursor) == log
  {
    SeenIs(log, cursor, |log|);
  }

  lemma AllIsSeen(history: seq<Event>, conversation: string)
    requires Numbered(history)
    ensures SeenPart(Of(history, conversation), |history|) == Of(history, conversation)
  {
    OfHistory(history, conversation);
    SeenAll(Of(history, conversation), |history|);
  }

  lemma NextIsNotSeen(history: seq<Event>, m: nat, conversation: string, n: nat)
    requires m < |history| && n < history[m].sequence
    ensures SeenPart(Of(history[..m + 1], conversation), n) == SeenPart(Of(history[..m], conversation), n)
  {
    OfNext(history, m, conversation);
    var log := Of(history[..m], conversation);
    SeenPartExtended(log, history[m], n);
    assert log + [] == log;
  }

  /** The events of the first `n` are the part of the conversation's log that a cursor at `n` has seen. */
  lemma {:induction false} UpToIsSeen(history: seq<Event>, conversation: string, n: nat, m: nat)
    requires Numbered(history) && n <= m <= |history|
    ensures Of(history[..n], conversation) == SeenPart(Of(history[..m], conversation), n)
    decreases m
  {
    if n == m {
      AllIsSeen(history[..m], conversation);
    } else {
      UpToIsSeen(history, conversation, n, m - 1);
      NextIsNotSeen(history, m - 1, conversation, n);
    }
  }

  /** Between the last event of the first `m` and `m` the conversation has nothing. */
  lemma NothingBehindLatest(history: seq<Event>, conversation: string, n: nat, m: nat)
    requires Numbered(history) && n <= m <= |history|
    requires var log := Of(history[..m], conversation); log != [] ==> log[|log| - 1].sequence <= n
    ensures Of(history[..n], conversation) == Of(history[..m], conversation)
  {
    OfHistory(history[..m], conversation);
    ConversationAscends(history[..m], conversation);
    UpToIsSeen(history, conversation, n, m);
    SeenAll(Of(history[..m], conversation), n);
  }

  lemma SnapshotLatest(history: seq<Event>, conversation: string)
    requires Numbered(history)
    ensures var s, log := SnapshotOf(history, conversation), Of(history, conversation);
            && s.latest <= |history| && (log == [] ==> s.latest == |history|)
            && (log != [] ==> s.latest == log[|log| - 1].sequence)
            && s.active == Fold(log).active && s.draft == Fold(log).draft
  {
    OfHistory(history, conversation);
    var log := Of(history, conversation);
    if log != [] {
      assert log[|log| - 1] in log;
    }
  }

  lemma OneMoreSeen(history: seq<Event>, conversation: string, cursor: nat, k: nat)
    requires Numbered(history) && cursor <= |history|
    requires var log := Of(history, conversation);
             k == Seen(log, cursor) && k < |log| && log[k].sequence <= |history|
             && Seen(log, log[k].sequence) == k + 1
    ensures var log := Of(history, conversation);
            Of(history[..log[k].sequence], conversation) == Of(history[..cursor], conversation) + [log[k]]
  {
    var log := Of(history, conversation);
    assert history[..|history|] == history;
    UpToIsSeen(history, conversation, cursor, |history|);
    UpToIsSeen(history, conversation, log[k].sequence, |history|);
    assert log[..k + 1] == log[..k] + [log[k]];
  }

  lemma SliceCons(log: seq<Event>, k: nat, n: nat)
    requires k < n <= |log|
    ensures log[k..n] == [log[k]] + log[k + 1..n]
  {
  }

  lemma FollowsCons(history: seq<Event>, conversation: string, cursor: nat, e: Event, rest: seq<Event>)
    requires cursor < e.sequence <= |history| && Follows(history, conversation, e.sequence, rest)
    requires Of(history[..e.sequence], conversation) == Of(history[..cursor], conversation) + [e]
    ensures Follows(history, conversation, cursor, [e] + rest)
  {
    var batch := [e] + rest;
    assert batch[0] == e && batch[1..] == rest;
  }

  lemma {:induction false} LogFollows(history: seq<Event>, conversation: string, cursor: nat, k: nat, n: nat)
    requires Numbered(history) && cursor <= |history|
    requires var log := Of(history, conversation); k == Seen(log, cursor) && k <= n <= |log|
    ensures Follows(history, conversation, cursor, Of(history, conversation)[k..n])
    decreases n - k
  {
    var log := Of(history, conversation);
    OfHistory(history, conversation);
    ConversationAscends(history, conversation);
    if k < n {
      var e := log[k];
      assert e in log;
      SeenByPage(log, cursor, 1);
      LogFollows(history, conversation, e.sequence, k + 1, n);
      OneMoreSeen(history, conversation, cursor, k);
      FollowsCons(history, conversation, cursor, e, log[k + 1..n]);
      SliceCons(log, k, n);
    }
  }

  lemma {:induction false} FollowsKept(history: seq<Event>, event: Event, c: string, cursor: nat, batch: seq<Event>)
    requires Follows(history, c, cursor, batch)
    ensures Follows(history + [event], c, cursor, batch)
    decreases |batch|
  {
    var more := history + [event];
    assert more[..cursor] == history[..cursor];
    if batch != [] {
      assert more[..batch[0].sequence] == history[..batch[0].sequence];
      FollowsKept(history, event, c, batch[0].sequence, batch[1..]);
    }
  }

  // ---------------------------------------------------------------------------------------------
  // The answer of the event endpoint

  lemma SeenBehind(log: seq<Event>, d: nat, cursor: nat)
    requires Ascending(log) && 0 < d <= |log| && log[d - 1].sequence <= cursor
    ensures Ascending(log[d..]) && Seen(log, cursor) == d + Seen(log[d..], cursor)
  {
    var kept := log[d..];
    var k := Seen(kept, cursor);
    assert forall i | 0 <= i < d :: log[i].sequence <= log[d - 1].sequence;
    assert forall i | d <= i < d + k :: log[i] == kept[i - d];
    assert k < |kept| ==> kept[k] == log[d + k];
    SeenIs(log, cursor, d + k);
  }

  lemma BehindDropped(log: seq<Event>, d: nat, cursor: nat)
    requires Ascending(log) && 0 < d <= |log| && log[d - 1].sequence <= cursor
    ensures After(log[d..], cursor) == log[Seen(log, cursor)..]
  {
    SeenBehind(log, d, cursor);
    AfterIsSuffix(log[d..], cursor);
    assert After(log[d..], cursor) == log[d..][Seen(log[d..], cursor)..];
    DropTwice(log, d, Seen(log[d..], cursor));
  }

  /** Unless something behind the cursor was evicted, the bounded log answers like the full one. */
  lemma NothingMissed(log: seq<Event>, capacity: nat, cursor: nat)
    requires Ascending(log) && !Evicted(log, capacity, cursor)
    ensures After(LastN(log, capacity), cursor) == log[Seen(log, cursor)..]
  {
    if |log| <= capacity {
      AfterIsSuffix(log, cursor);
    } else {
      var d := |log| - capacity;
      assert LastN(log, capacity) == log[d..];
      BehindDropped(log, d, cursor);
    }
  }

  lemma DropTwice(log: seq<Event>, d: nat, k: nat)
    requires d + k <= |log|
    ensures log[d..][k..] == log[d + k..]
  {
  }

  lemma {:induction false} AfterIsPart(events: seq<Event>, cursor: int, e: Event)
    requires e in After(events, cursor)
    ensures e in events
  {
    if e != events[0] {
      AfterIsPart(events[1..], cursor, e);
    }
  }

  lemma AnswerIsHistory(s: System, e: Event)
    requires Numbered(s.history) && e in Answer(s)
    ensures e.conversation == s.worker.conversation && e.sequence <= |s.history|
  {
    OfHistory(s.history, s.worker.conversation);
    AfterIsPart(LastN(Of(s.history, s.worker.conversation), s.capacity), s.worker.cursor, e);
  }

  lemma AnswerFollows(s: System)
    requires Numbered(s.history) && s.worker.cursor <= |s.history|
    requires !Evicted(Of(s.history, s.worker.conversation), s.capacity, s.worker.cursor)
    ensures Follows(s.history, s.worker.conversation, s.worker.cursor, Answer(s))
  {
    var log := Of(s.history, s.worker.conversation);
    ConversationAscends(s.history, s.worker.conversation);
    NothingMissed(log, s.capacity, s.worker.cursor);
    var k := Seen(log, s.worker.cursor);
    var n := if |log| - k <= DEFAULT_LIMIT then |log| else k + DEFAULT_LIMIT;
    assert Answer(s) == log[k..n];
    LogFollows(s.history, s.worker.conversation, s.worker.cursor, k, n);
  }

  // ---------------------------------------------------------------------------------------------
  // Every step keeps the invariant

  lemma PublishKeepsInv(s: System, c: string, kind: EventType, payload: Payload)
    requires Inv(s) && c != ""
    ensures Inv(Next(s, Publish(c, kind, payload)))
  {
    var e := Event(|s.history| + 1, c, kind, payload);
    var more := s.history + [e];
    assert more[..s.worker.cursor] == s.history[..s.worker.cursor];
    match s.phase
    case Bootstrapping(b) =>
      assert more[..b.at] == s.history[..b.at];
    case Delivering(batch) =>
      if !s.gap {
        FollowsKept(s.history, e, s.worker.conversation, s.worker.cursor, batch);
      }
    case _ =>
  }

  lemma {:induction false} AppendedAllKeeps(w: Window, messages: seq<Message>)
    requires NoRepeats(w)
    ensures var after := AppendedAll(w, messages);
            && NoRepeats(after) && after.conversation == w.conversation
            && after.active == w.active && after.draft == w.draft
  {
    if messages != [] {
      AppendedAllKeeps(w, messages[..|messages| - 1]);
      AppendKeepsNoRepeats(AppendedAll(w, messages[..|messages| - 1]), messages[|messages| - 1]);
    }
  }

  lemma BootstrappedWindow(w: Window, b: Bootstrap)
    requires NoRepeats(w)
    ensures var after := Bootstrapped(w, b);
            && NoRepeats(after) && after.conversation == b.conversation && Shows(after, b.stream)
  {
    AppendedAllKeeps(Selected(w, b.conversation), b.messages);
  }

  /** The answer's summary is that of the events up to wherever the cursor is set. */
  lemma AnswerIsUpToCursor(history: seq<Event>, b: Bootstrap, cursor: nat)
    requires Numbered(history) && cursor <= b.at <= |history| && b.stream == SnapshotOf(history[..b.at], b.conversation)
    requires b.stream.latest <= cursor
    ensures b.stream.active == UpTo(history, b.conversation, cursor).active
    ensures b.stream.draft == UpTo(history, b.conversation, cursor).draft
  {
    var known := history[..b.at];
    SnapshotLatest(known, b.conversation);
    assert known[..|known|] == known && known[..cursor] == history[..cursor];
    NothingBehindLatest(known, b.conversation, cursor, b.at);
  }

  lemma UseBootstrapKeepsInv(s: System)
    requires Inv(s) && s.phase.Bootstrapping?
    ensures Inv(Next(s, UseBootstrap))
  {
    var b := s.phase.answer;
    BootstrappedWindow(s.window, b);
    SnapshotLatest(s.history[..b.at], b.conversation);
    AnswerIsUpToCursor(s.history, b, FollowBootstrap(s.worker, b).cursor);
  }

  lemma ReadEventsKeepsInv(s: System)
    requires Inv(s) && s.phase.NeedEvents?
    ensures Inv(Next(s, ReadEvents))
  {
    var batch := Answer(s);
    forall i | 0 <= i < |batch|
      ensures batch[i].conversation == s.worker.conversation && batch[i].sequence <= |s.history|
    {
      AnswerIsHistory(s, batch[i]);
    }
    if !Evicted(Of(s.history, s.worker.conversation), s.capacity, s.worker.cursor) {
      AnswerFollows(s);
    }
  }

  lemma EventKeepsNoRepeats(w: Window, e: Event)
    requires NoRepeats(w)
    ensures NoRepeats(AfterEvent(w, e)) && AfterEvent(w, e).conversation == w.conversation
  {
    match e.kind {
      case UserMessage => AppendKeepsNoRepeats(w, MessageOf(e.payload));
      case AssistantFinal =>
        assert NoRepeats(w.(draft := ""));
        AppendKeepsNoRepeats(w.(draft := ""), MessageOf(e.payload));
      case _ =>
        var after := AfterEvent(w, e);
        assert after.transcript == w.transcript && after.seen == w.seen;
    }
  }

  lemma WindowFollows(w: Window, s: Summary, e: Event)
    requires Shows(w, s) && e.conversation == w.conversation
    ensures Shows(AfterEvent(w, e), VisibleReply.Apply(s, e))
  {
  }

  /** Delivering the next event moves the window and the cursor together. */
  lemma DeliverShows(s: System)
    requires Inv(s) && s.phase.Delivering? && s.phase.batch != [] && !s.gap
    ensures var t := Next(s, DeliverEvent);
            t.worker.cursor <= |t.history| && Shows(t.window, UpTo(t.history, s.window.conversation, t.worker.cursor))
  {
    var e := s.phase.batch[0];
    var before := Of(s.history[..s.worker.cursor], s.window.conversation);
    if e.conversation == s.window.conversation {
      WindowFollows(s.window, Fold(before), e);
      FoldAppended(before, e);
    } else {
      NobodysEvents(s.history[..s.worker.cursor]);
      NobodysEvents(s.history[..FollowEvent(s.worker, e).cursor]);
    }
  }

  lemma DeliverKeepsInv(s: System)
    requires Inv(s) && s.phase.Delivering? && s.phase.batch != []
    ensures Inv(Next(s, DeliverEvent))
  {
    EventKeepsNoRepeats(s.window, s.phase.batch[0]);
    if !s.gap {
      DeliverShows(s);
    }
  }

  lemma StepKeepsInv(s: System, step: Step)
    requires Inv(s) && Enabled(s, step)
    ensures Inv(Next(s, step))
  {
    match step
    case Publish(c, kind, payload) => PublishKeepsInv(s, c, kind, payload);
    case Activate(_) =>
    case ReadBootstrap(_) => assert s.history[..|s.history|] == s.history;
    case UseBootstrap => UseBootstrapKeepsInv(s);
    case ReadEvents => ReadEventsKeepsInv(s);
    case DeliverEvent => DeliverKeepsInv(s);
    case Fault =>
  }

  lemma {:induction false} RunKeepsInv(s: System, steps: seq<Step>)
    requires Inv(s) && CanRun(s, steps)
    ensures Inv(Run(s, steps))
    decreases |steps|
  {
    if steps != [] {
      StepKeepsInv(s, steps[0]);
      RunKeepsInv(Next(s, steps[0]), steps[1..]);
    }
  }

  lemma StartHolds(capacity: nat, active: string)
    ensures Inv(Start(capacity, active))
  {
  }
}
