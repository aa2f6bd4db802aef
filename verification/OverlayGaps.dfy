/** What the overlay shows after its worker has missed evicted events: exactly when it is right all the same. */
module OverlayGaps {
  import opened VisibleReply
  import opened Overlay
  import opened OverlayRuns
  import opened OverlayResults

  /** Events that say whether a turn is active. */
  predicate Decides(e: Event) {
    e.kind.TurnStarted? || e.kind.TurnFinished?
  }

  /** Events that empty the draft. */
  predicate Resets(e: Event) {
    Decides(e) || e.kind.AssistantStarted? || e.kind.AssistantFinal?
  }

  /** The last deciding event counts. */
  function ActiveAfter(active: bool, events: seq<Event>): bool {
    if events == [] then active
    else
      var last := events[|events| - 1];
      if Decides(last) then last.kind.TurnStarted? else ActiveAfter(active, events[..|events| - 1])
  }

  /** The text that an event adds to the draft. */
  function TextOf(e: Event): string {
    if e.kind.AssistantDelta? then TextAt(e.payload, Delta) else ""
  }

  /** The text behind the last event that empties the draft. */
  function DraftAfter(draft: string, events: seq<Event>): string {
    if events == [] then draft
    else
      var last := events[|events| - 1];
      if Resets(last) then ""
      else
        DraftAfter(draft, events[..|events| - 1]) + TextOf(last)
  }

  // ---------------------------------------------------------------------------------------------
  // Broker and window fold the same way

  lemma LastOff(events: seq<Event>, e: Event)
    ensures (events + [e])[..|events + [e]| - 1] == events && (events + [e])[|events + [e]| - 1] == e
  {
  }

  lemma AfterLast(active: bool, draft: string, front: seq<Event>, last: Event)
    ensures ActiveAfter(active, front + [last])
            == if Decides(last) then last.kind.TurnStarted? else ActiveAfter(active, front)
    ensures DraftAfter(draft, front + [last])
            == if Resets(last) then "" else DraftAfter(draft, front) + TextOf(last)
  {
    LastOff(front, last);
  }

  lemma FoldOne(s: Summary, e: Event)
    ensures Apply(s, e).active == if Decides(e) then e.kind.TurnStarted? else s.active
    ensures Apply(s, e).draft == if Resets(e) then "" else s.draft + TextOf(e)
  {
    hide TextAt;
    assert s.draft + "" == s.draft;
  }

  lemma {:induction false} FoldFrom(a: seq<Event>, b: seq<Event>)
    ensures Fold(a + b).active == ActiveAfter(Fold(a).active, b) && Fold(a + b).draft == DraftAfter(Fold(a).draft, b)
  {
    hide Fold, Apply, TextOf, Decides, Resets;
    if b == [] {
      assert a + b == a;
    } else {
      var front, last := b[..|b| - 1], b[|b| - 1];
      FoldFrom(a, front);
      assert b == front + [last] && a + b == (a + front) + [last];
      FoldAppended(a + front, last);
      FoldOne(Fold(a + front), last);
      AfterLast(Fold(a).active, Fold(a).draft, front, last);
    }
  }

  lemma WindowOne(w: Window, e: Event)
    requires e.conversation == w.conversation
    ensures var after := AfterEvent(w, e);
            && after.conversation == w.conversation
            && after.active == (if Decides(e) then e.kind.TurnStarted? else w.active)
            && after.draft == if Resets(e) then "" else w.draft + TextOf(e)
  {
    hide TextAt, MessageOf;
    assert w.draft + "" == w.draft;
  }

  lemma {:induction false} WindowFrom(w: Window, events: seq<Event>)
    requires forall e | e in events :: e.conversation == w.conversation
    ensures var after := AfterEvents(w, events);
            && after.conversation == w.conversation
            && after.active == ActiveAfter(w.active, events) && after.draft == DraftAfter(w.draft, events)
  {
    hide AfterEvent, TextOf, Decides, Resets;
    if events != [] {
      var front, last := events[..|events| - 1], events[|events| - 1];
      assert last in events && forall e | e in front :: e in events;
      WindowFrom(w, front);
      WindowOne(AfterEvents(w, front), last);
      assert events == front + [last];
      AfterLast(w.active, w.draft, front, last);
    }
  }

  lemma {:induction false} MissedThenDelivered(active: bool, draft: string, missed: seq<Event>, delivered: seq<Event>)
    ensures ActiveAfter(active, missed + delivered) == ActiveAfter(ActiveAfter(active, missed), delivered)
    ensures DraftAfter(draft, missed + delivered) == DraftAfter(DraftAfter(draft, missed), delivered)
  {
    if delivered == [] {
      assert missed + delivered == missed;
    } else {
      var front, last := delivered[..|delivered| - 1], delivered[|delivered| - 1];
      MissedThenDelivered(active, draft, missed, front);
      assert missed + delivered == (missed + front) + [last];
      LastOff(missed + front, last);
    }
  }

  // ---------------------------------------------------------------------------------------------
  // When a wrong start is forgotten

  predicate AnyDecides(events: seq<Event>) {
    exists e | e in events :: Decides(e)
  }

  predicate AnyResets(events: seq<Event>) {
    exists e | e in events :: Resets(e)
  }

  lemma AnyOfLast(front: seq<Event>, last: Event)
    ensures AnyDecides(front + [last]) <==> AnyDecides(front) || Decides(last)
    ensures AnyResets(front + [last]) <==> AnyResets(front) || Resets(last)
  {
    assert last in front + [last] && forall e | e in front :: e in front + [last];
  }

  lemma SameTail(a: string, b: string, t: string)
    ensures a + t == b + t <==> a == b
  {
    if a + t == b + t {
      assert (a + t)[..|a|] == a && (b + t)[..|b|] == b;
    }
  }

  lemma {:induction false} ForgottenIff(x: bool, y: bool, v: string, w: string, events: seq<Event>)
    ensures ActiveAfter(x, events) == ActiveAfter(y, events) <==> x == y || AnyDecides(events)
    ensures DraftAfter(v, events) == DraftAfter(w, events) <==> v == w || AnyResets(events)
  {
    if events != [] {
      var front, last := events[..|events| - 1], events[|events| - 1];
      ForgottenIff(x, y, v, w, front);
      assert events == front + [last];
      AnyOfLast(front, last);
      SameTail(DraftAfter(v, front), DraftAfter(w, front), TextOf(last));
    }
  }

  lemma {:induction false} LongerDraft(draft: string, events: seq<Event>)
    requires !AnyResets(events) && exists e :: e in events && TextOf(e) != ""
    ensures |DraftAfter(draft, events)| > |draft|
  {
    var front, last := events[..|events| - 1], events[|events| - 1];
    assert events == front + [last];
    AnyOfLast(front, last);
    assert last in events && forall e | e in events :: e in front || e == last;
    NotShorter(draft, front);
    if exists e :: e in front && TextOf(e) != "" {
      LongerDraft(draft, front);
    }
  }

  lemma {:induction false} NotShorter(draft: string, events: seq<Event>)
    requires !AnyResets(events)
    ensures |DraftAfter(draft, events)| >= |draft|
  {
    if events != [] {
      var front, last := events[..|events| - 1], events[|events| - 1];
      assert events == front + [last];
      AnyOfLast(front, last);
      NotShorter(draft, front);
    }
  }

  lemma {:induction false} EmptyTextKeeps(draft: string, events: seq<Event>)
    requires !AnyResets(events) && forall e | e in events :: TextOf(e) == ""
    ensures DraftAfter(draft, events) == draft
  {
    if events != [] {
      var front, last := events[..|events| - 1], events[|events| - 1];
      assert events == front + [last];
      AnyOfLast(front, last);
      assert last in events && forall e | e in front :: e in events;
      EmptyTextKeeps(draft, front);
    }
  }

  /** Missed events that empty no draft leave it alone only if they add no text. */
  lemma MissedTextIff(draft: string, missed: seq<Event>)
    requires !AnyResets(missed)
    ensures DraftAfter(draft, missed) == draft
            <==> forall e | e in missed :: TextOf(e) == ""
  {
    if forall e | e in missed :: TextOf(e) == "" {
      EmptyTextKeeps(draft, missed);
    } else {
      LongerDraft(draft, missed);
    }
  }

  // ---------------------------------------------------------------------------------------------
  // In a run

  /** What a bounded log cannot answer any more: behind the cursor, and evicted. */
  function MissedOf(log: seq<Event>, capacity: nat, cursor: nat): seq<Event> {
    var seen, kept := Seen(log, cursor), |log| - |LastN(log, capacity)|;
    if seen < kept then log[seen..kept] else []
  }

  function Missed(s: System): seq<Event> {
    MissedOf(Of(s.history, s.worker.conversation), s.capacity, s.worker.cursor)
  }

  /** The worker asks for events and hands the first `k` of them to the window. */
  function ReadAndDeliver(k: nat): seq<Step> {
    if k == 0 then [ReadEvents] else ReadAndDeliver(k - 1) + [DeliverEvent]
  }

  lemma ReadOnce(s: System)
    requires s.phase.NeedEvents? && Answer(s) != []
    ensures CanRun(s, [ReadEvents]) && Run(s, [ReadEvents]) == Next(s, ReadEvents)
    ensures var t := Next(s, ReadEvents);
            t.phase == Delivering(Answer(s)) && t.history == s.history && t.window == s.window && t.worker == s.worker
  {
    hide Answer, Evicted, Of;
    assert [ReadEvents][1..] == [];
  }

  lemma {:induction false} AfterDelivering(s: System, k: nat)
    requires s.phase.NeedEvents? && k <= |Answer(s)| && Answer(s) != []
    ensures CanRun(s, ReadAndDeliver(k))
    ensures var t := Run(s, ReadAndDeliver(k));
            && t.history == s.history && t.window == AfterEvents(s.window, Answer(s)[..k])
            && t.worker == FollowEvents(s.worker, Answer(s)[..k])
            && (k < |Answer(s)| ==> t.phase == Delivering(Answer(s)[k..]))
  {
    hide CanRun, Run, Answer;
    ReadOnce(s);
    var batch := Answer(s);
    if k == 0 {
      assert batch[..0] == [] && batch[0..] == batch;
    } else {
      AfterDelivering(s, k - 1);
      OneMoreStep(s, ReadAndDeliver(k - 1), DeliverEvent);
      LastOff(batch[..k - 1], batch[k - 1]);
      assert batch[..k] == batch[..k - 1] + [batch[k - 1]] && batch[k - 1..][0] == batch[k - 1];
      assert batch[k - 1..][1..] == batch[k..];
    }
  }

  lemma KeptBehindCursor(log: seq<Event>, d: nat, cursor: nat)
    requires Ascending(log) && d <= |log|
    ensures After(log[d..], cursor) == log[if Seen(log, cursor) < d then d else Seen(log, cursor)..]
  {
    if d == 0 {
      assert log[0..] == log;
      AfterIsSuffix(log, cursor);
    } else if log[d - 1].sequence <= cursor {
      BehindDropped(log, d, cursor);
      SeenBehind(log, d, cursor);
    } else {
      assert Seen(log, cursor) < d;
      assert forall i | d <= i < |log| :: log[i].sequence > log[d - 1].sequence;
      AfterAll(log[d..], cursor);
    }
  }

  lemma KeptBehindMissed(log: seq<Event>, capacity: nat, cursor: nat)
    requires Ascending(log)
    ensures var seen, from := Seen(log, cursor), Seen(log, cursor) + |MissedOf(log, capacity, cursor)|;
            && from <= |log| && MissedOf(log, capacity, cursor) == log[seen..from]
            && After(LastN(log, capacity), cursor) == log[from..]
  {
    hide Seen, After, LastN, Ascending;
    var d := |log| - |LastN(log, capacity)|;
    LastNIsSuffix(log, capacity);
    KeptBehindCursor(log, d, cursor);
  }

  lemma LastNIsSuffix(log: seq<Event>, capacity: nat)
    ensures LastN(log, capacity) == log[|log| - |LastN(log, capacity)|..]
  {
  }

  lemma TakeFrom(log: seq<Event>, from: nat, n: nat)
    requires from <= |log|
    ensures var taken := Take(log[from..], n); from + |taken| <= |log| && taken == log[from..from + |taken|]
  {
  }

  /** The answer is the part of the conversation behind what was missed. */
  lemma AnswerBehindMissed(s: System)
    requires Numbered(s.history)
    ensures var log, seen := Of(s.history, s.worker.conversation), Seen(Of(s.history, s.worker.conversation), s.worker.cursor);
            var from := seen + |Missed(s)|;
            && from + |Answer(s)| <= |log| && Missed(s) == log[seen..from]
            && Answer(s) == log[from..from + |Answer(s)|]
  {
    hide MissedOf, After, LastN, Take, Seen;
    var log := Of(s.history, s.worker.conversation);
    ConversationAscends(s.history, s.worker.conversation);
    KeptBehindMissed(log, s.capacity, s.worker.cursor);
    TakeFrom(log, Seen(log, s.worker.cursor) + |Missed(s)|, DEFAULT_LIMIT);
  }

  /** Delivering `k` events puts the cursor at the last of them. */
  lemma {:induction false} CursorAtLast(w: Worker, events: seq<Event>)
    requires events != [] && Ascending(events) && events[|events| - 1].sequence >= w.cursor
    ensures FollowEvents(w, events).cursor == events[|events| - 1].sequence
  {
    var front, last := events[..|events| - 1], events[|events| - 1];
    CursorAtMost(w, front, last.sequence);
  }

  lemma {:induction false} CursorAtMost(w: Worker, events: seq<Event>, n: nat)
    requires w.cursor <= n && forall i | 0 <= i < |events| :: events[i].sequence <= n
    ensures FollowEvents(w, events).cursor <= n && FollowEvents(w, events).conversation == w.conversation
  {
    if events != [] {
      CursorAtMost(w, events[..|events| - 1], n);
    }
  }

  /** A cursor at the last of the first `n` events of a log has seen exactly these. */
  lemma SeenUpToLast(log: seq<Event>, n: nat)
    requires Ascending(log) && 0 < n <= |log|
    ensures Seen(log, log[n - 1].sequence) == n
  {
    assert forall i | 0 <= i < n :: log[i].sequence <= log[n - 1].sequence;
    SeenIs(log, log[n - 1].sequence, n);
  }

  lemma UpToSeen(history: seq<Event>, conversation: string, n: nat)
    requires Numbered(history) && n <= |history|
    ensures Of(history[..n], conversation)
            == Of(history, conversation)[..Seen(Of(history, conversation), n)]
  {
    hide Of, Seen;
    assert history[..|history|] == history;
    UpToIsSeen(history, conversation, n, |history|);
  }

  lemma ThreeParts(log: seq<Event>, a: nat, b: nat, c: nat)
    requires a <= b <= c <= |log|
    ensures log[..c] == log[..a] + (log[a..b] + log[b..c])
  {
  }

  lemma BatchCursor(w: Worker, log: seq<Event>, from: nat, to: nat)
    requires Ascending(log) && from < to <= |log| && log[to - 1].sequence >= w.cursor
    ensures FollowEvents(w, log[from..to]).cursor == log[to - 1].sequence
  {
    CursorAtLast(w, log[from..to]);
  }

  /** The history up to the new cursor is what was seen before, what was missed, and what was delivered. */
  lemma UpToNewCursor(s: System, k: nat)
    requires Numbered(s.history) && s.worker.cursor <= |s.history| && 0 < k <= |Answer(s)|
    ensures var cursor := FollowEvents(s.worker, Answer(s)[..k]).cursor;
            && cursor <= |s.history|
            && Of(s.history[..cursor], s.worker.conversation)
               == Of(s.history[..s.worker.cursor], s.worker.conversation) + (Missed(s) + Answer(s)[..k])
  {
    hide Answer, Missed, Seen, Of, FollowEvents, Ascending;
    var c := s.worker.conversation;
    var log, seen := Of(s.history, c), Seen(Of(s.history, c), s.worker.cursor);
    var from, to := seen + |Missed(s)|, seen + |Missed(s)| + k;
    NewCursor(s, k);
    AnswerBehindMissed(s);
    ConversationAscends(s.history, c);
    UpToSeen(s.history, c, s.worker.cursor);
    UpToSeen(s.history, c, log[to - 1].sequence);
    SeenUpToLast(log, to);
    ThreeParts(log, seen, from, to);
  }

  lemma NewCursor(s: System, k: nat)
    requires Numbered(s.history) && s.worker.cursor <= |s.history| && 0 < k <= |Answer(s)|
    ensures var log, seen := Of(s.history, s.worker.conversation), Seen(Of(s.history, s.worker.conversation), s.worker.cursor);
            var from, to := seen + |Missed(s)|, seen + |Missed(s)| + k;
            && to <= |log| && Answer(s)[..k] == log[from..to] && log[to - 1].sequence <= |s.history|
            && FollowEvents(s.worker, Answer(s)[..k]).cursor == log[to - 1].sequence
  {
    hide Answer, Missed, Of, Seen, Ascending, FollowEvents;
    var log, seen := Of(s.history, s.worker.conversation), Seen(Of(s.history, s.worker.conversation), s.worker.cursor);
    var from, to := seen + |Missed(s)|, seen + |Missed(s)| + k;
    AnswerBehindMissed(s);
    ConversationAscends(s.history, s.worker.conversation);
    PrefixOfSlice(log, from, |Answer(s)|, k);
    InHistory(s.history, s.worker.conversation, to - 1);
    BehindSeen(log, s.worker.cursor, to - 1);
    BatchCursor(s.worker, log, from, to);
  }

  lemma PrefixOfSlice(log: seq<Event>, from: nat, n: nat, k: nat)
    requires k <= n && from + n <= |log|
    ensures log[from..from + n][..k] == log[from..from + k]
  {
  }

  lemma InHistory(history: seq<Event>, conversation: string, i: nat)
    requires Numbered(history) && i < |Of(history, conversation)|
    ensures Of(history, conversation)[i].sequence <= |history|
  {
    hide Of;
    OfHistory(history, conversation);
    assert Of(history, conversation)[i] in Of(history, conversation);
  }

  lemma BehindSeen(log: seq<Event>, cursor: nat, i: nat)
    requires Ascending(log) && Seen(log, cursor) <= i < |log|
    ensures log[i].sequence > cursor
  {
    assert log[Seen(log, cursor)].sequence <= log[i].sequence;
  }

  /**
   * Wherever the window was right, and whatever was evicted behind the cursor: after `k` events of the next answer
   * the window says rightly whether a turn is active if and only if one of them decides it or the missed events would
   * have left it as it was; and it shows the right draft if and only if one of them empties the draft or the missed
   * events would have left the draft as it was.
   */
  lemma RightAfterMissedIff(s: System, k: nat)
    requires Inv(s) && !s.gap && s.phase.NeedEvents? && s.window.conversation == s.worker.conversation
    requires 0 < k <= |Answer(s)|
    ensures CanRun(s, ReadAndDeliver(k))
    ensures var t := Run(s, ReadAndDeliver(k));
            && t.worker.cursor <= |t.history| && t.window.conversation == s.window.conversation
            && var right := UpTo(t.history, t.window.conversation, t.worker.cursor);
               && (t.window.active == right.active
                   <==> AnyDecides(Answer(s)[..k]) || ActiveAfter(s.window.active, Missed(s)) == s.window.active)
               && (t.window.draft == right.draft
                   <==> AnyResets(Answer(s)[..k]) || DraftAfter(s.window.draft, Missed(s)) == s.window.draft)
  {
    hide CanRun, Run, Answer, Missed;
    var batch := Answer(s)[..k];
    AfterDelivering(s, k);
    UpToNewCursor(s, k);
    forall e | e in batch
      ensures e.conversation == s.window.conversation
    {
      assert e in Answer(s);
      AnswerIsHistory(s, e);
    }
    WindowFrom(s.window, batch);
    FoldFrom(Of(s.history[..s.worker.cursor], s.worker.conversation), Missed(s) + batch);
    MissedThenDelivered(s.window.active, s.window.draft, Missed(s), batch);
    ForgottenIff(
      s.window.active, ActiveAfter(s.window.active, Missed(s)), s.window.draft, DraftAfter(s.window.draft, Missed(s)),
      batch);
  }
}
