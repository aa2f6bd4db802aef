/** What the overlay shows compared with what the broker knows. */
module OverlayResults {
  import opened VisibleReply
  import opened Overlay
  import opened OverlayRuns

  /**
   * At every point of every run the window shows the summary of its conversation's events up to the worker's
   * cursor, unless the last answer missed an evicted event, and the transcript shows no identified message twice.
   */
  lemma WindowShowsFold(capacity: nat, active: string, steps: seq<Step>)
    requires CanRun(Start(capacity, active), steps)
    ensures var s := Run(Start(capacity, active), steps);
            && s.worker.cursor <= |s.history|
            && (!s.gap ==> Shows(s.window, UpTo(s.history, s.window.conversation, s.worker.cursor)))
            && NoRepeats(s.window)
  {
    StartHolds(capacity, active);
    RunKeepsInv(Start(capacity, active), steps);
  }

  /** A client that has seen all events of its conversation shows exactly the broker's summary. */
  lemma CaughtUpShowsSnapshot(capacity: nat, active: string, steps: seq<Step>)
    requires CanRun(Start(capacity, active), steps)
    requires var s := Run(Start(capacity, active), steps);
             !s.gap && forall e | e in Of(s.history, s.window.conversation) :: e.sequence <= s.worker.cursor
    ensures var s := Run(Start(capacity, active), steps);
            Shows(s.window, SnapshotOf(s.history, s.window.conversation))
  {
    WindowShowsFold(capacity, active, steps);
    var s := Run(Start(capacity, active), steps);
    StartHolds(capacity, active);
    RunKeepsInv(Start(capacity, active), steps);
    var log := Of(s.history, s.window.conversation);
    assert s.history[..|s.history|] == s.history;
    assert log != [] ==> log[|log| - 1] in log;
    NothingBehindLatest(s.history, s.window.conversation, s.worker.cursor, |s.history|);
    SnapshotLatest(s.history, s.window.conversation);
  }

  /** A bootstrap restores the shown state whatever was missed before it. */
  lemma BootstrapRestores(capacity: nat, active: string, steps: seq<Step>)
    requires CanRun(Start(capacity, active), steps) && Run(Start(capacity, active), steps).phase.Bootstrapping?
    ensures var s := Run(Start(capacity, active), steps);
            var t := Next(s, UseBootstrap);
            && !t.gap && t.window.conversation == s.phase.answer.conversation
            && t.worker.cursor <= |t.history|
            && Shows(t.window, UpTo(t.history, t.window.conversation, t.worker.cursor))
            && Shows(t.window, s.phase.answer.stream)
  {
    StartHolds(capacity, active);
    RunKeepsInv(Start(capacity, active), steps);
    var s := Run(Start(capacity, active), steps);
    UseBootstrapKeepsInv(s);
    BootstrappedWindow(s.window, s.phase.answer);
  }

  // ---------------------------------------------------------------------------------------------
  // Why the eviction condition is needed

  lemma {:induction false} OneMoreStep(s: System, steps: seq<Step>, step: Step)
    requires CanRun(s, steps) && Enabled(Run(s, steps), step)
    ensures CanRun(s, steps + [step]) && Run(s, steps + [step]) == Next(Run(s, steps), step)
    decreases |steps|
  {
    var more := steps + [step];
    if steps == [] {
      assert more[1..] == [];
    } else {
      assert more[0] == steps[0] && more[1..] == steps[1..] + [step];
      OneMoreStep(Next(s, steps[0]), steps[1..], step);
    }
  }

  const TEXT: Payload := map[Delta := Text("x")]

  /** The history of one turn: its start, then `n` pieces of text. */
  function Turn(n: nat): (h: seq<Event>)
    ensures |h| == n + 1 && Numbered(h)
    ensures forall i | 0 <= i <= n :: h[i].conversation == "c" && (h[i].kind == if i == 0 then TurnStarted else AssistantDelta)
  {
    seq(n + 1, i requires 0 <= i => Event(i + 1, "c", if i == 0 then TurnStarted else AssistantDelta, TEXT))
  }

  function Waiting(n: nat): System {
    System(
      Turn(n), 64, "c", Worker("c", 0), Window("c", false, "", {}, []), NeedEvents, false)
  }

  lemma {:induction false} TurnWhileWaiting(n: nat) returns (steps: seq<Step>)
    ensures CanRun(Start(64, "c"), steps) && Run(Start(64, "c"), steps) == Waiting(n)
  {
    var start := Start(64, "c");
    if n == 0 {
      var s1 := Next(start, ReadBootstrap([]));
      var s2 := Next(s1, UseBootstrap);
      steps := [];
      OneMoreStep(start, steps, ReadBootstrap([]));
      steps := steps + [ReadBootstrap([])];
      OneMoreStep(start, steps, UseBootstrap);
      steps := steps + [UseBootstrap];
      assert s2 == System([], 64, "c", Worker("c", 0), Window("c", false, "", {}, []), NeedEvents, false);
      OneMoreStep(start, steps, Publish("c", TurnStarted, TEXT));
      steps := steps + [Publish("c", TurnStarted, TEXT)];
      assert [] + [Event(1, "c", TurnStarted, TEXT)] == Turn(0);
    } else {
      steps := TurnWhileWaiting(n - 1);
      OneMoreStep(start, steps, Publish("c", AssistantDelta, TEXT));
      steps := steps + [Publish("c", AssistantDelta, TEXT)];
      assert Turn(n - 1) + [Event(n + 1, "c", AssistantDelta, TEXT)] == Turn(n);
    }
  }

  lemma {:induction false} AllOfOne(history: seq<Event>, c: string)
    requires forall i | 0 <= i < |history| :: history[i].conversation == c
    ensures Of(history, c) == history
  {
    if history != [] {
      AllOfOne(history[..|history| - 1], c);
      assert history == history[..|history| - 1] + [history[|history| - 1]];
    }
  }

  lemma AnswerWithoutStart()
    ensures Evicted(Of(Turn(64), "c"), 64, 0) && Answer(Waiting(64)) == Turn(64)[1..]
  {
    AllOfOne(Turn(64), "c");
    var kept := LastN(Turn(64), 64);
    assert kept == Turn(64)[1..];
    AfterAll(kept, 0);
  }

  lemma FirstTwo(h: seq<Event>)
    requires |h| == 2 && h[0].kind == TurnStarted && h[1].kind == AssistantDelta
    requires h[0].conversation == h[1].conversation == "c"
    ensures Fold(Of(h, "c")).active
  {
    AllOfOne(h, "c");
    FoldOfTwo(h);
  }

  lemma FoldOfTwo(h: seq<Event>)
    requires |h| == 2
    ensures Fold(h) == Apply(Apply(START, h[0]), h[1])
  {
    assert h[..1][..0] == [];
    assert Fold(h[..1]) == Apply(START, h[0]);
  }

  lemma ReadWhileWaiting()
    ensures Enabled(Waiting(64), ReadEvents)
    ensures Next(Waiting(64), ReadEvents) == Waiting(64).(phase := Delivering(Turn(64)[1..]), gap := true)
  {
    AnswerWithoutStart();
  }

  /** One piece of text delivered to a window that knows of no turn. */
  lemma DeliverOne(s: System)
    requires s.phase.Delivering? && |s.phase.batch| > 1 && s.phase.batch[0].kind == AssistantDelta
    requires s.phase.batch[0].conversation == s.window.conversation && !s.window.active
    ensures Enabled(s, DeliverEvent)
    ensures var t := Next(s, DeliverEvent);
            && t.gap == s.gap && t.history == s.history
            && t.worker.cursor == Max(s.worker.cursor, s.phase.batch[0].sequence)
            && t.window.conversation == s.window.conversation && !t.window.active
  {
  }

  lemma AfterFirstDelivery()
    ensures Enabled(Waiting(64), ReadEvents)
    ensures Enabled(Next(Waiting(64), ReadEvents), DeliverEvent)
    ensures var s := Next(Next(Waiting(64), ReadEvents), DeliverEvent);
            && s.gap && s.history == Turn(64) && s.worker.cursor == 2
            && s.window.conversation == "c" && !s.window.active
  {
    ReadWhileWaiting();
    DeliverOne(Next(Waiting(64), ReadEvents));
  }

  /** There is a run in which the start of a turn is evicted and the window does not show the turn as active. */
  lemma EvictionLosesState() returns (steps: seq<Step>)
    ensures CanRun(Start(64, "c"), steps)
    ensures var s := Run(Start(64, "c"), steps);
            && s.gap && s.worker.cursor <= |s.history|
            && !Shows(s.window, UpTo(s.history, s.window.conversation, s.worker.cursor))
  {
    var start := Start(64, "c");
    steps := TurnWhileWaiting(64);
    AfterFirstDelivery();
    OneMoreStep(start, steps, ReadEvents);
    steps := steps + [ReadEvents];
    OneMoreStep(start, steps, DeliverEvent);
    steps := steps + [DeliverEvent];
    var h := Turn(64);
    FirstTwo(h[..2]);
  }
}
