/** When a stop request outlives the job that was running as it was made. */
module ConsoleStop {
  import opened Basics
  import opened Console
  import opened ConsoleRuns
  import opened ConsoleResults

  predicate JobGoesOn(steps: seq<Step>) {
    forall i | 0 <= i < |steps| :: !steps[i].WorkerEnds?
  }

  predicate NothingSaved(steps: seq<Step>) {
    forall i | 0 <= i < |steps| :: !steps[i].SaveSettings?
  }

  /**
   * The running job may still begin an execution over the client-side packet queue. A job that has not read the
   * settings may find any mode there.
   */
  predicate QueueAhead(s: State) {
    match s.job.settings
    case None => CanExecute(s.job.kind) && s.settings.transport.LinuxClientQueue?
    case Some(settings) => OverQueue(settings) && s.job.begun < Executions(s.job.kind, settings.constructions)
  }

  // ---------------------------------------------------------------------------------------------
  // Without such an execution the flag stays

  lemma {:induction false} StopStays(s: State, steps: seq<Step>)
    requires Inv(s) && s.job.running && !QueueAhead(s) && CanRun(s, steps) && JobGoesOn(steps)
    ensures var t := Run(s, steps);
            Inv(t) && t.job.running && !QueueAhead(t) && (s.stop ==> t.stop)
    decreases |steps|
  {
    if steps != [] {
      StepKeepsInv(s, steps[0]);
      RunningJobIsUndisturbed(s, steps[0]);
      assert !steps[0].WorkerEnds?;
      assert forall i | 0 <= i < |steps[1..]| :: steps[1..][i] == steps[i + 1];
      StopStays(Next(s, steps[0]), steps[1..]);
    }
  }

  // ---------------------------------------------------------------------------------------------
  // With one it can be lost

  lemma QueueClears(s: State) returns (steps: seq<Step>)
    requires s.workers > 0 && QueueAhead(s) && s.job.settings.Some?
    ensures CanRun(s, steps) && JobGoesOn(steps) && NothingSaved(steps) && !Run(s, steps).stop
  {
    Append(s, [], WorkerBeginsExecution);
    steps := [] + [WorkerBeginsExecution];
  }

  lemma ReadAndClear(s: State) returns (steps: seq<Step>)
    requires s.workers > 0 && s.job.settings.None? && s.job.begun == 0
    requires CanExecute(s.job.kind) && OverQueue(s.settings)
    ensures CanRun(s, steps) && JobGoesOn(steps) && NothingSaved(steps) && !Run(s, steps).stop
  {
    Append(s, [], WorkerReadsSettings);
    steps := [] + [WorkerReadsSettings];
    var rest := QueueClears(Run(s, steps));
    Concat(s, steps, rest);
    steps := steps + rest;
  }

  lemma SaveReadAndClear(s: State) returns (steps: seq<Step>)
    requires s.workers > 0 && s.job.settings.None? && s.job.begun == 0 && QueueAhead(s)
    ensures CanRun(s, steps) && JobGoesOn(steps) && !Run(s, steps).stop
  {
    Append(s, [], SaveSettings(CarrierClick, 1));
    steps := [] + [SaveSettings(CarrierClick, 1)];
    var rest := ReadAndClear(Run(s, steps));
    Concat(s, steps, rest);
    steps := steps + rest;
  }

  lemma StopCanBeLost(s: State) returns (steps: seq<Step>)
    requires Inv(s) && s.job.running && QueueAhead(s)
    ensures CanRun(s, steps) && JobGoesOn(steps) && !Run(s, steps).stop
  {
    if s.job.settings.Some? {
      steps := QueueClears(s);
    } else {
      steps := SaveReadAndClear(s);
    }
  }

  // ---------------------------------------------------------------------------------------------
  // Exactly when

  /** A stop that is set now stays set until the job ends, in every schedule. */
  ghost predicate StopIsKept(s: State) {
    forall steps: seq<Step> | CanRun(s, steps) && JobGoesOn(steps) :: Run(s, steps).stop
  }

  lemma StopStaysFromHereIff(s: State)
    requires Inv(s) && s.job.running && s.stop
    ensures StopIsKept(s) <==> !QueueAhead(s)
  {
    if QueueAhead(s) {
      var steps := StopCanBeLost(s);
      assert CanRun(s, steps) && JobGoesOn(steps) && !Run(s, steps).stop;
    } else {
      forall steps: seq<Step> | CanRun(s, steps) && JobGoesOn(steps) ensures Run(s, steps).stop {
        StopStays(s, steps);
      }
    }
  }

  function Requested(before: seq<Step>, after: seq<Step>): seq<Step> {
    before + ([RequestStop] + after)
  }

  /** If a stop is requested after the steps `before` and the job still runs after `after`, the flag is set. */
  ghost predicate Survives(s: State, before: seq<Step>, after: seq<Step>) {
    CanRun(s, Requested(before, after)) && JobGoesOn(Requested(before, after)) ==> Run(s, Requested(before, after)).stop
  }

  lemma {:induction false} Split(s: State, first: seq<Step>, second: seq<Step>)
    requires CanRun(s, first + second)
    ensures CanRun(s, first) && CanRun(Run(s, first), second)
    ensures Run(s, first + second) == Run(Run(s, first), second)
    decreases |first|
  {
    var all := first + second;
    if first == [] {
      assert all == second;
    } else {
      assert all[0] == first[0] && all[1..] == first[1..] + second;
      Split(Next(s, first[0]), first[1..], second);
    }
  }

  lemma GoesOnParts(first: seq<Step>, second: seq<Step>)
    ensures JobGoesOn(first + second) <==> JobGoesOn(first) && JobGoesOn(second)
    ensures NothingSaved(first + second) <==> NothingSaved(first) && NothingSaved(second)
  {
    var all := first + second;
    assert forall i | 0 <= i < |first| :: all[i] == first[i];
    assert forall i | 0 <= i < |second| :: all[|first| + i] == second[i];
  }

  /** The flag is set at the request, and nothing ahead of it can remove it. */
  lemma RequestStays(s: State, before: seq<Step>, after: seq<Step>)
    requires Inv(s) && s.job.running && !QueueAhead(s)
    requires CanRun(s, Requested(before, after)) && JobGoesOn(Requested(before, after))
    ensures Run(s, Requested(before, after)).stop
  {
    var middle := AtRequest(s, before, after);
    StopStays(s, before);
    StepKeepsInv(middle, RequestStop);
    StopStays(Next(middle, RequestStop), after);
  }

  lemma AtRequest(s: State, before: seq<Step>, after: seq<Step>) returns (middle: State)
    requires CanRun(s, Requested(before, after))
    ensures CanRun(s, before) && middle == Run(s, before)
    ensures CanRun(Next(middle, RequestStop), after)
    ensures Run(s, Requested(before, after)) == Run(Next(middle, RequestStop), after)
    ensures JobGoesOn(Requested(before, after)) <==> JobGoesOn(before) && JobGoesOn(after)
    ensures NothingSaved(Requested(before, after)) <==> NothingSaved(before) && NothingSaved(after)
  {
    Split(s, before, [RequestStop] + after);
    middle := Run(s, before);
    Split(middle, [RequestStop], after);
    assert Run(middle, [RequestStop]) == Next(middle, RequestStop);
    GoesOnParts(before, [RequestStop] + after);
    GoesOnParts([RequestStop], after);
  }

  lemma LostAtOnce(s: State, after: seq<Step>)
    requires CanRun(Next(s, RequestStop), after) && JobGoesOn(after) && !Run(Next(s, RequestStop), after).stop
    ensures !Survives(s, [], after)
    ensures Requested([], after) == [RequestStop] + after
  {
    assert CanRun(s, [RequestStop]) && Run(s, [RequestStop]) == Next(s, RequestStop);
    Concat(s, [RequestStop], after);
    GoesOnParts([RequestStop], after);
    assert Requested([], after) == [RequestStop] + after;
  }

  /**
   * For a job that has just been started: every stop requested while it runs survives every schedule until it ends,
   * if and only if its kind cannot execute or the configured transport is not the client-side packet queue. The
   * execution mode does not help: it may be saved before the worker reads it.
   */
  lemma StopStaysIff(s: State, previous: Job, order: Order, home: string)
    requires Inv(s) && s.job == Started(previous, order, home)
    ensures (forall before: seq<Step>, after: seq<Step> :: Survives(s, before, after))
            <==> !(CanExecute(order.kind) && s.settings.transport.LinuxClientQueue?)
  {
    if QueueAhead(s) {
      StepKeepsInv(s, RequestStop);
      var after := StopCanBeLost(Next(s, RequestStop));
      LostAtOnce(s, after);
    } else {
      forall before: seq<Step>, after: seq<Step> ensures Survives(s, before, after) {
        if CanRun(s, Requested(before, after)) && JobGoesOn(Requested(before, after)) {
          RequestStays(s, before, after);
        }
      }
    }
  }

  // ---------------------------------------------------------------------------------------------
  // If the settings are left alone

  /** The worker reads the settings that hold already. */
  predicate QueueInForce(s: State) {
    match s.job.settings
    case None => CanExecute(s.job.kind) && OverQueue(s.settings)
    case Some(settings) => QueueAhead(s)
  }

  lemma {:induction false} StopStaysUnsaved(s: State, steps: seq<Step>)
    requires Inv(s) && s.job.running && !QueueInForce(s) && CanRun(s, steps) && JobGoesOn(steps) && NothingSaved(steps)
    ensures var t := Run(s, steps);
            Inv(t) && t.job.running && !QueueInForce(t) && (s.stop ==> t.stop)
    decreases |steps|
  {
    if steps != [] {
      StepKeepsInv(s, steps[0]);
      RunningJobIsUndisturbed(s, steps[0]);
      assert !steps[0].WorkerEnds? && !steps[0].SaveSettings?;
      assert forall i | 0 <= i < |steps[1..]| :: steps[1..][i] == steps[i + 1];
      StopStaysUnsaved(Next(s, steps[0]), steps[1..]);
    }
  }

  lemma RequestStaysUnsaved(s: State, before: seq<Step>, after: seq<Step>)
    requires Inv(s) && s.job.running && !QueueInForce(s)
    requires CanRun(s, Requested(before, after)) && JobGoesOn(Requested(before, after))
    requires NothingSaved(Requested(before, after))
    ensures Run(s, Requested(before, after)).stop
  {
    var middle := AtRequest(s, before, after);
    StopStaysUnsaved(s, before);
    StepKeepsInv(middle, RequestStop);
    StopStaysUnsaved(Next(middle, RequestStop), after);
  }

  /** The same while nobody saves settings: then the execution mode decides as well. */
  lemma StopStaysUnsavedIff(s: State, previous: Job, order: Order, home: string)
    requires Inv(s) && s.job == Started(previous, order, home)
    ensures (forall before: seq<Step>, after: seq<Step> ::
               NothingSaved(Requested(before, after)) ==> Survives(s, before, after))
            <==> !(CanExecute(order.kind) && OverQueue(s.settings))
  {
    if QueueInForce(s) {
      var after := ReadAndClear(Next(s, RequestStop));
      LostAtOnce(s, after);
      GoesOnParts([RequestStop], after);
      assert NothingSaved(Requested([], after));
    } else {
      forall before: seq<Step>, after: seq<Step> | NothingSaved(Requested(before, after))
        ensures Survives(s, before, after)
      {
        if CanRun(s, Requested(before, after)) && JobGoesOn(Requested(before, after)) {
          RequestStaysUnsaved(s, before, after);
        }
      }
    }
  }

  // ---------------------------------------------------------------------------------------------
  // How often

  /** A stop is requested and an execution begins, `n` times over. */
  function Rounds(n: nat): seq<Step> {
    if n == 0 then [] else [RequestStop, WorkerBeginsExecution] + Rounds(n - 1)
  }

  /** Every execution of one job over the queue removes the flag again, whatever was requested between them. */
  lemma {:induction false} EveryExecutionClears(s: State, n: nat)
    requires s.workers > 0 && s.job.settings.Some? && OverQueue(s.job.settings.value)
    requires s.job.begun + n <= Executions(s.job.kind, s.job.settings.value.constructions)
    ensures CanRun(s, Rounds(n)) && JobGoesOn(Rounds(n))
    ensures n > 0 || !s.stop ==> !Run(s, Rounds(n)).stop
    ensures Run(s, Rounds(n)).job == s.job.(begun := s.job.begun + n)
    decreases n
  {
    hide Run, CanRun, Executions, OverQueue;
    if n == 0 {
      NothingYet(s);
    } else {
      var round := [RequestStop, WorkerBeginsExecution];
      OneRound(s);
      EveryExecutionClears(Run(s, round), n - 1);
      Concat(s, round, Rounds(n - 1));
      GoesOnParts(round, Rounds(n - 1));
    }
  }

  lemma OneRound(s: State)
    requires s.workers > 0 && s.job.settings.Some? && OverQueue(s.job.settings.value)
    requires s.job.begun < Executions(s.job.kind, s.job.settings.value.constructions)
    ensures CanRun(s, [RequestStop, WorkerBeginsExecution])
    ensures var t := Run(s, [RequestStop, WorkerBeginsExecution]);
            !t.stop && t.job == s.job.(begun := s.job.begun + 1) && t.workers == s.workers
  {
    hide Run, CanRun, Executions;
    NothingYet(s);
    Append(s, [], RequestStop);
    assert [] + [RequestStop] == [RequestStop];
    Append(s, [RequestStop], WorkerBeginsExecution);
    assert [RequestStop] + [WorkerBeginsExecution] == [RequestStop, WorkerBeginsExecution];
  }

  function Begins(steps: seq<Step>): nat {
    if steps == [] then 0 else (if steps[0].WorkerBeginsExecution? then 1 else 0) + Begins(steps[1..])
  }

  /** Not more often than that: no schedule of one job begins more executions than its settings allow. */
  lemma {:induction false} ExecutionsAreBounded(s: State, steps: seq<Step>)
    requires Inv(s) && s.job.running && s.job.settings.Some? && CanRun(s, steps) && JobGoesOn(steps)
    requires s.job.begun <= Executions(s.job.kind, s.job.settings.value.constructions)
    ensures s.job.begun + Begins(steps) <= Executions(s.job.kind, s.job.settings.value.constructions)
    decreases |steps|
  {
    if steps != [] {
      StepKeepsInv(s, steps[0]);
      RunningJobIsUndisturbed(s, steps[0]);
      assert !steps[0].WorkerEnds?;
      assert forall i | 0 <= i < |steps[1..]| :: steps[1..][i] == steps[i + 1];
      ExecutionsAreBounded(Next(s, steps[0]), steps[1..]);
    }
  }

  /** One chat turn, two executions: a stop requested after the first has begun is removed by the second. */
  lemma StopLostTwice() returns (steps: seq<Step>)
    ensures var start := Start("a", SuiteIdle, false, Settings(CarrierClick, LinuxClientQueue, 3));
            && CanRun(start, steps) && CanRun(start, steps + Rounds(2)) && Run(start, steps).job.begun == 0
            && Run(start, steps + Rounds(2)).job.running && !Run(start, steps + Rounds(2)).stop
  {
    var start := Start("a", SuiteIdle, false, Settings(CarrierClick, LinuxClientQueue, 3));
    steps := [];
    Append(start, steps, Call(1, StartWaiting(Chat(Economy), None, None)));
    steps := steps + [Call(1, StartWaiting(Chat(Economy), None, None))];
    var chat := ChatStarts(Run(start, steps), 1, None);
    Concat(start, steps, chat);
    steps := steps + chat;
    Append(start, steps, WorkerReadsSettings);
    steps := steps + [WorkerReadsSettings];
    EveryExecutionClears(Run(start, steps), 2);
    Concat(start, steps, Rounds(2));
  }

  // ---------------------------------------------------------------------------------------------
  // Who may execute

  /** Chats and reviews of the economy agent and autonomous turns may execute; a stored run at most once. */
  lemma ExecutionsOf(kind: Kind, constructions: int)
    ensures var turn := if constructions < 1 then 1 else if constructions > 5 then 5 else constructions;
            Executions(kind, constructions)
            == match kind
               case Chat(Economy) => turn
               case Review(Economy, Executes) => turn
               case Autonomous(Executes) => turn
               case Execute(false) => 1
               case _ => 0
  {
  }

  /** The request to clear the flag works exactly between jobs. */
  lemma ClearStopIff(s: State)
    requires s.stop
    ensures Enabled(s, ClearStop)
    ensures !Next(s, ClearStop).stop <==> !s.job.running
    ensures Next(s, ClearStop) == s.(stop := s.job.running)
  {
  }
}
