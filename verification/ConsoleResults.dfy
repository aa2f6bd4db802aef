/** What holds over all schedules of the console, and the two places where a stronger claim fails. */
module ConsoleResults {
  import opened Basics
  import opened Console
  import opened ConsoleRuns

  // ---------------------------------------------------------------------------------------------
  // One job, one conversation

  /** At most one job runs, and the active conversation is the one under which the running job was recorded. */
  lemma OneJobOneConversation(active: string, phase: SuitePhase, stop: bool, settings: Settings, steps: seq<Step>)
    requires CanRun(Start(active, phase, stop, settings), steps)
    ensures var s := Run(Start(active, phase, stop, settings), steps);
            && s.workers <= 1 && (s.workers == 1 <==> s.job.running)
            && (s.job.running ==> s.active == s.job.home)
            && (s.job.running && s.job.kind != Continuation ==> s.job.conversation == s.active)
  {
    StartHolds(active, phase, stop, settings);
    RunKeepsInv(Start(active, phase, stop, settings), steps);
  }

  /** The same step by step: while a job runs no step changes the conversation or replaces the job. */
  lemma RunningJobIsUndisturbed(s: State, step: Step)
    requires Inv(s) && Enabled(s, step) && s.job.running
    ensures var t := Next(s, step);
            && t.active == s.active
            && (t.job == s.job || (step.WorkerEnds? && t.job == s.job.(running := false))
                || (step.WorkerReadsSettings? && t.job == s.job.(settings := Some(s.settings)))
                || (step.WorkerBeginsExecution? && t.job == s.job.(begun := s.job.begun + 1)))
  {
    if step.Advance? {
      assert ThreadOk(PcOf(s, step.t), s.holder == Some(step.t), s.job.running, s.active);
    }
  }

  /** Two threads are never in the conversation lock together. */
  lemma LockExcludes(active: string, phase: SuitePhase, stop: bool, settings: Settings, steps: seq<Step>, t: nat, u: nat)
    requires CanRun(Start(active, phase, stop, settings), steps)
    requires var s := Run(Start(active, phase, stop, settings), steps); Holds(PcOf(s, t)) && Holds(PcOf(s, u))
    ensures t == u
  {
    StartHolds(active, phase, stop, settings);
    RunKeepsInv(Start(active, phase, stop, settings), steps);
    var s := Run(Start(active, phase, stop, settings), steps);
    assert ThreadOk(PcOf(s, t), s.holder == Some(t), s.job.running, s.active);
    assert ThreadOk(PcOf(s, u), s.holder == Some(u), s.job.running, s.active);
  }

  // ---------------------------------------------------------------------------------------------
  // Jobs and the live suite

  /** No job runs, and none is about to start, while the suite is live. */
  ghost predicate Exclusive(s: State) {
    && (s.job.running ==> !Live(s.phase))
    && (forall t: nat :: PcOf(s, t).StartChecked? ==> !Live(s.phase))
  }

  /** An action's result is written back although its suite is no longer live, beside a job. */
  ghost predicate StrayWriteBack(s: State, step: Step) {
    && step.EndExecution? && !step.reportLost && !Live(s.phase)
    && (s.job.running || exists t: nat :: PcOf(s, t).StartChecked?)
  }

  /** The exclusion is lost by one kind of step only. */
  lemma ExclusionIff(s: State, step: Step)
    requires Inv(s) && Exclusive(s) && Enabled(s, step)
    ensures Exclusive(Next(s, step)) <==> !StrayWriteBack(s, step)
  {
    var next := Next(s, step);
    if StrayWriteBack(s, step) {
      if !s.job.running {
        var t: nat :| PcOf(s, t).StartChecked?;
        assert PcOf(next, t).StartChecked?;
      }
    } else {
      forall u: nat | PcOf(next, u).StartChecked? ensures !Live(next.phase) {
        ExclusionKept(s, step, u);
      }
      if next.job.running {
        ExclusionOfJob(s, step);
      }
    }
  }

  lemma ExclusionKept(s: State, step: Step, u: nat)
    requires Inv(s) && Exclusive(s) && Enabled(s, step) && !StrayWriteBack(s, step)
    requires PcOf(Next(s, step), u).StartChecked?
    ensures !Live(Next(s, step).phase)
  {
    hide JobOk;
    if step.Advance? {
      ExclusionKeptByAdvance(s, step.t, u);
    } else {
      assert ThreadOk(PcOf(s, u), s.holder == Some(u), s.job.running, s.active);
      assert PcOf(s, u).StartChecked?;
    }
  }

  lemma ExclusionKeptByAdvance(s: State, t: nat, u: nat)
    requires Inv(s) && Exclusive(s) && Enabled(s, Advance(t)) && PcOf(Advanced(s, t), u).StartChecked?
    ensures !Live(Advanced(s, t).phase)
  {
    hide Live, JobOk;
    assert ThreadOk(PcOf(s, u), s.holder == Some(u), s.job.running, s.active);
    assert ThreadOk(PcOf(s, t), s.holder == Some(t), s.job.running, s.active);
  }

  lemma ExclusionOfJob(s: State, step: Step)
    requires Inv(s) && Exclusive(s) && Enabled(s, step) && !StrayWriteBack(s, step)
    requires Next(s, step).job.running
    ensures !Live(Next(s, step).phase)
  {
    if step.Advance? {
      assert ThreadOk(PcOf(s, step.t), s.holder == Some(step.t), s.job.running, s.active);
    }
  }

  /** The suite is not ended while an action is in flight. */
  predicate Patient(s: State, step: Step) {
    step == OperateSuite(Finish) || (step.OperateSuite? && step.op.Reset?) ==>
      forall t | t in s.threads :: !s.threads[t].InExecute?
  }

  predicate AllPatient(s: State, steps: seq<Step>)
    requires CanRun(s, steps)
    decreases |steps|
  {
    steps == [] || (Patient(s, steps[0]) && AllPatient(Next(s, steps[0]), steps[1..]))
  }

  /** An action in flight belongs to a suite that is still executing it. */
  ghost predicate InFlightIsLive(s: State) {
    && (forall t: nat :: PcOf(s, t).InExecute? ==> s.phase.ExecutingAction?)
    && (forall t: nat, u: nat :: PcOf(s, t).InExecute? && PcOf(s, u).InExecute? ==> t == u)
  }

  lemma PatienceKeepsInFlight(s: State, step: Step)
    requires Inv(s) && Exclusive(s) && InFlightIsLive(s) && Enabled(s, step) && Patient(s, step)
    ensures InFlightIsLive(Next(s, step))
  {
    hide Inv, Exclusive, Patient, Enabled, Next;
    var next := Next(s, step);
    forall u: nat | PcOf(next, u).InExecute? ensures next.phase.ExecutingAction? {
      StillExecuting(s, step, u);
    }
    forall t: nat, u: nat | PcOf(next, t).InExecute? && PcOf(next, u).InExecute? ensures t == u {
      InExecuteBefore(s, step, t);
      InExecuteBefore(s, step, u);
    }
  }

  /** Whoever is in an action was there before, or has just begun it, and nobody else was. */
  lemma InExecuteBefore(s: State, step: Step, u: nat)
    requires Inv(s) && InFlightIsLive(s) && Enabled(s, step) && PcOf(Next(s, step), u).InExecute?
    ensures if step.BeginExecution? then step == BeginExecution(u) else PcOf(s, u).InExecute?
  {
    if step.BeginExecution? {
      assert u != step.t ==> PcOf(s, u).InExecute?;
    } else if step.Advance? {
      assert ThreadOk(PcOf(s, step.t), s.holder == Some(step.t), s.job.running, s.active);
    }
  }

  lemma StillExecuting(s: State, step: Step, u: nat)
    requires Inv(s) && Exclusive(s) && InFlightIsLive(s) && Enabled(s, step) && Patient(s, step)
    requires PcOf(Next(s, step), u).InExecute?
    ensures Next(s, step).phase.ExecutingAction?
  {
    InExecuteBefore(s, step, u);
    if step.Advance? {
      assert ThreadOk(PcOf(s, step.t), s.holder == Some(step.t), s.job.running, s.active);
    }
  }

  /** If nobody ends the suite while an action is in flight, no job ever overlaps the live suite. */
  lemma {:induction false} PatientRunsAreExclusive(s: State, steps: seq<Step>)
    requires Inv(s) && Exclusive(s) && InFlightIsLive(s) && CanRun(s, steps) && AllPatient(s, steps)
    ensures Exclusive(Run(s, steps)) && InFlightIsLive(Run(s, steps))
    decreases |steps|
  {
    if steps != [] {
      StepKeepsInv(s, steps[0]);
      ExclusionIff(s, steps[0]);
      PatienceKeepsInFlight(s, steps[0]);
      PatientRunsAreExclusive(Next(s, steps[0]), steps[1..]);
    }
  }

  lemma NoJobBesideLiveSuite(active: string, phase: SuitePhase, stop: bool, settings: Settings, steps: seq<Step>)
    requires CanRun(Start(active, phase, stop, settings), steps) && AllPatient(Start(active, phase, stop, settings), steps)
    ensures var s := Run(Start(active, phase, stop, settings), steps); !(s.job.running && Live(s.phase))
  {
    StartHolds(active, phase, stop, settings);
    PatientRunsAreExclusive(Start(active, phase, stop, settings), steps);
  }

  // ---------------------------------------------------------------------------------------------
  // Running concrete schedules

  lemma {:induction false} Append(s: State, steps: seq<Step>, step: Step)
    requires CanRun(s, steps) && Enabled(Run(s, steps), step)
    ensures CanRun(s, steps + [step]) && Run(s, steps + [step]) == Next(Run(s, steps), step)
    decreases |steps|
  {
    var more := steps + [step];
    if steps == [] {
      assert more[1..] == [];
    } else {
      assert more[0] == steps[0] && more[1..] == steps[1..] + [step];
      Append(Next(s, steps[0]), steps[1..], step);
    }
  }

  lemma {:induction false} Concat(s: State, first: seq<Step>, second: seq<Step>)
    requires CanRun(s, first) && CanRun(Run(s, first), second)
    ensures CanRun(s, first + second) && Run(s, first + second) == Run(Run(s, first), second)
    decreases |first|
  {
    var all := first + second;
    if first == [] {
      assert all == second;
    } else {
      assert all[0] == first[0] && all[1..] == first[1..] + second;
      Concat(Next(s, first[0]), first[1..], second);
    }
  }

  lemma NothingYet(s: State)
    ensures CanRun(s, []) && Run(s, []) == s
  {
  }

  /** A request thread starts a chat while nothing else happens. */
  lemma ChatStarts(s: State, t: nat, asked: Option<string>) returns (steps: seq<Step>)
    requires s.holder.None? && !s.job.running && !Live(s.phase)
    requires PcOf(s, t) == StartWaiting(Chat(Economy), None, asked)
    ensures CanRun(s, steps)
    ensures var r := Run(s, steps);
            && r.job == Started(s.job, Order(Chat(Economy), s.active, asked), s.active) && r.workers == s.workers + 1
            && r.phase == s.phase && r.stop == s.stop && r.active == s.active && r.settings == s.settings
            && (forall u: nat | u != t :: PcOf(r, u) == PcOf(s, u))
  {
    hide Run, CanRun, SuiteStep, Executions;
    NothingYet(s);
    steps := [];
    Append(s, steps, Acquire(t));
    steps := steps + [Acquire(t)];
    Append(s, steps, Advance(t));
    steps := steps + [Advance(t)];
    Append(s, steps, Advance(t));
    steps := steps + [Advance(t)];
  }

  /** A request thread starts the live suite while nothing else happens. */
  lemma LiveStarts(s: State, t: nat) returns (steps: seq<Step>)
    requires s.holder.None? && !s.job.running && !Live(s.phase) && PcOf(s, t).Idle?
    ensures CanRun(s, steps)
    ensures var r := Run(s, steps);
            && r.phase.WaitingForRoom? && r.holder.None? && r.job == s.job
            && PcOf(r, t).Idle? && forall u: nat | u != t :: PcOf(r, u) == PcOf(s, u)
  {
    hide Run, CanRun, Started, Executions;
    NothingYet(s);
    steps := [];
    Append(s, steps, Call(t, LiveWaiting));
    steps := steps + [Call(t, LiveWaiting)];
    Append(s, steps, Acquire(t));
    steps := steps + [Acquire(t)];
    Append(s, steps, Advance(t));
    steps := steps + [Advance(t)];
    Append(s, steps, Advance(t));
    steps := steps + [Advance(t)];
    Append(s, steps, Release(t));
    steps := steps + [Release(t)];
  }

  /** A suite is finished while its action is in flight; the result comes back after a job has started. */
  lemma JobBesideLiveSuite(settings: Settings) returns (steps: seq<Step>)
    ensures CanRun(Start("a", OfflinePassed, false, settings), steps)
    ensures var s := Run(Start("a", OfflinePassed, false, settings), steps); s.job.running && Live(s.phase)
  {
    hide Run, CanRun, Next, Enabled;
    var start := Start("a", OfflinePassed, false, settings);
    var live := LiveStarts(start, 1);
    var rest := FinishedInFlight(Run(start, live));
    Concat(start, live, rest);
    steps := live + rest;
  }

  lemma FinishedInFlight(s: State) returns (steps: seq<Step>)
    requires s.holder.None? && !s.job.running && s.phase.WaitingForRoom? && PcOf(s, 1).Idle? && PcOf(s, 2).Idle?
    ensures CanRun(s, steps)
    ensures Run(s, steps).job.running && Live(Run(s, steps).phase)
  {
    hide Run, CanRun, Next, Enabled;
    var first := EndedInFlight(s);
    var middle := Run(s, first);
    var chat := ChatStarts(middle, 2, None);
    Concat(s, first, chat);
    var late := Run(middle, chat);
    LateResult(late);
    Append(s, first + chat, EndExecution(1, false));
    steps := first + chat + [EndExecution(1, false)];
  }

  /** The room is confirmed, an action begins, and the suite is finished. */
  lemma EndedInFlight(s: State) returns (steps: seq<Step>)
    requires s.holder.None? && !s.job.running && s.phase.WaitingForRoom? && PcOf(s, 1).Idle? && PcOf(s, 2).Idle?
    ensures CanRun(s, steps)
    ensures var r := Run(s, steps);
            && r.holder.None? && !r.job.running && r.phase.Finished? && PcOf(r, 1).InExecute?
            && PcOf(r, 2) == StartWaiting(Chat(Economy), None, None)
  {
    hide Run, CanRun, Started, Executions;
    NothingYet(s);
    steps := [];
    Append(s, steps, OperateSuite(ConfirmRoom));
    steps := steps + [OperateSuite(ConfirmRoom)];
    Append(s, steps, BeginExecution(1));
    steps := steps + [BeginExecution(1)];
    Append(s, steps, OperateSuite(Finish));
    steps := steps + [OperateSuite(Finish)];
    Append(s, steps, Call(2, StartWaiting(Chat(Economy), None, None)));
    steps := steps + [Call(2, StartWaiting(Chat(Economy), None, None))];
  }

  lemma LateResult(s: State)
    requires s.job.running && PcOf(s, 1).InExecute?
    ensures Enabled(s, EndExecution(1, false))
    ensures Next(s, EndExecution(1, false)).job.running && Live(Next(s, EndExecution(1, false)).phase)
  {
  }

  // ---------------------------------------------------------------------------------------------
  // Messages from the overlay

  function AskedBy(pc: Pc): Option<string> {
    match pc
    case StartWaiting(_, _, asked) => asked
    case StartHolding(order) => order.asked
    case StartChecked(order) => order.asked
    case OverlayPassed(selected) => if selected == "" then None else Some(selected)
    case _ => None
  }

  ghost predicate ThreadAsAsked(pc: Pc, active: string) {
    && (AskedBy(pc).Some? ==> AskedBy(pc).value == active)
    && (AskedBy(pc).Some? && pc.StartWaiting? ==> pc.elsewhere.None?)
    && (AskedBy(pc).Some? && (pc.StartHolding? || pc.StartChecked?) ==> pc.order.conversation == active)
  }

  /** Every pending overlay message, and the job started by one, is for the conversation that its client expected. */
  ghost predicate AsAsked(s: State) {
    && (forall t: nat :: ThreadAsAsked(PcOf(s, t), s.active))
    && (s.job.running && s.job.asked.Some? ==> s.job.conversation == s.job.asked.value)
  }

  /** A switch takes effect between an overlay message's check and its start. */
  ghost predicate SwitchOvertakes(s: State, step: Step) {
    && step.Advance? && PcOf(s, step.t).SwitchChecked?
    && exists t: nat :: AskedBy(PcOf(s, t)).Some? && AskedBy(PcOf(s, t)).value != PcOf(s, step.t).conversation
  }

  lemma AsAskedIff(s: State, step: Step)
    requires Inv(s) && AsAsked(s) && Enabled(s, step)
    ensures AsAsked(Next(s, step)) <==> !SwitchOvertakes(s, step)
  {
    var next := Next(s, step);
    if SwitchOvertakes(s, step) {
      var t: nat :| AskedBy(PcOf(s, t)).Some? && AskedBy(PcOf(s, t)).value != PcOf(s, step.t).conversation;
      assert AskedBy(PcOf(next, t)) == AskedBy(PcOf(s, t));
      assert !ThreadAsAsked(PcOf(next, t), next.active);
    } else {
      forall u: nat ensures ThreadAsAsked(PcOf(next, u), next.active) {
        AskedKept(s, step, u);
      }
      JobAsAsked(s, step);
    }
  }

  lemma AskedKept(s: State, step: Step, u: nat)
    requires Inv(s) && AsAsked(s) && Enabled(s, step) && !SwitchOvertakes(s, step)
    ensures ThreadAsAsked(PcOf(Next(s, step), u), Next(s, step).active)
  {
    hide JobOk;
    assert ThreadAsAsked(PcOf(s, u), s.active);
    if step.Advance? {
      AskedKeptByAdvance(s, step.t, u);
    }
  }

  lemma AskedKeptByAdvance(s: State, t: nat, u: nat)
    requires Inv(s) && AsAsked(s) && Enabled(s, Advance(t)) && !SwitchOvertakes(s, Advance(t))
    ensures ThreadAsAsked(PcOf(Advanced(s, t), u), Advanced(s, t).active)
  {
    var next := Advanced(s, t);
    assert ThreadAsAsked(PcOf(s, u), s.active);
    if t != u {
      assert PcOf(next, u) == PcOf(s, u);
    } else {
      assert PcOf(s, u).SwitchChecked? || next.active == s.active;
    }
  }

  lemma JobAsAsked(s: State, step: Step)
    requires Inv(s) && AsAsked(s) && Enabled(s, step)
    ensures var job := Next(s, step).job;
            job.running && job.asked.Some? ==> job.conversation == job.asked.value
  {
    if step.Advance? {
      assert ThreadAsAsked(PcOf(s, step.t), s.active);
    }
  }

  predicate NoneOvertaken(s: State, steps: seq<Step>)
    requires CanRun(s, steps)
    decreases |steps|
  {
    steps == []
    || ((steps[0].Advance? && PcOf(s, steps[0].t).SwitchChecked? ==>
           forall t | t in s.threads ::
             AskedBy(s.threads[t]).Some? ==> AskedBy(s.threads[t]).value == PcOf(s, steps[0].t).conversation)
        && NoneOvertaken(Next(s, steps[0]), steps[1..]))
  }

  /** Without such a switch every job that an overlay message starts is in the conversation its client expected. */
  lemma {:induction false} MessagesGoWhereAsked(s: State, steps: seq<Step>)
    requires Inv(s) && AsAsked(s) && CanRun(s, steps) && NoneOvertaken(s, steps)
    ensures AsAsked(Run(s, steps))
    decreases |steps|
  {
    if steps != [] {
      StepKeepsInv(s, steps[0]);
      AsAskedIff(s, steps[0]);
      MessagesGoWhereAsked(Next(s, steps[0]), steps[1..]);
    }
  }

  /** Thread `t` stays inside the conversation lock. */
  predicate NotReleased(t: nat, steps: seq<Step>) {
    forall i | 0 <= i < |steps| :: steps[i] != Release(t)
  }

  /** A thread about to start a job keeps its order, and the active conversation cannot change meanwhile. */
  lemma {:induction false} OrderIsKept(s: State, t: nat, order: Order, steps: seq<Step>)
    requires Inv(s) && CanRun(s, steps) && NotReleased(t, steps)
    requires PcOf(s, t) in [StartHolding(order), StartChecked(order)]
    ensures var r := Run(s, steps);
            Inv(r) && (PcOf(r, t).StartChecked? ==> PcOf(r, t) == StartChecked(order) && r.active == s.active)
    decreases |steps|
  {
    if steps != [] {
      var next := Next(s, steps[0]);
      assert steps[0] != Release(t);
      assert forall i | 0 <= i < |steps[1..]| :: steps[1..][i] == steps[i + 1];
      StepKeepsInv(s, steps[0]);
      OrderStep(s, t, order, steps[0]);
      if PcOf(next, t).Releasing? {
        ReleasingIsKept(next, t, steps[1..]);
      } else {
        OrderIsKept(next, t, order, steps[1..]);
      }
    }
  }

  lemma OrderStep(s: State, t: nat, order: Order, step: Step)
    requires Inv(s) && Enabled(s, step) && step != Release(t)
    requires PcOf(s, t) in [StartHolding(order), StartChecked(order)]
    ensures PcOf(Next(s, step), t) in [StartHolding(order), StartChecked(order), Releasing]
    ensures !PcOf(Next(s, step), t).Releasing? ==> Next(s, step).active == s.active
  {
    assert ThreadOk(PcOf(s, t), s.holder == Some(t), s.job.running, s.active);
    if step.Advance? {
      assert ThreadOk(PcOf(s, step.t), s.holder == Some(step.t), s.job.running, s.active);
    }
  }

  lemma {:induction false} ReleasingIsKept(s: State, t: nat, steps: seq<Step>)
    requires Inv(s) && CanRun(s, steps) && NotReleased(t, steps) && PcOf(s, t).Releasing?
    ensures Inv(Run(s, steps)) && PcOf(Run(s, steps), t).Releasing?
    decreases |steps|
  {
    if steps != [] {
      assert steps[0] != Release(t);
      assert forall i | 0 <= i < |steps[1..]| :: steps[1..][i] == steps[i + 1];
      StepKeepsInv(s, steps[0]);
      assert ThreadOk(PcOf(s, t), s.holder == Some(t), s.job.running, s.active);
      ReleasingIsKept(Next(s, steps[0]), t, steps[1..]);
    }
  }

  /**
   * For one message, whatever was switched between its check and its start, there and back again included: it starts
   * its job in the conversation that its client expected if and only if that one is active when the starting thread
   * enters the lock for the second time.
   */
  lemma MessageStartsIn(s: State, t: nat, asked: string, steps: seq<Step>)
    requires Inv(s) && PcOf(s, t) == StartWaiting(Chat(Economy), None, Some(asked)) && s.holder.None?
    requires CanRun(Next(s, Acquire(t)), steps) && NotReleased(t, steps)
    requires var r := Run(Next(s, Acquire(t)), steps); PcOf(r, t).StartChecked? && !r.job.running
    ensures var job := Next(Run(Next(s, Acquire(t)), steps), Advance(t)).job;
            && job.running && job.asked == Some(asked) && job.home == s.active
            && (job.conversation == asked <==> s.active == asked)
  {
    StepKeepsInv(s, Acquire(t));
    OrderIsKept(Next(s, Acquire(t)), t, Order(Chat(Economy), s.active, Some(asked)), steps);
  }

  /** A request may fail anywhere inside the lock before it has taken effect; it then frees the lock, and nothing else. */
  lemma FailedRequestFreesLock(s: State, t: nat)
    requires Inv(s) && s.holder == Some(t) && !PcOf(s, t).OverlayPassed?
    ensures Enabled(s, GiveUp(t)) && Enabled(Next(s, GiveUp(t)), Release(t))
    ensures Next(Next(s, GiveUp(t)), Release(t)) == s.(holder := None, threads := s.threads[t := Idle])
  {
    assert ThreadOk(PcOf(s, t), true, s.job.running, s.active);
    assert Next(Next(s, GiveUp(t)), Release(t)).threads == s.threads[t := Idle];
  }

  /** The worker ends its job whenever it likes; the next job may then start. */
  lemma WorkerEndsJob(s: State)
    requires Inv(s) && s.job.running
    ensures Enabled(s, WorkerEnds) && Next(s, WorkerEnds) == s.(job := s.job.(running := false), workers := 0)
  {
  }

  /**
   * A continuation belongs to the conversation for which the scheduler found it, whatever is active: its job records
   * that conversation, and every other job the one that is active as its thread enters the lock.
   */
  lemma JobRecordsConversation(s: State, t: nat, kind: Kind, elsewhere: Option<string>, steps: seq<Step>)
    requires Inv(s) && PcOf(s, t) == StartWaiting(kind, elsewhere, None) && s.holder.None?
    requires CanRun(Next(s, Acquire(t)), steps) && NotReleased(t, steps)
    requires var r := Run(Next(s, Acquire(t)), steps); PcOf(r, t).StartChecked? && !r.job.running
    ensures var job := Next(Run(Next(s, Acquire(t)), steps), Advance(t)).job;
            && job.running && job.kind == kind && job.home == s.active
            && job.conversation == if elsewhere.Some? then elsewhere.value else s.active
  {
    hide CanRun, Run;
    var holding := Next(s, Acquire(t));
    StepKeepsInv(s, Acquire(t));
    OrderIsKept(holding, t, Order(kind, if elsewhere.Some? then elsewhere.value else s.active, None), steps);
  }

  lemma MessageEnters(s: State, t: nat, selected: string) returns (steps: seq<Step>)
    requires s.holder.None? && PcOf(s, t).Idle?
    ensures CanRun(s, steps)
    ensures var r := Run(s, steps);
            r == s.(holder := Some(t), threads := r.threads) && PcOf(r, t) == OverlayHolding(selected)
            && forall u: nat | u != t :: PcOf(r, u) == PcOf(s, u)
  {
    hide Run, CanRun, SuiteStep, Live, Started, Executions;
    NothingYet(s);
    steps := [];
    Append(s, steps, Call(t, OverlayWaiting(selected)));
    steps := steps + [Call(t, OverlayWaiting(selected))];
    Append(s, steps, Acquire(t));
    steps := steps + [Acquire(t)];
  }

  /** An overlay message passes its check and waits for the lock again. */
  lemma MessagePasses(s: State, t: nat, selected: string) returns (steps: seq<Step>)
    requires s.holder.None? && s.active == selected != "" && PcOf(s, t).Idle?
    ensures CanRun(s, steps)
    ensures var r := Run(s, steps);
            && r.holder.None? && r.job == s.job && r.phase == s.phase
            && PcOf(r, t) == StartWaiting(Chat(Economy), None, Some(selected))
            && forall u: nat | u != t :: PcOf(r, u) == PcOf(s, u)
  {
    hide Run, CanRun, SuiteStep, Live, Started, Executions;
    steps := MessageEnters(s, t, selected);
    Append(s, steps, Advance(t));
    steps := steps + [Advance(t)];
    Append(s, steps, Release(t));
    steps := steps + [Release(t)];
  }

  /** A message checked against conversation "a" starts its job in conversation "b". */
  lemma MessageGoesElsewhere(settings: Settings) returns (steps: seq<Step>)
    ensures CanRun(Start("a", SuiteIdle, false, settings), steps)
    ensures var s := Run(Start("a", SuiteIdle, false, settings), steps);
            s.job.running && s.job.asked == Some("a") && s.job.conversation == "b"
  {
    hide Run, CanRun, Next, Enabled;
    var start := Start("a", SuiteIdle, false, settings);
    var passing := MessagePasses(start, 1, "a");
    var switching := Switches(Run(start, passing));
    Concat(start, passing, switching);
    var chat := ChatStarts(Run(start, passing + switching), 1, Some("a"));
    Concat(start, passing + switching, chat);
    steps := passing + switching + chat;
  }

  lemma Switches(s: State) returns (steps: seq<Step>)
    requires s.holder.None? && !s.job.running && PcOf(s, 2).Idle?
    ensures CanRun(s, steps)
    ensures var r := Run(s, steps);
            && r.active == "b" && r.holder.None? && r.job == s.job && r.phase == s.phase
            && forall u: nat | u != 2 :: PcOf(r, u) == PcOf(s, u)
  {
    hide Run, CanRun, SuiteStep, Live, Started, Executions;
    NothingYet(s);
    steps := [];
    Append(s, steps, Call(2, SwitchWaiting("b")));
    steps := steps + [Call(2, SwitchWaiting("b"))];
    Append(s, steps, Acquire(2));
    steps := steps + [Acquire(2)];
    Append(s, steps, Advance(2));
    steps := steps + [Advance(2)];
    Append(s, steps, Advance(2));
    steps := steps + [Advance(2)];
    Append(s, steps, Release(2));
    steps := steps + [Release(2)];
  }
}
