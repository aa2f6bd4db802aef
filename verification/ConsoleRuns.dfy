/** Request threads, the scheduler and the worker of the console under every schedule. */
module ConsoleRuns {
  import opened Basics
  import opened Console

  /**
   * Where a thread is inside a request. The states named `...Holding`, `...Checked`, `OverlayPassed` and `Releasing`
   * hold the conversation lock. The scheduler is a thread that starts jobs.
   */
  datatype Pc =
    | Idle
    | StartWaiting(kind: Kind, elsewhere: Option<string>, asked: Option<string>)
    | StartHolding(order: Order)
    | StartChecked(order: Order)
    | SwitchWaiting(conversation: string)
    | SwitchHolding(conversation: string)
    | SwitchChecked(conversation: string)
    | LiveWaiting
    | LiveHolding
    | LiveChecked
    | OverlayWaiting(selected: string)
    | OverlayHolding(selected: string)
    | OverlayPassed(selected: string)
    | Releasing
    | InExecute

  predicate Holds(pc: Pc) {
    || pc.StartHolding? || pc.StartChecked? || pc.SwitchHolding? || pc.SwitchChecked? || pc.LiveHolding?
    || pc.LiveChecked? || pc.OverlayHolding? || pc.OverlayPassed? || pc.Releasing?
  }

  predicate Entry(pc: Pc) {
    || (pc.StartWaiting? && pc.asked.None? && (pc.elsewhere.Some? ==> pc.kind == Continuation))
    || pc.SwitchWaiting? || pc.LiveWaiting? || pc.OverlayWaiting?
  }

  /**
   * `holder`: the thread in the conversation lock; `workers`: worker threads inside a job's action; `settings`: the
   * current ones. They are saved under a lock of their own after an unlocked look at the suite, so they may change at
   * any moment, also while a job runs.
   */
  datatype State = State(
    job: Job, active: string, stop: bool, phase: SuitePhase, settings: Settings, holder: Option<nat>,
    threads: map<nat, Pc>, workers: nat)

  function PcOf(s: State, t: nat): Pc {
    if t in s.threads then s.threads[t] else Idle
  }

  function At(s: State, t: nat, pc: Pc): State {
    s.(threads := s.threads[t := pc])
  }

  datatype Step =
    | Call(t: nat, pc: Pc)
    | Acquire(t: nat)
    | Advance(t: nat)
    | GiveUp(t: nat)
    | Release(t: nat)
    | BeginExecution(t: nat)
    | EndExecution(t: nat, reportLost: bool)
    | OperateSuite(op: SuiteOp)
    | RequestStop
    | ClearStop
    | SaveSettings(mode: ExecutionMode, constructions: int)
    | WorkerReadsSettings
    | WorkerBeginsExecution
    | WorkerEnds

  predicate Enabled(s: State, step: Step) {
    match step
    case Call(t, pc) => PcOf(s, t).Idle? && Entry(pc)
    case Acquire(t) =>
      var pc := PcOf(s, t);
      s.holder.None? && (pc.StartWaiting? || pc.SwitchWaiting? || pc.LiveWaiting? || pc.OverlayWaiting?)
    case Advance(t) => Holds(PcOf(s, t)) && !PcOf(s, t).Releasing? && !PcOf(s, t).OverlayPassed?
    case GiveUp(t) => Holds(PcOf(s, t)) && !PcOf(s, t).OverlayPassed?
    case Release(t) => PcOf(s, t).Releasing? || PcOf(s, t).OverlayPassed?
    case BeginExecution(t) => PcOf(s, t).Idle? && SuiteStep(s.phase, BeginExecute).Some?
    case EndExecution(t, _) => PcOf(s, t).InExecute?
    case OperateSuite(op) =>
      !op.StartLive? && !op.BeginExecute? && !op.EndExecute? && SuiteStep(s.phase, op).Some?
    case RequestStop => true
    case ClearStop => true
    case SaveSettings(mode, constructions) => !mode.UnknownMode? && 1 <= constructions <= 5
    case WorkerReadsSettings => s.workers > 0 && s.job.settings.None?
    case WorkerBeginsExecution =>
      && s.workers > 0 && s.job.settings.Some?
      && s.job.begun < Executions(s.job.kind, s.job.settings.value.constructions)
    case WorkerEnds => s.workers > 0
  }

  /** What a thread finds when it enters the conversation lock. */
  function Entered(s: State, pc: Pc): Pc
    requires pc.StartWaiting? || pc.SwitchWaiting? || pc.LiveWaiting? || pc.OverlayWaiting?
  {
    match pc
    case StartWaiting(kind, elsewhere, asked) =>
      StartHolding(Order(kind, if elsewhere.Some? then elsewhere.value else s.active, asked))
    case SwitchWaiting(c) => SwitchHolding(c)
    case LiveWaiting => LiveHolding
    case OverlayWaiting(selected) => OverlayHolding(selected)
  }

  /** The next region of a thread inside the conversation lock. */
  function Advanced(s: State, t: nat): State
    requires Enabled(s, Advance(t))
  {
    match PcOf(s, t)
    case StartHolding(order) => At(s, t, if Live(s.phase) then Releasing else StartChecked(order))
    case StartChecked(order) =>
      if s.job.running then At(s, t, Releasing)
      else At(s, t, Releasing).(job := Started(s.job, order, s.active), workers := s.workers + 1)
    case SwitchHolding(c) => At(s, t, if s.job.running then Releasing else SwitchChecked(c))
    case SwitchChecked(c) => At(s, t, Releasing).(active := c)
    case LiveHolding => At(s, t, if s.job.running then Releasing else LiveChecked)
    case LiveChecked =>
      var phase := SuiteStep(s.phase, StartLive);
      At(s, t, Releasing).(phase := if phase.Some? then phase.value else s.phase)
    case OverlayHolding(selected) =>
      At(s, t, if selected != "" && selected != s.active then Releasing else OverlayPassed(selected))
  }

  function Next(s: State, step: Step): State
    requires Enabled(s, step)
  {
    match step
    case Call(t, pc) => At(s, t, pc)
    case Acquire(t) => At(s, t, Entered(s, PcOf(s, t))).(holder := Some(t))
    case Advance(t) => Advanced(s, t)
    case GiveUp(t) => At(s, t, Releasing)
    case Release(t) =>
      At(s, t,
         match PcOf(s, t)
         case OverlayPassed(selected) =>
           StartWaiting(Chat(Economy), None, if selected == "" then None else Some(selected))
         case _ => Idle).(holder := None)
    case BeginExecution(t) => At(s, t, InExecute).(phase := ExecutingAction)
    case EndExecution(t, reportLost) =>
      var phase := SuiteStep(s.phase, EndExecute(reportLost));
      At(s, t, Idle).(phase := if phase.Some? then phase.value else s.phase)
    case OperateSuite(op) => s.(phase := SuiteStep(s.phase, op).value)
    case RequestStop => s.(stop := true)
    case ClearStop => if s.job.running then s else s.(stop := false)
    case SaveSettings(mode, constructions) =>
      s.(settings := s.settings.(mode := mode, constructions := constructions))
    case WorkerReadsSettings => s.(job := s.job.(settings := Some(s.settings)))
    case WorkerBeginsExecution =>
      s.(stop := s.stop && !OverQueue(s.job.settings.value), job := s.job.(begun := s.job.begun + 1))
    case WorkerEnds => s.(job := s.job.(running := false), workers := s.workers - 1)
  }

  function Start(active: string, phase: SuitePhase, stop: bool, settings: Settings): State {
    State(Job(false, Chat(Economy), "", "", 0, None, None, 0), active, stop, phase, settings, None, map[], 0)
  }

  predicate CanRun(s: State, steps: seq<Step>)
    decreases |steps|
  {
    steps == [] || (Enabled(s, steps[0]) && CanRun(Next(s, steps[0]), steps[1..]))
  }

  function Run(s: State, steps: seq<Step>): State
    requires CanRun(s, steps)
    decreases |steps|
  {
    if steps == [] then s else Run(Next(s, steps[0]), steps[1..])
  }

  // ---------------------------------------------------------------------------------------------
  // What every step keeps

  /**
   * One thread: it is in a region of the conversation lock exactly when it holds the lock, what it checked still
   * holds, and a job that it is about to start belongs to the active conversation.
   */
  predicate ThreadOk(pc: Pc, holds: bool, running: bool, active: string) {
    && (Holds(pc) <==> holds)
    && (pc.SwitchChecked? || pc.LiveChecked? ==> !running)
    && ((pc.StartHolding? || pc.StartChecked?) && pc.order.kind != Continuation ==> pc.order.conversation == active)
    && (pc.StartWaiting? && pc.elsewhere.Some? ==> pc.kind == Continuation)
  }

  ghost predicate ThreadsOk(s: State) {
    forall t: nat :: ThreadOk(PcOf(s, t), s.holder == Some(t), s.job.running, s.active)
  }

  /** The worker exists exactly while the job runs, and the active conversation is still the job's home. */
  predicate JobOk(s: State) {
    && s.workers == (if s.job.running then 1 else 0)
    && (s.job.running ==> s.active == s.job.home)
    && (s.job.running && s.job.kind != Continuation ==> s.job.conversation == s.job.home)
    && (s.job.settings.None? ==> s.job.begun == 0)
  }

  ghost predicate Inv(s: State) {
    ThreadsOk(s) && JobOk(s)
  }

  /** A step of thread `t`: the other threads are outside the lock, or nothing they rely on changes. */
  lemma OthersKeep(s: State, t: nat, s': State, pc: Pc)
    requires ThreadsOk(s) && s'.threads == s.threads[t := pc]
    requires ThreadOk(pc, s'.holder == Some(t), s'.job.running, s'.active)
    requires s'.holder == s.holder || (s.holder.None? && s'.holder == Some(t)) || (s.holder == Some(t) && s'.holder.None?)
    requires s.holder == Some(t) || (s'.active == s.active && s'.job.running == s.job.running)
    ensures ThreadsOk(s')
  {
    forall u: nat ensures ThreadOk(PcOf(s', u), s'.holder == Some(u), s'.job.running, s'.active) {
      assert ThreadOk(PcOf(s, u), s.holder == Some(u), s.job.running, s.active);
    }
  }

  lemma AdvanceKeepsInv(s: State, t: nat)
    requires Inv(s) && Enabled(s, Advance(t))
    ensures Inv(Advanced(s, t))
  {
    var next := Advanced(s, t);
    assert ThreadOk(PcOf(s, t), s.holder == Some(t), s.job.running, s.active);
    assert next.threads == s.threads[t := PcOf(next, t)];
    OthersKeep(s, t, next, PcOf(next, t));
  }

  lemma ThreadStepKeepsInv(s: State, t: nat, step: Step)
    requires Inv(s) && Enabled(s, step)
    requires step == Acquire(t) || step == GiveUp(t) || step == Release(t) || step == BeginExecution(t)
             || (step.Call? && step.t == t) || (step.EndExecution? && step.t == t)
    ensures Inv(Next(s, step))
  {
    var next := Next(s, step);
    assert ThreadOk(PcOf(s, t), s.holder == Some(t), s.job.running, s.active);
    assert next.threads == s.threads[t := PcOf(next, t)];
    OthersKeep(s, t, next, PcOf(next, t));
  }

  lemma GlobalStepKeepsInv(s: State, step: Step)
    requires Inv(s) && Enabled(s, step)
    requires step.OperateSuite? || step.RequestStop? || step.ClearStop? || step.SaveSettings?
             || step.WorkerReadsSettings? || step.WorkerBeginsExecution? || step.WorkerEnds?
    ensures Inv(Next(s, step))
  {
    var next := Next(s, step);
    forall u: nat ensures ThreadOk(PcOf(next, u), next.holder == Some(u), next.job.running, next.active) {
      assert ThreadOk(PcOf(s, u), s.holder == Some(u), s.job.running, s.active);
    }
  }

  lemma StepKeepsInv(s: State, step: Step)
    requires Inv(s) && Enabled(s, step)
    ensures Inv(Next(s, step))
  {
    match step {
      case Advance(t) => AdvanceKeepsInv(s, t);
      case Call(t, _) => ThreadStepKeepsInv(s, t, step);
      case Acquire(t) => ThreadStepKeepsInv(s, t, step);
      case GiveUp(t) => ThreadStepKeepsInv(s, t, step);
      case Release(t) => ThreadStepKeepsInv(s, t, step);
      case BeginExecution(t) => ThreadStepKeepsInv(s, t, step);
      case EndExecution(t, _) => ThreadStepKeepsInv(s, t, step);
      case _ => GlobalStepKeepsInv(s, step);
    }
  }

  lemma {:induction false} RunKeepsInv(s: State, steps: seq<Step>)
    requires Inv(s) && CanRun(s, steps)
    ensures Inv(Run(s, steps))
    decreases |steps|
  {
    if steps != [] {
      StepKeepsInv(s, steps[0]);
      RunKeepsInv(Next(s, steps[0]), steps[1..]);
    }
  }

  lemma StartHolds(active: string, phase: SuitePhase, stop: bool, settings: Settings)
    ensures Inv(Start(active, phase, stop, settings))
  {
  }
}
