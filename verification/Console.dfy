/** The control console's shared state: the one job, the active conversation, the stop flag and the live protocol suite. */
module Console {
  import opened Basics

  datatype Agent = Economy | Specialist

  datatype Autonomy = Paused | Advisory | Executes

  /** What a job does. `replacement` says that the stored run of an execution replaces a building. */
  datatype Kind =
    | Chat(agent: Agent)
    | Review(agent: Agent, mode: Autonomy)
    | Plan
    | Execute(replacement: bool)
    | Continuation
    | Autonomous(mode: Autonomy)

  datatype ExecutionMode = CarrierClick | SessionProxy | UnknownMode

  datatype Transport = WindowsHostBridge | LinuxClientQueue | UnknownTransport

  /** The execution settings: all but the transport can be saved from the console at any time. */
  datatype Settings = Settings(mode: ExecutionMode, transport: Transport, constructions: int)

  /** The one route on which an execution removes the stop flag before it begins. */
  predicate OverQueue(settings: Settings) {
    settings.mode.CarrierClick? && settings.transport.LinuxClientQueue?
  }

  /** A player's message authorises executions, and so does the execute mode in a review; specialists never execute. */
  predicate CanExecute(kind: Kind) {
    match kind
    case Chat(agent) => agent.Economy?
    case Review(agent, mode) => agent.Economy? && mode.Executes?
    case Autonomous(mode) => mode.Executes?
    case Execute(replacement) => !replacement
    case Plan => false
    case Continuation => false
  }

  /** How many executions one job may begin: one of a stored run, or one of each construction of a turn. */
  function Executions(kind: Kind, constructions: int): (n: nat)
    ensures n <= 5 && (n > 0 <==> CanExecute(kind))
  {
    if !CanExecute(kind) then 0
    else if kind.Execute? || constructions < 1 then 1
    else if constructions > 5 then 5
    else constructions
  }

  /**
   * The job record. `home` is the conversation that was active when the job was recorded, `number` counts the jobs,
   * `asked` is the conversation that an overlay client expected, `settings` are the ones that the worker has read,
   * once, and `begun` counts the executions that it has begun.
   */
  datatype Job = Job(
    running: bool, kind: Kind, conversation: string, home: string, number: nat, asked: Option<string>,
    settings: Option<Settings>, begun: nat)

  datatype SuitePhase =
    | SuiteIdle | PlanReady | OfflinePassed | OfflineFailed
    | WaitingForRoom | ReadyForAction | ExecutingAction | AwaitingVerdict | Halted | Completed
    | Finished

  predicate Live(phase: SuitePhase) {
    || phase.WaitingForRoom? || phase.ReadyForAction? || phase.ExecutingAction? || phase.AwaitingVerdict?
    || phase.Halted? || phase.Completed?
  }

  /** A job as its caller describes it. */
  datatype Order = Order(kind: Kind, conversation: string, asked: Option<string>)

  function Started(previous: Job, order: Order, home: string): Job {
    Job(true, order.kind, order.conversation, home, previous.number + 1, order.asked, None, 0)
  }

  // ---------------------------------------------------------------------------------------------
  // The protocol suite

  /** One locked region of the suite's controller, with what it decides from outside the model. */
  datatype SuiteOp =
    | StartLive
    | ConfirmRoom
    | BeginExecute
    | EndExecute(reportLost: bool)
    | RecordVerdict(passed: bool, last: bool)
    | SkipAction(last: bool)
    | Finish
    | Reset(offlineCurrent: bool, hasPlan: bool)
    | ChangePlan
    | CheckOffline(passed: bool)

  /** The phase after a region; `None` when the region refuses. */
  function SuiteStep(phase: SuitePhase, op: SuiteOp): Option<SuitePhase> {
    match op
    case StartLive => if Live(phase) then None else Some(WaitingForRoom)
    case ConfirmRoom => if phase.WaitingForRoom? then Some(ReadyForAction) else None
    case BeginExecute => if phase.ReadyForAction? then Some(ExecutingAction) else None
    case EndExecute(reportLost) => if reportLost then None else Some(AwaitingVerdict)
    case RecordVerdict(passed, last) =>
      if !phase.AwaitingVerdict? then None
      else if !passed then Some(Halted)
      else if last then Some(Completed)
      else Some(ReadyForAction)
    case SkipAction(last) =>
      if !phase.ReadyForAction? then None else if last then Some(Completed) else Some(ReadyForAction)
    case Finish => if Live(phase) then Some(Finished) else None
    case Reset(offlineCurrent, hasPlan) =>
      Some(if offlineCurrent then OfflinePassed else if hasPlan then PlanReady else SuiteIdle)
    case ChangePlan => if Live(phase) then None else Some(PlanReady)
    case CheckOffline(passed) => if Live(phase) then None else Some(if passed then OfflinePassed else OfflineFailed)
  }

  class ProtocolSuite {
    var phase: SuitePhase

    constructor ()
      ensures phase == SuiteIdle
    {
      phase := SuiteIdle;
    }

    predicate LiveActive()
      reads this
    {
      Live(phase)
    }

    /** The guards and assignments of the regions; a refused one leaves the phase alone. */
    method Perform(op: SuiteOp) returns (ok: bool)
      modifies this
      ensures ok <==> SuiteStep(old(phase), op).Some?
      ensures phase == if ok then SuiteStep(old(phase), op).value else old(phase)
    {
      match op {
        case StartLive =>
          if LiveActive() { return false; }
          phase := WaitingForRoom;
        case ConfirmRoom =>
          if !phase.WaitingForRoom? { return false; }
          phase := ReadyForAction;
        case BeginExecute =>
          if !phase.ReadyForAction? { return false; }
          phase := ExecutingAction;
        case EndExecute(reportLost) =>
          if reportLost { return false; }
          phase := AwaitingVerdict;
        case RecordVerdict(passed, last) =>
          if !phase.AwaitingVerdict? { return false; }
          phase := Halted;
          if passed {
            phase := if last then Completed else ReadyForAction;
          }
        case SkipAction(last) =>
          if !phase.ReadyForAction? { return false; }
          phase := if last then Completed else ReadyForAction;
        case Finish =>
          if !LiveActive() { return false; }
          phase := Finished;
        case Reset(offlineCurrent, hasPlan) =>
          phase := if offlineCurrent then OfflinePassed else if hasPlan then PlanReady else SuiteIdle;
        case ChangePlan =>
          if LiveActive() { return false; }
          phase := PlanReady;
        case CheckOffline(passed) =>
          if LiveActive() { return false; }
          phase := if passed then OfflinePassed else OfflineFailed;
      }
      return true;
    }
  }

  // ---------------------------------------------------------------------------------------------
  // The console's locked regions

  /** How activating a conversation goes: the store may refuse it, or fail when it is already active. */
  datatype Activation = Works | FailsBefore | FailsAfter

  class ConsoleService {
    var job: Job
    var active: string
    var stop: bool
    const suite: ProtocolSuite

    constructor (suite: ProtocolSuite, active: string)
      ensures !job.running && this.active == active && !stop && this.suite == suite
    {
      this.suite := suite;
      this.active := active;
      job := Job(false, Chat(Economy), "", "", 0, None, None, 0);
      stop := false;
    }

    /** Refuses while a job runs. */
    method EnsureNoRunningJob() returns (ok: bool)
      ensures ok <==> !job.running
    {
      return !job.running;
    }

    /** The check before the job lock. */
    method RequireProtocolCompatibilityIdle() returns (ok: bool)
      ensures ok <==> !Live(suite.phase)
    {
      return !suite.LiveActive();
    }

    /**
     * `start_protocol_compatibility_live` without interruption: refused beside a job, unless the scheduled reviews are
     * paused, while a suite is live, and when the suite is not ready for another reason.
     */
    method StartProtocolCompatibilityLive(paused: bool, ready: bool) returns (ok: bool)
      modifies suite
      ensures ok <==> !job.running && paused && !Live(old(suite.phase)) && ready
      ensures suite.phase == if ok then WaitingForRoom else old(suite.phase)
    {
      ok := EnsureNoRunningJob();
      if !ok || !paused || suite.LiveActive() || !ready {
        return false;
      }
      ok := suite.Perform(StartLive);
    }

    /** The job-lock region of starting a job. */
    method TakeJob(order: Order) returns (ok: bool)
      modifies this`job
      ensures ok <==> !old(job.running)
      ensures job == if ok then Started(old(job), order, active) else old(job)
    {
      if job.running {
        return false;
      }
      job := Job(true, order.kind, order.conversation, active, job.number + 1, order.asked, None, 0);
      return true;
    }

    /** The worker's last region; a result and an exception both end the job. */
    method FinishJob()
      modifies this`job
      ensures job == old(job).(running := false)
    {
      job := job.(running := false);
    }

    /** The conversation becomes active between two operations of the store that can fail. */
    method ActivateConversation(conversation: string, activation: Activation) returns (ok: bool)
      modifies this`active
      ensures ok <==> activation.Works?
      ensures active == if activation.FailsBefore? then old(active) else conversation
    {
      if activation.FailsBefore? {
        return false;
      }
      active := conversation;
      return activation.Works?;
    }

    /** `switch_conversation` without interruption: nothing changes while a job runs, or when the store refuses. */
    method SwitchConversation(conversation: string, activation: Activation) returns (ok: bool)
      modifies this`active
      ensures ok <==> !job.running && activation.Works?
      ensures active == if job.running || activation.FailsBefore? then old(active) else conversation
    {
      ok := EnsureNoRunningJob();
      if ok {
        ok := ActivateConversation(conversation, activation);
      }
    }

    method EmergencyStop()
      modifies this`stop
      ensures stop
    {
      stop := true;
    }

    /** The flag is removed only between jobs. */
    method ClearEmergencyStop() returns (cleared: Option<bool>)
      modifies this`stop
      ensures cleared.None? <==> job.running
      ensures cleared.Some? ==> !stop && cleared.value == old(stop)
      ensures cleared.None? ==> stop == old(stop)
    {
      if job.running {
        return None;
      }
      var was := stop;
      stop := false;
      return Some(was);
    }
  }
}
