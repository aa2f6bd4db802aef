/** What every order of the protocol suite's regions keeps, refused ones included. */
module ProtocolSuiteRuns {
  import opened Console

  function After(phase: SuitePhase, op: SuiteOp): SuitePhase {
    var next := SuiteStep(phase, op);
    if next.Some? then next.value else phase
  }

  function AfterAll(phase: SuitePhase, ops: seq<SuiteOp>): SuitePhase
    decreases |ops|
  {
    if ops == [] then phase else AfterAll(After(phase, ops[0]), ops[1..])
  }

  lemma {:induction false} AfterOneMore(phase: SuitePhase, ops: seq<SuiteOp>, op: SuiteOp)
    ensures AfterAll(phase, ops + [op]) == After(AfterAll(phase, ops), op)
    decreases |ops|
  {
    var more := ops + [op];
    if ops == [] {
      assert more[1..] == [];
    } else {
      assert more[0] == ops[0] && more[1..] == ops[1..] + [op];
      AfterOneMore(After(phase, ops[0]), ops[1..], op);
    }
  }

  // ---------------------------------------------------------------------------------------------
  // When the suite is live

  /** The regions that decide whether the suite is live: two make it so whatever came before, two end it. */
  predicate Opens(op: SuiteOp) {
    op.StartLive? || (op.EndExecute? && !op.reportLost)
  }

  predicate Closes(op: SuiteOp) {
    op.Finish? || op.Reset?
  }

  /** Only the last deciding region counts; without one nothing has changed. No guard and no phase is looked at. */
  predicate LiveByLast(live: bool, ops: seq<SuiteOp>)
    decreases |ops|
  {
    if ops == [] then live
    else
      var last := ops[|ops| - 1];
      if Opens(last) then true else if Closes(last) then false else LiveByLast(live, ops[..|ops| - 1])
  }

  lemma {:induction false} LiveIffLastOpens(phase: SuitePhase, ops: seq<SuiteOp>)
    ensures Live(AfterAll(phase, ops)) <==> LiveByLast(Live(phase), ops)
    decreases |ops|
  {
    if ops != [] {
      var before, last := ops[..|ops| - 1], ops[|ops| - 1];
      assert ops == before + [last];
      LiveIffLastOpens(phase, before);
      AfterOneMore(phase, before, last);
    }
  }

  // ---------------------------------------------------------------------------------------------
  // Verdicts and executions

  /** How many regions of one kind went through. */
  function Accepted(phase: SuitePhase, ops: seq<SuiteOp>, counts: SuiteOp -> bool): nat
    decreases |ops|
  {
    if ops == [] then 0
    else
      (if counts(ops[0]) && SuiteStep(phase, ops[0]).Some? then 1 else 0)
      + Accepted(After(phase, ops[0]), ops[1..], counts)
  }

  predicate IsVerdict(op: SuiteOp) {
    op.RecordVerdict?
  }

  predicate IsWriteBack(op: SuiteOp) {
    op.EndExecute?
  }

  /** Each verdict uses up a result of its own: no result is judged twice, and none before it was written back. */
  lemma {:induction false} VerdictsNeedResults(phase: SuitePhase, ops: seq<SuiteOp>)
    ensures Accepted(phase, ops, IsVerdict) + (if AfterAll(phase, ops).AwaitingVerdict? then 1 else 0)
            <= Accepted(phase, ops, IsWriteBack) + (if phase.AwaitingVerdict? then 1 else 0)
    decreases |ops|
  {
    if ops != [] {
      VerdictsNeedResults(After(phase, ops[0]), ops[1..]);
    }
  }

  // ---------------------------------------------------------------------------------------------
  // A failed verdict

  predicate LeavesHalted(op: SuiteOp) {
    Closes(op) || (op.EndExecute? && !op.reportLost)
  }

  lemma {:induction false} HaltedStays(ops: seq<SuiteOp>)
    requires forall op | op in ops :: !LeavesHalted(op)
    ensures AfterAll(Halted, ops) == Halted
    decreases |ops|
  {
    if ops != [] {
      assert !LeavesHalted(ops[0]);
      HaltedStays(ops[1..]);
    }
  }

  /**
   * After a failed verdict the suite stays halted, so that no further action is executed, exactly until it is ended
   * or the result of an action that was still in flight is written back.
   */
  lemma HaltedIff(ops: seq<SuiteOp>)
    ensures (forall k | 0 <= k <= |ops| :: AfterAll(Halted, ops[..k]) == Halted)
            <==> (forall op | op in ops :: !LeavesHalted(op))
  {
    if forall op | op in ops :: !LeavesHalted(op) {
      forall k | 0 <= k <= |ops| ensures AfterAll(Halted, ops[..k]) == Halted {
        HaltedStays(ops[..k]);
      }
    } else {
      var i :| 0 <= i < |ops| && LeavesHalted(ops[i]);
      assert ops[..i + 1] == ops[..i] + [ops[i]];
      AfterOneMore(Halted, ops[..i], ops[i]);
      if AfterAll(Halted, ops[..i]) == Halted {
        assert AfterAll(Halted, ops[..i + 1]) != Halted;
      }
    }
  }

  // ---------------------------------------------------------------------------------------------
  // One run through a plan

  /** A region that decides about one action of the plan for good. */
  predicate Decides(op: SuiteOp) {
    (op.RecordVerdict? && op.passed) || op.SkipAction?
  }

  /** What a region says of being the last of `left` actions is true. */
  predicate SaysLast(op: SuiteOp, left: nat) {
    match op
    case RecordVerdict(passed, last) => passed ==> last == (left == 1)
    case SkipAction(last) => last == (left == 1)
    case _ => true
  }

  /**
   * The regions of one run, all of them accepted: actions are begun, written back, judged or skipped, and it is known
   * how many are left.
   */
  predicate Orderly(phase: SuitePhase, ops: seq<SuiteOp>, left: nat)
    decreases |ops|
  {
    ops == []
    || (&& (ops[0].BeginExecute? || (ops[0].EndExecute? && phase.ExecutingAction?)
            || ops[0].RecordVerdict? || ops[0].SkipAction?)
        && SuiteStep(phase, ops[0]).Some? && left > 0 && SaysLast(ops[0], left)
        && Orderly(After(phase, ops[0]), ops[1..], if Decides(ops[0]) then left - 1 else left))
  }

  function Decided(ops: seq<SuiteOp>): nat {
    if ops == [] then 0 else (if Decides(ops[0]) then 1 else 0) + Decided(ops[1..])
  }

  predicate AnyFailed(ops: seq<SuiteOp>) {
    exists op :: op in ops && op.RecordVerdict? && !op.passed
  }

  lemma FailedFirst(ops: seq<SuiteOp>)
    requires ops != []
    ensures AnyFailed(ops) <==> (ops[0].RecordVerdict? && !ops[0].passed) || AnyFailed(ops[1..])
  {
    assert ops == [ops[0]] + ops[1..];
  }

  /** The phases between two regions of a run. */
  predicate UnderWay(phase: SuitePhase) {
    phase.ReadyForAction? || phase.ExecutingAction? || phase.AwaitingVerdict?
  }

  lemma NothingFollows(phase: SuitePhase, ops: seq<SuiteOp>, left: nat)
    requires Orderly(phase, ops, left) && !UnderWay(phase)
    ensures ops == []
  {
  }

  /**
   * However the actions of a plan are judged or skipped: the suite is completed exactly when all of them have been
   * decided, and halted exactly when one of them failed.
   */
  lemma {:induction false} CompletedIff(phase: SuitePhase, ops: seq<SuiteOp>, left: nat)
    requires UnderWay(phase) && Orderly(phase, ops, left) && left > 0
    ensures Decided(ops) <= left
    ensures AfterAll(phase, ops).Completed? <==> Decided(ops) == left
    ensures AfterAll(phase, ops).Halted? <==> AnyFailed(ops)
    decreases |ops|
  {
    if ops != [] {
      var next, rest := After(phase, ops[0]), ops[1..];
      FailedFirst(ops);
      if UnderWay(next) {
        CompletedIff(next, rest, if Decides(ops[0]) then left - 1 else left);
      } else {
        NothingFollows(next, rest, if Decides(ops[0]) then left - 1 else left);
      }
    }
  }
}
