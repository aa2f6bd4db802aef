/** What holds of the native runtime after every schedule of its two threads and the clock. */
module RuntimeResults {
  import opened Basics
  import opened TabProtocol
  import opened RuntimeSlot
  import opened RuntimeRuns
  import opened RuntimeSafety

  lemma InitialHolds(p: Platform)
    ensures Inv(p, INITIAL) && VerificationsRegistered(INITIAL.log)
  {
  }

  lemma {:induction false} InitialRunKeepsInv(p: Platform, schedule: seq<Step>)
    requires CanRun(p, INITIAL, schedule)
    ensures Inv(p, Run(p, INITIAL, schedule))
  {
    assert Inv(p, INITIAL);
    RunKeepsInv(p, INITIAL, schedule);
  }

  // ---------------------------------------------------------------------------------------------
  // Posting

  /** No generation is handed to the game twice, under any interleaving. */
  lemma EachGenerationPostedOnce(p: Platform, schedule: seq<Step>, i: nat, j: nat)
    requires CanRun(p, INITIAL, schedule)
    requires var log := Run(p, INITIAL, schedule).log;
             i < |log| && j < |log| && log[i].CommandPosted? && log[j].CommandPosted?
    ensures var log := Run(p, INITIAL, schedule).log; log[i].generation == log[j].generation ==> i == j
  {
    InitialRunKeepsInv(p, schedule);
  }

  /** A request id is posted again only after the result of a different id took its place in the cache. */
  lemma RepostNeedsOtherResult(p: Platform, schedule: seq<Step>, i: nat, j: nat)
    requires CanRun(p, INITIAL, schedule)
    requires var log := Run(p, INITIAL, schedule).log;
             && i < j < |log| && log[i].CommandPosted? && log[j].CommandPosted?
             && log[i].ticket.requestId == log[j].ticket.requestId
    ensures var log := Run(p, INITIAL, schedule).log;
            exists k :: i < k < j && log[k].ResultCached? && log[k].ticket.requestId != log[i].ticket.requestId
  {
    InitialRunKeepsInv(p, schedule);
    assert OtherCachedBetween(Run(p, INITIAL, schedule).log, i, j);
  }

  // ---------------------------------------------------------------------------------------------
  // Results

  /** A generation with a result was posted exactly when the result was not recorded before posting. */
  lemma ResultTellsPosting(p: Platform, schedule: seq<Step>, k: nat)
    requires CanRun(p, INITIAL, schedule)
    requires var log := Run(p, INITIAL, schedule).log; k < |log| && log[k].ResultRecorded?
    ensures var log := Run(p, INITIAL, schedule).log;
            var e := log[k];
            && (NeverPosted(log, e.generation) <==> BeforePosting(e.source))
            && (!BeforePosting(e.source) ==> exists i :: 0 <= i < k && PostOf(log[i], e.generation))
            && (e.source.Expiry? ==> exists i :: 0 <= i < k && PostOf(log[i], e.generation) && e.at >= log[i].deadline)
  {
    InitialRunKeepsInv(p, schedule);
    var log := Run(p, INITIAL, schedule).log;
    assert RecordIsSound(log, k);
    if !BeforePosting(log[k].source) {
      var i := PostIndex(log, log[k].generation);
      assert PostOf(log[i], log[k].generation);
    }
  }

  /** Whatever the registered actions report from Verify, confirmed, pending or failed, it is not a rejection. */
  predicate RegisteredOutcome(outcome: string) {
    outcome != "rejected"
  }

  predicate RegisteredStep(step: Step) {
    step.VerifyEnds? && step.verified.Reports? ==> RegisteredOutcome(step.verified.result.outcome)
  }

  predicate VerificationsRegistered(log: seq<Event>) {
    forall k | 0 <= k < |log| && log[k].ResultRecorded? && log[k].source.Verification? ::
      RegisteredOutcome(log[k].result.outcome)
  }

  lemma PrepareKeepsRegistered(s: State, prepared: PrepareOutcome)
    requires ThreadsAgree(s) && s.game.Preparing? && VerificationsRegistered(s.log)
    ensures VerificationsRegistered(AfterPrepare(s, s.game.request, prepared).log)
  {
    PrepareFindsItsRequest(s, prepared);
  }

  lemma VerifyKeepsRegistered(s: State, verified: VerifyOutcome, timeoutDetail: string)
    requires ThreadsAgree(s) && s.game.Verifying? && VerificationsRegistered(s.log)
    requires RegisteredStep(VerifyEnds(verified, timeoutDetail))
    ensures VerificationsRegistered(AfterVerify(s, s.game.request, verified, timeoutDetail).log)
  {
    VerifyFindsItsRequest(s, verified, timeoutDetail);
  }

  lemma StepKeepsRegistered(p: Platform, s: State, step: Step)
    requires Inv(p, s) && Enabled(p, s, step) && RegisteredStep(step) && VerificationsRegistered(s.log)
    ensures VerificationsRegistered(Next(p, s, step).log)
  {
    hide LogInv;
    match step
    case PrepareEnds(prepared) => PrepareKeepsRegistered(s, prepared);
    case VerifyEnds(v, d) => VerifyKeepsRegistered(s, v, d);
    case Submit(ticket) => SubmitEffect(s, ticket);
    case _ =>
  }

  lemma {:induction false} RunKeepsRegistered(p: Platform, s: State, schedule: seq<Step>)
    requires Inv(p, s) && CanRun(p, s, schedule) && VerificationsRegistered(s.log)
    requires forall i | 0 <= i < |schedule| :: RegisteredStep(schedule[i])
    ensures VerificationsRegistered(Run(p, s, schedule).log)
    decreases |schedule|
  {
    if schedule != [] {
      StepKeepsInv(p, s, schedule[0]);
      StepKeepsRegistered(p, s, schedule[0]);
      RunKeepsRegistered(p, Next(p, s, schedule[0]), schedule[1..]);
    }
  }

  /** "rejected" means never posted and "confirmed" means posted once before, for the registered actions. */
  lemma OutcomesOfRegisteredActions(p: Platform, schedule: seq<Step>, k: nat)
    requires CanRun(p, INITIAL, schedule)
    requires forall i | 0 <= i < |schedule| :: RegisteredStep(schedule[i])
    requires var log := Run(p, INITIAL, schedule).log; k < |log| && log[k].ResultRecorded?
    ensures var log := Run(p, INITIAL, schedule).log;
            var e := log[k];
            && (e.result.outcome == "rejected" ==> NeverPosted(log, e.generation))
            && (e.result.outcome == "confirmed" ==>
                  exists i :: 0 <= i < k && PostOf(log[i], e.generation)
                              && forall j | 0 <= j < |log| && PostOf(log[j], e.generation) :: j == i)
  {
    hide CacheAgrees, CachedAreRecorded, RepostsAreSeparated, ThreadsAgree, Run, CanRun, PostsAgree;
    InitialRunKeepsInv(p, schedule);
    InitialHolds(p);
    RunKeepsRegistered(p, INITIAL, schedule);
    var log := Run(p, INITIAL, schedule).log;
    assert RecordIsSound(log, k);
    var i := PostIndex(log, log[k].generation);
  }

  // Two schedules that show where these readings of an outcome stop.

  function ThroughPosting(ticket: Ticket, verified: VerifyOutcome): seq<Step> {
    [Submit(ticket), BeginUpdate, PrepareEnds(Command), PostCommand, BeginVerify, VerifyEnds(verified, "")]
  }

  lemma RunStep(p: Platform, s: State, step: Step, rest: seq<Step>)
    requires Enabled(p, s, step) && CanRun(p, Next(p, s, step), rest)
    ensures CanRun(p, s, [step] + rest) && Run(p, s, [step] + rest) == Run(p, Next(p, s, step), rest)
  {
    assert ([step] + rest)[1..] == rest;
  }

  lemma SubmittedState(p: Platform, ticket: Ticket)
    ensures Next(p, INITIAL, Submit(ticket))
            == State(Slot(Some(Request(1, ticket, Pending, 0, Result("", ""))), None, 1), Idle,
                     Waiting(ticket, 1, RESPONSE_TIMEOUT), 0, [])
  {
  }

  function AtVerification(ticket: Ticket): State {
    var r := Request(1, ticket, Posted, EXECUTION_TIMEOUT, Result("", ""));
    State(Slot(Some(r), None, 1), Verifying(r), Waiting(ticket, 1, RESPONSE_TIMEOUT), 0,
          [CommandPosted(1, ticket, EXECUTION_TIMEOUT)])
  }

  lemma FromMarkToVerification(p: Platform, s: State, ticket: Ticket, rest: seq<Step>)
    requires s == State(Slot(Some(Request(1, ticket, Pending, 0, Result("", ""))), None, 1), Idle,
                        Waiting(ticket, 1, RESPONSE_TIMEOUT), 0, [])
    requires CanRun(p, AtVerification(ticket), rest)
    ensures var schedule := [BeginUpdate, PrepareEnds(Command), PostCommand, BeginVerify] + rest;
            CanRun(p, s, schedule) && Run(p, s, schedule) == Run(p, AtVerification(ticket), rest)
  {
    hide CanRun, Run, Next, Enabled, AtVerification;
    PreparesAndPosts(p, s, ticket);
    var s2 := Next(p, s, BeginUpdate);
    var s3 := Next(p, s2, PrepareEnds(Command));
    var s4 := Next(p, s3, PostCommand);
    RunStep(p, s4, BeginVerify, rest);
    RunStep(p, s3, PostCommand, [BeginVerify] + rest);
    RunStep(p, s2, PrepareEnds(Command), [PostCommand] + ([BeginVerify] + rest));
    RunStep(p, s, BeginUpdate, [PrepareEnds(Command)] + ([PostCommand] + ([BeginVerify] + rest)));
    FourThenRest(BeginUpdate, PrepareEnds(Command), PostCommand, BeginVerify, rest);
  }

  lemma FourThenRest(a: Step, b: Step, c: Step, d: Step, rest: seq<Step>)
    ensures [a, b, c, d] + rest == [a] + ([b] + ([c] + ([d] + rest)))
  {
  }

  /** The four steps of the game thread from a fresh request to the verification of its posted command. */
  lemma PreparesAndPosts(p: Platform, s: State, ticket: Ticket)
    requires s == State(Slot(Some(Request(1, ticket, Pending, 0, Result("", ""))), None, 1), Idle,
                        Waiting(ticket, 1, RESPONSE_TIMEOUT), 0, [])
    ensures Enabled(p, s, BeginUpdate)
    ensures var s2 := Next(p, s, BeginUpdate);
            && Enabled(p, s2, PrepareEnds(Command))
            && var s3 := Next(p, s2, PrepareEnds(Command));
               && Enabled(p, s3, PostCommand)
               && var s4 := Next(p, s3, PostCommand);
                  Enabled(p, s4, BeginVerify) && Next(p, s4, BeginVerify) == AtVerification(ticket)
  {
  }

  lemma PostedState(p: Platform, ticket: Ticket, verified: VerifyOutcome)
    requires Possible(p, VerifyEnds(verified, ""))
    ensures CanRun(p, INITIAL, ThroughPosting(ticket, verified))
    ensures Run(p, INITIAL, ThroughPosting(ticket, verified))
            == Next(p, AtVerification(ticket), VerifyEnds(verified, ""))
  {
    var last := VerifyEnds(verified, "");
    var s := Next(p, INITIAL, Submit(ticket));
    SubmittedState(p, ticket);
    RunStep(p, AtVerification(ticket), last, []);
    FromMarkToVerification(p, s, ticket, [last]);
    var rest := [BeginUpdate, PrepareEnds(Command), PostCommand, BeginVerify] + [last];
    RunStep(p, INITIAL, Submit(ticket), rest);
    assert ThroughPosting(ticket, verified) == [Submit(ticket)] + rest;
  }

  /** A verifier that throws leaves "failed" on a generation that was posted. */
  lemma FailedMayBePosted(ticket: Ticket)
    ensures var schedule := ThroughPosting(ticket, VerifyThrows);
            && CanRun(Linux, INITIAL, schedule)
            && var log := Run(Linux, INITIAL, schedule).log;
               |log| == 2 && PostOf(log[0], 1) && RecordOf(log[1], 1) && log[1].result.outcome == "failed"
  {
    PostedState(Linux, ticket, VerifyThrows);
  }

  /** Without the restriction to registered actions a posted generation may end as "rejected". */
  lemma RejectedMayBePosted(p: Platform, ticket: Ticket)
    ensures var schedule := ThroughPosting(ticket, Reports(Result("rejected", "")));
            && CanRun(p, INITIAL, schedule)
            && var log := Run(p, INITIAL, schedule).log;
               |log| == 2 && PostOf(log[0], 1) && RecordOf(log[1], 1) && log[1].result.outcome == "rejected"
  {
    PostedState(p, ticket, Reports(Result("rejected", "")));
  }

  // ---------------------------------------------------------------------------------------------
  // Phases

  function Rank(phase: Phase): nat {
    match phase case Pending => 0 case Posted => 1 case Done => 2
  }

  /** How a later slot may look when it still holds a generation of an earlier one. */
  predicate Advanced(before: Request, after: Request) {
    && after.ticket == before.ticket
    && Rank(before.phase) <= Rank(after.phase)
    && (before.phase == Done ==> after == before)
  }

  lemma StepAdvances(p: Platform, s: State, step: Step)
    requires Inv(p, s) && Enabled(p, s, step)
    ensures var s' := Next(p, s, step);
            && s.slot.generation <= s'.slot.generation
            && (s.slot.active.Some? && Holds(s'.slot, s.slot.active.value.generation) ==>
                  Advanced(s.slot.active.value, s'.slot.active.value))
            && (s'.slot.active.Some? && !Holds(s.slot, s'.slot.active.value.generation) ==>
                  s'.slot.active.value.generation == s.slot.generation + 1)
  {
    match step
    case PrepareEnds(prepared) => PrepareFindsItsRequest(s, prepared);
    case VerifyEnds(v, d) => VerifyFindsItsRequest(s, v, d);
    case Submit(ticket) => SubmitEffect(s, ticket);
    case _ =>
  }

  lemma {:induction false} GoneStaysGone(p: Platform, s: State, schedule: seq<Step>, g: nat)
    requires Inv(p, s) && CanRun(p, s, schedule) && g <= s.slot.generation && !Holds(s.slot, g)
    ensures !Holds(Run(p, s, schedule).slot, g)
    decreases |schedule|
  {
    if schedule != [] {
      StepKeepsInv(p, s, schedule[0]);
      StepAdvances(p, s, schedule[0]);
      GoneStaysGone(p, Next(p, s, schedule[0]), schedule[1..], g);
    }
  }

  /** Over any stretch of a run, a generation only moves forward and a recorded result does not change. */
  lemma {:induction false} PhasesOnlyAdvance(p: Platform, s: State, schedule: seq<Step>)
    requires Inv(p, s) && CanRun(p, s, schedule) && s.slot.active.Some?
    ensures var before := s.slot.active.value;
            var later := Run(p, s, schedule).slot;
            Holds(later, before.generation) ==> Advanced(before, later.active.value)
    decreases |schedule|
  {
    if schedule != [] {
      var s' := Next(p, s, schedule[0]);
      StepKeepsInv(p, s, schedule[0]);
      StepAdvances(p, s, schedule[0]);
      if Holds(s'.slot, s.slot.active.value.generation) {
        PhasesOnlyAdvance(p, s', schedule[1..]);
      } else {
        GoneStaysGone(p, s', schedule[1..], s.slot.active.value.generation);
      }
    }
  }

  /** Once its deadline has passed, a posted request is closed by the next verification, whatever it finds. */
  lemma ExpiredRequestCloses(p: Platform, s: State, verified: VerifyOutcome, timeoutDetail: string)
    requires Inv(p, s) && Enabled(p, s, VerifyEnds(verified, timeoutDetail)) && s.now >= s.slot.active.value.deadline
    ensures Ready(Next(p, s, VerifyEnds(verified, timeoutDetail)).slot, s.slot.active.value.generation)
  {
    VerifyFindsItsRequest(s, verified, timeoutDetail);
  }

  // ---------------------------------------------------------------------------------------------
  // Repeated requests

  /** Every cached response was built from the result that was recorded for its generation. */
  lemma CachedResponseIsTheRecordedResult(p: Platform, schedule: seq<Step>, c: nat)
    requires CanRun(p, INITIAL, schedule)
    requires var log := Run(p, INITIAL, schedule).log; c < |log| && log[c].ResultCached?
    ensures var log := Run(p, INITIAL, schedule).log;
            var e := log[c];
            && e.response == BuildResponse(Request(e.generation, e.ticket, Done, 0, e.result), p)
            && exists k :: 0 <= k < c && RecordOf(log[k], e.generation) && log[k].result == e.result
  {
    InitialRunKeepsInv(p, schedule);
    var log := Run(p, INITIAL, schedule).log;
    assert CachedIsRecorded(p, log, c);
    var k :| 0 <= k < c && RecordOf(log[..c][k], log[c].generation) && log[..c][k].result == log[c].result;
    assert log[k] == log[..c][k];
  }

  predicate TabFree(ticket: Ticket) {
    Without(ticket.actionType, '\t') && Without(ticket.targetEcho, '\t')
  }

  /** Resending the id in the cache: same fingerprint, same response; else a conflict. */
  lemma CachedIdIsReplayed(s: State, ticket: Ticket)
    requires s.slot.last.Some? && s.slot.last.value.requestId == ticket.requestId
    ensures var answer := if s.slot.last.value.fingerprint == ticket.Print() then Whole(s.slot.last.value.response)
                          else Immediate("conflict", "request_id_payload_conflict");
            AfterSubmit(s, ticket) == s.(log := s.log + [Answered(ticket, answer)])
  {
  }

  lemma ResendCached(s: State, c: nat, ticket: Ticket)
    requires CacheAgrees(s.slot, s.log) && c < |s.log| && s.log[c].ResultCached?
    requires forall i | c < i < |s.log| :: !s.log[i].ResultCached?
    requires ticket.requestId == s.log[c].ticket.requestId && TabFree(ticket) && TabFree(s.log[c].ticket)
    ensures var answer := if ticket == s.log[c].ticket then Whole(s.log[c].response)
                          else Immediate("conflict", "request_id_payload_conflict");
            AfterSubmit(s, ticket) == s.(log := s.log + [Answered(ticket, answer)])
  {
    var t := s.log[c].ticket;
    assert CachedUpTo(s.log) == c + 1;
    FingerprintInjective(ticket.actionType, ticket.countryId, ticket.targetEcho, t.actionType, t.countryId, t.targetEcho);
    CachedIdIsReplayed(s, ticket);
  }

  /**
   * Sending the latest completed id again, after any schedule: the same action, country and echo get the very
   * response that was cached, anything else a conflict; neither changes the slot.
   */
  lemma ResendLatest(p: Platform, schedule: seq<Step>, c: nat, ticket: Ticket)
    requires CanRun(p, INITIAL, schedule)
    requires var s := Run(p, INITIAL, schedule);
             && s.server.Accepting? && c < |s.log| && s.log[c].ResultCached?
             && (forall i | c < i < |s.log| :: !s.log[i].ResultCached?)
             && ticket.requestId == s.log[c].ticket.requestId && TabFree(ticket) && TabFree(s.log[c].ticket)
    ensures var s := Run(p, INITIAL, schedule);
            var answer := if ticket == s.log[c].ticket then Whole(s.log[c].response)
                          else Immediate("conflict", "request_id_payload_conflict");
            Next(p, s, Submit(ticket)) == s.(log := s.log + [Answered(ticket, answer)])
  {
    InitialRunKeepsInv(p, schedule);
    ResendCached(Run(p, INITIAL, schedule), c, ticket);
  }

  /** Replies given at once never change the slot, the game thread or the clock. */
  lemma ImmediateAnswersChangeNothing(p: Platform, s: State, ticket: Ticket)
    requires Enabled(p, s, Submit(ticket))
    requires Next(p, s, Submit(ticket)).server.Accepting?
    ensures exists answer :: Next(p, s, Submit(ticket)) == s.(log := s.log + [Answered(ticket, answer)])
  {
    match Admit(s.slot, ticket).0
    case Replay(response) =>
      assert Next(p, s, Submit(ticket)) == s.(log := s.log + [Answered(ticket, Whole(response))]);
    case Refused(o, d) =>
      assert Next(p, s, Submit(ticket)) == s.(log := s.log + [Answered(ticket, Immediate(o, d))]);
  }

  /** Steps of the game thread and the clock. */
  predicate NotServer(step: Step) {
    !step.Submit? && !step.CollectDone? && !step.GiveUp?
  }

  lemma GameStepKeepsGeneration(p: Platform, s: State, step: Step)
    requires Inv(p, s) && Enabled(p, s, step) && NotServer(step) && s.slot.active.Some?
    ensures var s' := Next(p, s, step);
            && s'.slot.active.Some? && s'.slot.active.value.generation == s.slot.active.value.generation
            && s'.slot.active.value.ticket == s.slot.active.value.ticket
            && s'.slot.last == s.slot.last && s'.server == s.server
  {
    match step
    case PrepareEnds(prepared) => PrepareFindsItsRequest(s, prepared);
    case VerifyEnds(v, d) => VerifyFindsItsRequest(s, v, d);
    case _ =>
  }

  lemma {:induction false} GameRunKeepsGeneration(p: Platform, s: State, schedule: seq<Step>)
    requires Inv(p, s) && CanRun(p, s, schedule) && s.slot.active.Some?
    requires forall i | 0 <= i < |schedule| :: NotServer(schedule[i])
    ensures var s' := Run(p, s, schedule);
            && s'.slot.active.Some? && s'.slot.active.value.generation == s.slot.active.value.generation
            && s'.slot.active.value.ticket == s.slot.active.value.ticket
            && s'.slot.last == s.slot.last && s'.server == s.server
    decreases |schedule|
  {
    if schedule != [] {
      StepKeepsInv(p, s, schedule[0]);
      GameStepKeepsGeneration(p, s, schedule[0]);
      GameRunKeepsGeneration(p, Next(p, s, schedule[0]), schedule[1..]);
    }
  }

  /** The request that waits for a generation, sent once more, waits for that same generation. */
  lemma SameRequestWaitsAgain(p: Platform, s: State, ticket: Ticket)
    requires ThreadsAgree(s) && s.slot.active.Some? && s.server.Accepting?
    requires s.slot.active.value.ticket.requestId == ticket.requestId
    requires s.slot.active.value.ticket.Print() == ticket.Print()
    ensures Next(p, s, Submit(ticket))
            == s.(server := Waiting(ticket, s.slot.active.value.generation, s.now + RESPONSE_TIMEOUT))
  {
  }

  lemma GiveUpFrees(p: Platform, s: State)
    requires Inv(p, s) && Enabled(p, s, GiveUp)
    ensures var s' := Next(p, s, GiveUp); s'.slot == s.slot && s'.server.Accepting? && Inv(p, s')
    ensures s.slot.active.Some? && s.slot.active.value.generation == s.server.generation
    ensures s.slot.active.value.ticket.requestId == s.server.ticket.requestId
    ensures s.slot.active.value.ticket.Print() == s.server.ticket.Print()
  {
    GiveUpKeeps(p, s);
  }

  lemma RunKeepsThreads(p: Platform, s: State, schedule: seq<Step>)
    requires Inv(p, s) && CanRun(p, s, schedule)
    ensures ThreadsAgree(Run(p, s, schedule))
  {
    RunKeepsInv(p, s, schedule);
  }

  lemma ResumeLater(p: Platform, s: State, schedule: seq<Step>, ticket: Ticket)
    requires Inv(p, s) && CanRun(p, s, schedule)
    requires forall i | 0 <= i < |schedule| :: NotServer(schedule[i])
    requires s.slot.active.Some? && s.server.Accepting?
    requires s.slot.active.value.ticket.requestId == ticket.requestId
    requires s.slot.active.value.ticket.Print() == ticket.Print()
    ensures Resumes(p, Run(p, s, schedule), ticket, s.slot.active.value.generation)
  {
    GameRunKeepsGeneration(p, s, schedule);
    RunKeepsThreads(p, s, schedule);
    SameRequestWaitsAgain(p, Run(p, s, schedule), ticket);
  }

  /** Sending the ticket now waits for the given generation and leaves the slot as it is. */
  predicate Resumes(p: Platform, s: State, ticket: Ticket, generation: nat) {
    && s.server.Accepting?
    && Next(p, s, Submit(ticket)) == s.(server := Waiting(ticket, generation, s.now + RESPONSE_TIMEOUT))
  }

  /** After a wait timeout the same request, sent later, waits for the generation it already had. */
  lemma TimeoutThenResume(p: Platform, s: State, schedule: seq<Step>)
    requires Inv(p, s) && Enabled(p, s, GiveUp)
    requires CanRun(p, Next(p, s, GiveUp), schedule)
    requires forall i | 0 <= i < |schedule| :: NotServer(schedule[i])
    ensures Next(p, s, GiveUp).slot == s.slot
    ensures Resumes(p, Run(p, Next(p, s, GiveUp), schedule), s.server.ticket, s.server.generation)
  {
    GiveUpFrees(p, s);
    ResumeLater(p, Next(p, s, GiveUp), schedule, s.server.ticket);
  }

  // ---------------------------------------------------------------------------------------------
  // Every request that reaches the lock is answered exactly once

  function Submissions(schedule: seq<Step>): nat {
    if schedule == [] then 0 else (if schedule[0].Submit? then 1 else 0) + Submissions(schedule[1..])
  }

  function Answers(log: seq<Event>): nat {
    if log == [] then 0 else (if log[|log| - 1].Answered? then 1 else 0) + Answers(log[..|log| - 1])
  }

  function Outstanding(s: State): nat {
    Answers(s.log) + if s.server.Waiting? then 1 else 0
  }

  lemma AnswersAppend(log: seq<Event>, e: Event)
    ensures Answers(log + [e]) == Answers(log) + if e.Answered? then 1 else 0
  {
    assert (log + [e])[..|log|] == log;
  }

  lemma PrepareCountsAnswers(s: State, prepared: PrepareOutcome)
    requires ThreadsAgree(s) && s.game.Preparing?
    ensures Outstanding(AfterPrepare(s, s.game.request, prepared)) == Outstanding(s)
  {
    var s' := AfterPrepare(s, s.game.request, prepared);
    PrepareFindsItsRequest(s, prepared);
    if |s'.log| > |s.log| {
      AnswersAppend(s.log, s'.log[|s.log|]);
    }
  }

  lemma VerifyCountsAnswers(s: State, verified: VerifyOutcome, timeoutDetail: string)
    requires ThreadsAgree(s) && s.game.Verifying?
    ensures Outstanding(AfterVerify(s, s.game.request, verified, timeoutDetail)) == Outstanding(s)
  {
    var s' := AfterVerify(s, s.game.request, verified, timeoutDetail);
    VerifyFindsItsRequest(s, verified, timeoutDetail);
    if |s'.log| > |s.log| {
      AnswersAppend(s.log, s'.log[|s.log|]);
    }
  }

  lemma SubmitCountsAnswers(s: State, ticket: Ticket)
    requires s.server.Accepting?
    ensures Outstanding(AfterSubmit(s, ticket)) == Outstanding(s) + 1
  {
    match Admit(s.slot, ticket).0
    case Replay(response) => AnswersAppend(s.log, Answered(ticket, Whole(response)));
    case Refused(o, d) => AnswersAppend(s.log, Answered(ticket, Immediate(o, d)));
    case Await(_) =>
  }

  lemma CollectCountsAnswers(p: Platform, s: State)
    requires Enabled(p, s, CollectDone)
    ensures Outstanding(AfterCollect(p, s)) == Outstanding(s)
  {
    var s' := AfterCollect(p, s);
    AnswersAppend(s.log, s'.log[|s.log|]);
    AnswersAppend(s.log + [s'.log[|s.log|]], s'.log[|s.log| + 1]);
  }

  lemma OtherStepCountsAnswers(p: Platform, s: State, step: Step)
    requires Enabled(p, s, step)
    requires step.Tick? || step.BeginUpdate? || step.BeginVerify? || step.PostCommand? || step.GiveUp?
    ensures Outstanding(Next(p, s, step)) == Outstanding(s)
  {
    var s' := Next(p, s, step);
    if |s'.log| > |s.log| {
      AnswersAppend(s.log, s'.log[|s.log|]);
    }
  }

  lemma StepCountsAnswers(p: Platform, s: State, step: Step)
    requires Inv(p, s) && Enabled(p, s, step)
    ensures Outstanding(Next(p, s, step)) == Outstanding(s) + if step.Submit? then 1 else 0
  {
    match step
    case PrepareEnds(prepared) => PrepareCountsAnswers(s, prepared);
    case VerifyEnds(v, d) => VerifyCountsAnswers(s, v, d);
    case Submit(ticket) => SubmitCountsAnswers(s, ticket);
    case CollectDone => CollectCountsAnswers(p, s);
    case _ => OtherStepCountsAnswers(p, s, step);
  }

  lemma {:induction false} RunCountsAnswers(p: Platform, s: State, schedule: seq<Step>)
    requires Inv(p, s) && CanRun(p, s, schedule)
    ensures Outstanding(Run(p, s, schedule)) == Outstanding(s) + Submissions(schedule)
    decreases |schedule|
  {
    if schedule != [] {
      StepKeepsInv(p, s, schedule[0]);
      StepCountsAnswers(p, s, schedule[0]);
      RunCountsAnswers(p, Next(p, s, schedule[0]), schedule[1..]);
    }
  }

  lemma AnsweredExactlyOnce(p: Platform, schedule: seq<Step>)
    requires CanRun(p, INITIAL, schedule)
    ensures var s := Run(p, INITIAL, schedule);
            Answers(s.log) + (if s.server.Waiting? then 1 else 0) == Submissions(schedule)
  {
    assert Inv(p, INITIAL);
    RunCountsAnswers(p, INITIAL, schedule);
  }
}
