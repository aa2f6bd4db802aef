/** Every answer that a run of the native runtime gives is one well-framed line addressed to its request. */
module RuntimeAnswers {
  import opened TabProtocol
  import opened RuntimeSlot
  import opened RuntimeRuns
  import opened RuntimeSafety
  import opened RuntimeFrontEnd

  /** What the front end lets in, and what an action may report: parts without tab or line end. */
  predicate CleanStep(step: Step) {
    match step
    case Submit(ticket) => TicketIsClean(ticket)
    case VerifyEnds(verified, _) => verified.Reports? ==> Clean(verified.result.outcome)
    case _ => true
  }

  predicate Addresses(response: string, ticket: Ticket) {
    AnswersRequest(response, ticket.requestId, ticket.actionType)
  }

  predicate Framed(p: Platform, e: Event) {
    e.Answered? ==> Addresses(AnswerLine(p, e.ticket, e.answer), e.ticket)
  }

  predicate AllFramed(p: Platform, log: seq<Event>) {
    forall i | 0 <= i < |log| :: Framed(p, log[i])
  }

  /** The active request can be echoed, and so can its result once there is one. */
  predicate ActiveIsClean(slot: Slot) {
    slot.active.Some? ==>
      && TicketIsClean(slot.active.value.ticket)
      && (slot.active.value.phase == Done ==> Clean(slot.active.value.result.outcome))
  }

  /** Whoever the cached response may be replayed to, it is addressed to that one. */
  ghost predicate CacheIsAddressed(slot: Slot) {
    slot.last.Some? ==>
      forall ticket: Ticket | TicketIsClean(ticket) && MatchesCache(slot.last.value, ticket) ::
        Addresses(slot.last.value.response, ticket)
  }

  predicate MatchesCache(cached: CachedResult, ticket: Ticket) {
    cached.requestId == ticket.requestId && cached.fingerprint == ticket.Print()
  }

  ghost predicate AnswersInv(p: Platform, s: State) {
    && ActiveIsClean(s.slot)
    && CacheIsAddressed(s.slot)
    && (s.server.Waiting? ==> TicketIsClean(s.server.ticket))
    && AllFramed(p, s.log)
  }

  // ---------------------------------------------------------------------------------------------
  // The fingerprint tells whose response it is

  /** Clean tickets with the same id and fingerprint are the same ticket. */
  lemma SamePrintSameTicket(a: Ticket, b: Ticket)
    requires TicketIsClean(a) && TicketIsClean(b) && a.requestId == b.requestId && a.Print() == b.Print()
    ensures a == b
  {
    TokensAreClean(a.targetEcho, 160);
    TokensAreClean(b.targetEcho, 160);
    FingerprintInjective(a.actionType, a.countryId, a.targetEcho, b.actionType, b.countryId, b.targetEcho);
  }

  lemma CollectedIsAddressed(p: Platform, slot: Slot)
    requires slot.active.Some? && ActiveIsClean(slot) && slot.active.value.phase == Done
    ensures CacheIsAddressed(Collect(slot, p))
    ensures Addresses(Collect(slot, p).last.value.response, slot.active.value.ticket)
  {
    var request := slot.active.value;
    FinishedIsFramed(p, request);
    var cached := Collect(slot, p).last.value;
    forall ticket: Ticket | TicketIsClean(ticket) && MatchesCache(cached, ticket)
      ensures Addresses(cached.response, ticket)
    {
      SamePrintSameTicket(ticket, request.ticket);
    }
  }

  lemma ImmediateIsAddressed(p: Platform, ticket: Ticket, outcome: string, detail: string)
    requires TicketIsClean(ticket) && Clean(outcome)
    ensures Framed(p, Answered(ticket, Immediate(outcome, detail)))
  {
    TokensAreClean(ticket.requestId, 96);
    ImmediateIsFramed(p, ticket.requestId, ticket.actionType, outcome, detail);
  }

  // ---------------------------------------------------------------------------------------------
  // Every step

  /** A step that only closes, marks or leaves the active request and answers nobody. */
  lemma QuietKeeps(p: Platform, s: State, s': State)
    requires AnswersInv(p, s) && ActiveIsClean(s'.slot)
    requires s'.slot.last == s.slot.last && s'.server == s.server
    requires s'.log == s.log || (|s'.log| == |s.log| + 1 && s'.log[..|s.log|] == s.log && !s'.log[|s.log|].Answered?)
    ensures AnswersInv(p, s')
  {
    forall i | 0 <= i < |s'.log|
      ensures Framed(p, s'.log[i])
    {
      if i < |s.log| {
        assert s'.log[..|s.log|][i] == s'.log[i];
      }
    }
  }

  lemma PrepareKeepsAnswers(p: Platform, s: State, prepared: PrepareOutcome)
    requires Inv(p, s) && AnswersInv(p, s) && s.game.Preparing?
    ensures AnswersInv(p, AfterPrepare(s, s.game.request, prepared))
  {
    PrepareFindsItsRequest(s, prepared);
    OutcomesAreClean();
    QuietKeeps(p, s, AfterPrepare(s, s.game.request, prepared));
  }

  lemma VerifyKeepsAnswers(p: Platform, s: State, verified: VerifyOutcome, timeoutDetail: string)
    requires Inv(p, s) && AnswersInv(p, s) && s.game.Verifying? && CleanStep(VerifyEnds(verified, timeoutDetail))
    ensures AnswersInv(p, AfterVerify(s, s.game.request, verified, timeoutDetail))
  {
    VerifyFindsItsRequest(s, verified, timeoutDetail);
    OutcomesAreClean();
    QuietKeeps(p, s, AfterVerify(s, s.game.request, verified, timeoutDetail));
  }

  lemma AnswerKeepsAnswers(p: Platform, log: seq<Event>, e: Event)
    requires AllFramed(p, log) && Framed(p, e)
    ensures AllFramed(p, log + [e])
  {
  }

  lemma SubmitKeepsAnswers(p: Platform, s: State, ticket: Ticket)
    requires AnswersInv(p, s) && s.server.Accepting? && TicketIsClean(ticket)
    ensures AnswersInv(p, AfterSubmit(s, ticket))
  {
    OutcomesAreClean();
    match Admit(s.slot, ticket).0
    case Replay(response) =>
      assert MatchesCache(s.slot.last.value, ticket);
      AnswerKeepsAnswers(p, s.log, Answered(ticket, Whole(response)));
    case Refused(outcome, detail) =>
      ImmediateIsAddressed(p, ticket, outcome, detail);
      AnswerKeepsAnswers(p, s.log, Answered(ticket, Immediate(outcome, detail)));
    case Await(_) =>
  }

  lemma CollectKeepsAnswers(p: Platform, s: State)
    requires Inv(p, s) && AnswersInv(p, s) && Enabled(p, s, CollectDone)
    ensures AnswersInv(p, AfterCollect(p, s))
  {
    var r := s.slot.active.value;
    CollectedIsAddressed(p, s.slot);
    SamePrintSameTicket(s.server.ticket, r.ticket);
    var cached := ResultCached(r.generation, r.ticket, r.result, BuildResponse(r, p));
    AnswerKeepsAnswers(p, s.log, cached);
    AnswerKeepsAnswers(p, s.log + [cached], Answered(s.server.ticket, Whole(BuildResponse(r, p))));
  }

  lemma GiveUpKeepsAnswers(p: Platform, s: State)
    requires AnswersInv(p, s) && Enabled(p, s, GiveUp)
    ensures AnswersInv(p, Next(p, s, GiveUp))
  {
    OutcomesAreClean();
    ImmediateIsAddressed(p, s.server.ticket, "pending", "runtime_response_timeout");
    AnswerKeepsAnswers(p, s.log, Answered(s.server.ticket, Immediate("pending", "runtime_response_timeout")));
  }

  lemma StepKeepsAnswers(p: Platform, s: State, step: Step)
    requires Inv(p, s) && AnswersInv(p, s) && Enabled(p, s, step) && CleanStep(step)
    ensures AnswersInv(p, Next(p, s, step))
  {
    match step
    case Submit(ticket) => SubmitKeepsAnswers(p, s, ticket);
    case CollectDone => CollectKeepsAnswers(p, s);
    case GiveUp => GiveUpKeepsAnswers(p, s);
    case PrepareEnds(prepared) => PrepareKeepsAnswers(p, s, prepared);
    case VerifyEnds(v, d) => VerifyKeepsAnswers(p, s, v, d);
    case _ => QuietKeeps(p, s, Next(p, s, step));
  }

  lemma {:induction false} RunKeepsAnswers(p: Platform, s: State, schedule: seq<Step>)
    requires Inv(p, s) && AnswersInv(p, s) && CanRun(p, s, schedule)
    requires forall i | 0 <= i < |schedule| :: CleanStep(schedule[i])
    ensures AnswersInv(p, Run(p, s, schedule))
    decreases |schedule|
  {
    if schedule != [] {
      StepKeepsInv(p, s, schedule[0]);
      StepKeepsAnswers(p, s, schedule[0]);
      RunKeepsAnswers(p, Next(p, s, schedule[0]), schedule[1..]);
    }
  }

  // ---------------------------------------------------------------------------------------------
  // Whole runs

  /**
   * In every schedule every answer given under the lock, a new result, a replayed one, a refusal or a timeout, is one
   * well-framed line with the id and the action of the request that it answers.
   */
  lemma EveryTicketIsAnswered(p: Platform, schedule: seq<Step>, k: nat)
    requires CanRun(p, INITIAL, schedule) && forall i | 0 <= i < |schedule| :: CleanStep(schedule[i])
    requires var log := Run(p, INITIAL, schedule).log; k < |log| && log[k].Answered?
    ensures var e := Run(p, INITIAL, schedule).log[k];
            AnswersRequest(AnswerLine(p, e.ticket, e.answer), e.ticket.requestId, e.ticket.actionType)
  {
    assert Inv(p, INITIAL) && AnswersInv(p, INITIAL);
    RunKeepsAnswers(p, INITIAL, schedule);
    assert Framed(p, Run(p, INITIAL, schedule).log[k]);
  }

  /** A ticket that the front end makes of some line. */
  ghost predicate SentBy(p: Platform, handlers: Handlers, ticket: Ticket) {
    exists line: string :: Without(line, '\n') && HandleRequest(p, handlers, line) == Enter(ticket)
  }

  /** From line to line: when every submission comes through the front end, nothing is asked of what clients send. */
  lemma EveryEnteredLineIsAnswered(p: Platform, handlers: Handlers, schedule: seq<Step>, k: nat)
    requires CanRun(p, INITIAL, schedule)
    requires forall i | 0 <= i < |schedule| ::
               if schedule[i].Submit? then SentBy(p, handlers, schedule[i].ticket) else CleanStep(schedule[i])
    requires var log := Run(p, INITIAL, schedule).log; k < |log| && log[k].Answered?
    ensures var e := Run(p, INITIAL, schedule).log[k];
            AnswersRequest(AnswerLine(p, e.ticket, e.answer), e.ticket.requestId, e.ticket.actionType)
  {
    forall i | 0 <= i < |schedule|
      ensures CleanStep(schedule[i])
    {
      if schedule[i].Submit? {
        var line: string :| Without(line, '\n') && HandleRequest(p, handlers, line) == Enter(schedule[i].ticket);
        DecisionIsAddressed(p, handlers, line);
      }
    }
    EveryTicketIsAnswered(p, schedule, k);
  }
}
