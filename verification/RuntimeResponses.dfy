/** What the responses of the native runtime say, field by field, over every schedule. */
module RuntimeResponses {
  import opened Basics
  import opened TabProtocol
  import opened RuntimeSlot
  import opened RuntimeRuns
  import opened RuntimeSafety
  import opened RuntimeFrontEnd
  import opened RuntimeAnswers
  import ManifestReader
  import JsonReader

  // ---------------------------------------------------------------------------------------------
  // Reading a response

  /** The fields of a response without its line end. */
  predicate SaysFields(response: string, fields: seq<string>) {
    response != "" && response[|response| - 1] == '\n' && Fields(response[..|response| - 1]) == fields
  }

  function BuildName(platform: Platform): string {
    match platform
    case Linux => "c6969e60fd81d738948222a94c0b5a0841abbffc"
    case Windows => "stellaris-4.4.6-windows-steam-24109497-bc451c72"
  }

  lemma BuildIdIsName(platform: Platform)
    ensures BuildId(platform) == BuildName(platform)
  {
    match platform
    case Linux => LinuxName();
    case Windows => WindowsName();
  }

  lemma LinuxName()
    ensures "c6969e60fd81d7389482" + "22a94c0b5a0841abbffc" == "c6969e60fd81d738948222a94c0b5a0841abbffc"
  {
  }

  lemma WindowsName()
    ensures "stellaris-4.4.6" + "-windows-steam" + "-24109497-bc451c72"
            == "stellaris-4.4.6-windows-steam-24109497-bc451c72"
  {
  }

  /** The fields that report a result to the request that asked for it. */
  function ResultFields(p: Platform, ticket: Ticket, result: Result): seq<string> {
    ["IAG1", ticket.requestId, ticket.actionType, result.outcome, BuildName(p), Decimal(ticket.countryId),
     ticket.targetEcho, SanitizeDetail(result.detail)]
  }

  /** The fields of an answer that no result stands behind. */
  function ImmediateFields(p: Platform, id: string, action: string, outcome: string, detail: string): seq<string> {
    ["IAG1", id, action, outcome, BuildName(p), "0", "-", SanitizeDetail(detail)]
  }

  lemma PartsSay(
    id: string, action: string, outcome: string, buildId: string, country: string, echo: string, detail: string)
    requires Clean(id) && Clean(action) && Clean(outcome) && Clean(buildId)
    requires Clean(country) && Clean(echo) && Clean(detail)
    ensures SaysFields(
              ResponseLine(id, action, outcome, buildId, country, echo, detail),
              ["IAG1", id, action, outcome, buildId, country, echo, detail])
  {
    ResponseFraming(id, action, outcome, buildId, country, echo, detail);
  }

  lemma BuiltResponseSays(p: Platform, request: Request)
    requires TicketIsClean(request.ticket) && Clean(request.result.outcome)
    ensures SaysFields(BuildResponse(request, p), ResultFields(p, request.ticket, request.result))
  {
    hide SaysFields, ResponseLine, BuildId, BuildName, Clean;
    var ticket := request.ticket;
    TicketParts(ticket);
    BuildIdIsClean(p);
    BuildIdIsName(p);
    CleanDetail(request.result.detail);
    PartsSay(
      ticket.requestId, ticket.actionType, request.result.outcome, BuildId(p), Decimal(ticket.countryId),
      ticket.targetEcho, SanitizeDetail(request.result.detail));
  }

  lemma TicketParts(ticket: Ticket)
    requires TicketIsClean(ticket)
    ensures Clean(ticket.requestId) && Clean(ticket.actionType) && Clean(ticket.targetEcho)
    ensures Clean(Decimal(ticket.countryId))
  {
    TokensAreClean(ticket.requestId, 96);
    TokensAreClean(ticket.targetEcho, 160);
    DigitsAreClean(Decimal(ticket.countryId));
  }

  lemma CleanDetail(detail: string)
    ensures Clean(SanitizeDetail(detail))
  {
  }

  lemma PlainFieldsAreClean()
    ensures Clean("0") && Clean("-") && Clean("confirmed") && Clean("runtime_tool_manifest") && Clean("describe_tools")
  {
    ManifestWordIsClean();
    DescribeWordIsClean();
  }

  lemma ManifestWordIsClean()
    ensures Clean("runtime_tool_manifest")
  {
  }

  lemma DescribeWordIsClean()
    ensures Clean("describe_tools")
  {
  }

  lemma ImmediateSays(p: Platform, id: string, action: string, outcome: string, detail: string)
    requires Clean(id) && Clean(action) && Clean(outcome)
    ensures SaysFields(
              ImmediateResponse(id, action, outcome, detail, BuildId(p)), ImmediateFields(p, id, action, outcome, detail))
  {
    hide SaysFields, ResponseLine, BuildId, BuildName, Clean;
    BuildIdIsClean(p);
    BuildIdIsName(p);
    CleanDetail(detail);
    PlainFieldsAreClean();
    PartsSay(id, action, outcome, BuildId(p), "0", "-", SanitizeDetail(detail));
  }

  /** The manifest travels in the place of the echo. */
  lemma ManifestSays(p: Platform, handlers: Handlers, id: string)
    requires Clean(id)
    ensures SaysFields(
              Reply(p, handlers, Manifest(id)),
              ["IAG1", id, "describe_tools", "confirmed", BuildName(p), "0", ManifestText(handlers),
               "runtime_tool_manifest"])
  {
    hide SaysFields, ResponseLine, BuildId, BuildName, Clean, ManifestText;
    BuildIdIsClean(p);
    BuildIdIsName(p);
    PlainFieldsAreClean();
    ManifestTextIsClean(handlers);
    PartsSay(id, "describe_tools", "confirmed", BuildId(p), "0", ManifestText(handlers), "runtime_tool_manifest");
  }

  /** What a client that asks for the tools reads in that field: the profile and every supported tool. */
  lemma ManifestReplyReadsBack(p: Platform, handlers: Handlers, id: string)
    requires Clean(id)
    ensures exists text ::
              && SaysFields(
                   Reply(p, handlers, Manifest(id)),
                   ["IAG1", id, "describe_tools", "confirmed", BuildName(p), "0", text, "runtime_tool_manifest"])
              && JsonReader.Parse(text).Some?
              && ManifestReader.ReadManifest(JsonReader.Parse(text).value)
                 == Some(ManifestReader.ToolManifest(
                      handlers.profile.platformId, handlers.profile.gameVersion, handlers.profile.buildId,
                      ManifestReader.SupportedTools(ActionRegistry.Catalogue(handlers.registered), handlers.supported)))
  {
    hide SaysFields, Reply, BuildName, ManifestReader.ReadManifest, ManifestReader.SupportedTools, JsonReader.Parse;
    ManifestSays(p, handlers, id);
    ManifestReader.ManifestReadsBack(handlers.profile, handlers.registered, handlers.supported);
    var text := ManifestText(handlers);
    assert JsonReader.Parse(text).Some?;
  }

  lemma ManifestTextIsClean(handlers: Handlers)
    ensures Clean(ManifestText(handlers))
  {
    ActionRegistry.ManifestIsOneField(handlers.profile, handlers.registered, handlers.supported);
  }

  // ---------------------------------------------------------------------------------------------
  // What the log tells

  /** A result that was put into the cache, with what its response says. */
  predicate CachedSays(p: Platform, e: Event)
    requires e.ResultCached?
  {
    TicketIsClean(e.ticket) && SaysFields(e.response, ResultFields(p, e.ticket, e.result))
  }

  /** Somebody with the same ticket had his result put into the cache, and this is the response. */
  predicate CachedFor(log: seq<Event>, n: nat, ticket: Ticket, response: string)
    requires n <= |log|
  {
    exists j :: 0 <= j < n && log[j].ResultCached? && log[j].ticket == ticket && log[j].response == response
  }

  /** The answers that the locked region makes up on the spot. */
  predicate MadeUp(outcome: string, detail: string) {
    || (outcome == "conflict" && detail == "request_id_payload_conflict")
    || (outcome == "busy" && detail == "runtime_request_active")
    || (outcome == "pending" && detail == "runtime_response_timeout")
  }

  ghost predicate Told(p: Platform, log: seq<Event>, k: nat)
    requires k < |log|
  {
    match log[k]
    case ResultCached(_, _, _, _) => CachedSays(p, log[k])
    case Answered(ticket, Whole(response)) => TicketIsClean(ticket) && CachedFor(log, k, ticket, response)
    case Answered(ticket, Immediate(outcome, detail)) => TicketIsClean(ticket) && MadeUp(outcome, detail)
    case _ => true
  }

  ghost predicate AllTold(p: Platform, log: seq<Event>) {
    forall k | 0 <= k < |log| :: Told(p, log, k)
  }

  /** Whether an event is told right depends on the log up to it only. */
  lemma ToldEarlier(p: Platform, log: seq<Event>, e: Event, k: nat)
    requires k < |log|
    ensures Told(p, log + [e], k) <==> Told(p, log, k)
  {
    hide CachedSays, TicketIsClean, MadeUp;
    var longer := log + [e];
    assert longer[k] == log[k] && forall j | 0 <= j < k :: longer[j] == log[j];
  }

  lemma OneMoreTold(p: Platform, log: seq<Event>, e: Event)
    requires AllTold(p, log) && Told(p, log + [e], |log|)
    ensures AllTold(p, log + [e])
  {
    hide Told;
    forall k | 0 <= k < |log + [e]| ensures Told(p, log + [e], k) {
      if k < |log| {
        ToldEarlier(p, log, e, k);
      }
    }
  }

  lemma QuietTold(p: Platform, log: seq<Event>, e: Event)
    requires AllTold(p, log) && !e.ResultCached? && !e.Answered?
    ensures AllTold(p, log + [e])
  {
    OneMoreTold(p, log, e);
  }

  lemma CollectTold(p: Platform, s: State)
    requires Inv(p, s) && AnswersInv(p, s) && AllTold(p, s.log) && Enabled(p, s, CollectDone)
    ensures AllTold(p, AfterCollect(p, s).log)
  {
    hide CachedSays, TicketIsClean, BuildResponse, LogInv, AllTold;
    var r, response := s.slot.active.value, BuildResponse(s.slot.active.value, p);
    var cached, answered := ResultCached(r.generation, r.ticket, r.result, response), Answered(s.server.ticket, Whole(response));
    SamePrintSameTicket(s.server.ticket, r.ticket);
    CachedIsTold(p, s.log, r, cached);
    var log := s.log + [cached];
    assert (log + [answered])[|s.log|] == cached;
    assert CachedFor(log + [answered], |log|, r.ticket, response);
    OneMoreTold(p, log, answered);
  }

  lemma CachedIsTold(p: Platform, log: seq<Event>, r: Request, cached: Event)
    requires AllTold(p, log) && TicketIsClean(r.ticket) && Clean(r.result.outcome)
    requires cached == ResultCached(r.generation, r.ticket, r.result, BuildResponse(r, p))
    ensures AllTold(p, log + [cached])
  {
    hide TicketIsClean, BuildResponse, SaysFields, AllTold, Clean;
    BuiltResponseSays(p, r);
    assert Told(p, log + [cached], |log|);
    OneMoreTold(p, log, cached);
  }

  lemma SubmitTold(p: Platform, s: State, ticket: Ticket)
    requires CacheAgrees(s.slot, s.log) && AllTold(p, s.log) && TicketIsClean(ticket)
    ensures AllTold(p, AfterSubmit(s, ticket).log)
  {
    hide TicketIsClean, SaysFields, AllTold;
    match Admit(s.slot, ticket).0
    case Replay(response) =>
      var answered := Answered(ticket, Whole(response));
      ReplayIsCached(p, s, ticket);
      var c := CachedUpTo(s.log) - 1;
      assert (s.log + [answered])[c] == s.log[c];
      assert CachedFor(s.log + [answered], |s.log|, ticket, response);
      OneMoreTold(p, s.log, answered);
    case Refused(outcome, detail) =>
      OneMoreTold(p, s.log, Answered(ticket, Immediate(outcome, detail)));
    case Await(_) =>
  }

  lemma ReplayIsCached(p: Platform, s: State, ticket: Ticket)
    requires CacheAgrees(s.slot, s.log) && AllTold(p, s.log) && TicketIsClean(ticket)
    requires Admit(s.slot, ticket).0.Replay?
    ensures var c := CachedUpTo(s.log) - 1;
            && c >= 0 && s.log[c].ResultCached? && s.log[c].ticket == ticket
            && s.log[c].response == Admit(s.slot, ticket).0.response
  {
    hide TicketIsClean, SaysFields;
    var c := CachedUpTo(s.log) - 1;
    assert Told(p, s.log, c);
    SamePrintSameTicket(s.log[c].ticket, ticket);
  }

  lemma StepKeepsTold(p: Platform, s: State, step: Step)
    requires Inv(p, s) && AnswersInv(p, s) && AllTold(p, s.log) && Enabled(p, s, step) && CleanStep(step)
    ensures AllTold(p, Next(p, s, step).log)
  {
    hide AllTold, TicketIsClean, LogInv;
    match step
    case Submit(ticket) =>
      CacheOfInv(p, s);
      SubmitTold(p, s, ticket);
    case CollectDone => CollectTold(p, s);
    case GiveUp =>
      OneMoreTold(p, s.log, Answered(s.server.ticket, Immediate("pending", "runtime_response_timeout")));
    case PrepareEnds(prepared) =>
      PrepareFindsItsRequest(s, prepared);
      if !prepared.Command? {
        var v := PrepareVerdict(prepared);
        QuietTold(p, s.log, ResultRecorded(s.slot.active.value.generation, v.0, v.1, s.now));
      }
    case VerifyEnds(verified, detail) =>
      VerifyFindsItsRequest(s, verified, detail);
      var v := VerifyVerdict(s, verified, detail);
      if v.Some? {
        QuietTold(p, s.log, ResultRecorded(s.slot.active.value.generation, v.value.0, v.value.1, s.now));
      }
    case PostCommand =>
      var deadline := if s.slot.active.Some? then s.slot.active.value.deadline else 0;
      QuietTold(p, s.log, CommandPosted(s.game.request.generation, s.game.request.ticket, deadline));
    case _ =>
  }

  lemma CacheOfInv(p: Platform, s: State)
    requires Inv(p, s)
    ensures CacheAgrees(s.slot, s.log)
  {
  }

  lemma {:induction false} RunKeepsTold(p: Platform, s: State, schedule: seq<Step>)
    requires Inv(p, s) && AnswersInv(p, s) && AllTold(p, s.log) && CanRun(p, s, schedule)
    requires forall i | 0 <= i < |schedule| :: CleanStep(schedule[i])
    ensures Inv(p, Run(p, s, schedule)) && AllTold(p, Run(p, s, schedule).log)
    decreases |schedule|
  {
    hide Inv, AnswersInv, AllTold, Enabled, Next;
    if schedule != [] {
      StepKeepsInv(p, s, schedule[0]);
      StepKeepsAnswers(p, s, schedule[0]);
      StepKeepsTold(p, s, schedule[0]);
      RunKeepsTold(p, Next(p, s, schedule[0]), schedule[1..]);
    }
  }

  lemma FromTheStart(p: Platform, schedule: seq<Step>)
    requires CanRun(p, INITIAL, schedule) && forall i | 0 <= i < |schedule| :: CleanStep(schedule[i])
    ensures Inv(p, Run(p, INITIAL, schedule)) && AllTold(p, Run(p, INITIAL, schedule).log)
  {
    assert Inv(p, INITIAL) && AnswersInv(p, INITIAL);
    RunKeepsTold(p, INITIAL, schedule);
  }

  // ---------------------------------------------------------------------------------------------
  // Whole runs

  /** The result of this generation was recorded earlier. */
  predicate RecordedBefore(log: seq<Event>, n: nat, generation: nat, result: Result)
    requires n <= |log|
  {
    exists m :: 0 <= m < n && RecordOf(log[m], generation) && log[m].result == result
  }

  lemma CachedOfInv(p: Platform, s: State, k: nat)
    requires Inv(p, s) && AllTold(p, s.log) && k < |s.log| && s.log[k].ResultCached?
    ensures CachedSays(p, s.log[k]) && CachedIsRecorded(p, s.log, k)
  {
    hide CachedSays, CachedIsRecorded, ThreadsAgree;
    assert Told(p, s.log, k);
  }

  /**
   * In every schedule a response that is put into the cache reports the recorded result of its generation: outcome
   * and detail, with the id, action, country and echo of the request.
   */
  lemma CachedResponseSays(p: Platform, schedule: seq<Step>, k: nat)
    requires CanRun(p, INITIAL, schedule) && forall i | 0 <= i < |schedule| :: CleanStep(schedule[i])
    requires var log := Run(p, INITIAL, schedule).log; k < |log| && log[k].ResultCached?
    ensures var log := Run(p, INITIAL, schedule).log;
            var e := log[k];
            && SaysFields(e.response, ResultFields(p, e.ticket, e.result))
            && RecordedBefore(log, k, e.generation, e.result)
  {
    hide SaysFields, CanRun, Run, TicketIsClean, BuildResponse, Inv, AllTold, CleanStep;
    FromTheStart(p, schedule);
    var log := Run(p, INITIAL, schedule).log;
    CachedOfInv(p, Run(p, INITIAL, schedule), k);
    var e := log[k];
    var m :| 0 <= m < |log[..k]| && RecordOf(log[..k][m], e.generation) && log[..k][m].result == e.result;
    assert log[..k][m] == log[m];
  }

  /** The same for whoever is answered with a whole response, at once or by a replay: it reports his own result. */
  lemma WholeAnswerSays(p: Platform, schedule: seq<Step>, k: nat) returns (generation: nat, result: Result)
    requires CanRun(p, INITIAL, schedule) && forall i | 0 <= i < |schedule| :: CleanStep(schedule[i])
    requires var log := Run(p, INITIAL, schedule).log; k < |log| && log[k].Answered? && log[k].answer.Whole?
    ensures var log := Run(p, INITIAL, schedule).log;
            && SaysFields(log[k].answer.response, ResultFields(p, log[k].ticket, result))
            && RecordedBefore(log, k, generation, result)
            && exists j :: 0 <= j < k && log[j].ResultCached? && log[j].ticket == log[k].ticket
                 && log[j].generation == generation && log[j].result == result
  {
    hide SaysFields, CanRun, Run, TicketIsClean, Inv, ResultFields, CleanStep;
    FromTheStart(p, schedule);
    var log := Run(p, INITIAL, schedule).log;
    assert Told(p, log, k);
    var j :| 0 <= j < k && log[j].ResultCached? && log[j].ticket == log[k].ticket
             && log[j].response == log[k].answer.response;
    CachedResponseSays(p, schedule, j);
    generation, result := log[j].generation, log[j].result;
  }

  /** An answer without a result is a conflict, a busy runtime or a timeout, and says so. */
  lemma ImmediateAnswerSays(p: Platform, schedule: seq<Step>, k: nat)
    requires CanRun(p, INITIAL, schedule) && forall i | 0 <= i < |schedule| :: CleanStep(schedule[i])
    requires var log := Run(p, INITIAL, schedule).log; k < |log| && log[k].Answered? && log[k].answer.Immediate?
    ensures var e := Run(p, INITIAL, schedule).log[k];
            && MadeUp(e.answer.outcome, e.answer.detail)
            && SaysFields(
                 AnswerLine(p, e.ticket, e.answer),
                 ImmediateFields(p, e.ticket.requestId, e.ticket.actionType, e.answer.outcome, e.answer.detail))
  {
    hide SaysFields, CanRun, Run, TicketIsClean, Inv, ImmediateFields, ImmediateResponse, Clean, CleanStep;
    FromTheStart(p, schedule);
    var log := Run(p, INITIAL, schedule).log;
    assert Told(p, log, k);
    var e := log[k];
    TicketParts(e.ticket);
    OutcomesAreClean();
    ImmediateSays(p, e.ticket.requestId, e.ticket.actionType, e.answer.outcome, e.answer.detail);
  }
}
