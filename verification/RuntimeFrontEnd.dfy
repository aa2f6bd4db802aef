/** `HandleRequest` before the lock: every input line becomes a finished reply or a ticket for the slot. */
module RuntimeFrontEnd {
  import opened Basics
  import opened TabProtocol
  import opened RuntimeSlot
  import ActionRegistry
  import JsonText

  datatype ParseOutcome = NoTarget(error: string) | Target(actionType: string, echo: string)

  /** The registered actions with what they can parse, and the build profile that says which of them it supports. */
  datatype Handlers = Handlers(
    profile: ActionRegistry.Profile, registered: seq<ActionRegistry.Descriptor>,
    supported: ActionRegistry.Descriptor -> bool, parse: (string, seq<string>) -> ParseOutcome)

  predicate Supports(handlers: Handlers, action: string) {
    var descriptor := ActionRegistry.FindActionDescriptor(handlers.registered, action);
    descriptor.Some? && handlers.supported(descriptor.value)
  }

  function ManifestText(handlers: Handlers): string {
    JsonText.Write(ActionRegistry.ManifestJson(handlers.profile, handlers.registered, handlers.supported))
  }

  datatype FrontResult =
    | Manifest(requestId: string)
    | Refuse(requestId: string, action: string, outcome: string, detail: string)
    | Enter(ticket: Ticket)

  function Rejected(requestId: string, action: string, detail: string): FrontResult {
    Refuse(requestId, action, "rejected", detail)
  }

  function HandleRequest(platform: Platform, handlers: Handlers, line: string): FrontResult {
    var f := Fields(line);
    if |f| == 4 && f[0] == PROTOCOL_VERSION && f[2] == DESCRIBE_TOOLS && f[3] == "0" then
      if IsSemanticToken(f[1], 96) then Manifest(f[1]) else Rejected(f[1], f[2], "invalid_request_id")
    else if |f| < 5 || f[0] != PROTOCOL_VERSION then Rejected("invalid", "unknown", "bad_request")
    else if !IsSemanticToken(f[1], 96) then Rejected(f[1], f[2], "invalid_semantic_target")
    else if ParseUint32(f[3]).None? then
      Rejected(f[1], f[2], if platform.Linux? then "country_id_out_of_range" else "invalid_semantic_target")
    else if !Supports(handlers, f[2]) then Rejected(f[1], f[2], "unsupported_action")
    else
      match handlers.parse(f[2], f[4..])
      case NoTarget(error) => Rejected(f[1], f[2], if error == "" then "invalid_semantic_target" else error)
      case Target(actionType, echo) =>
        if actionType != f[2] || !IsSemanticToken(echo, 160)
        then Refuse(f[1], f[2], "failed", "action_handler_contract_violation")
        else Enter(Ticket(f[1], f[2], ParseUint32(f[3]).value, echo))
  }

  /** The text of a reply that does not enter the slot. */
  function Reply(platform: Platform, handlers: Handlers, result: FrontResult): string
    requires !result.Enter?
  {
    match result
    case Manifest(id) => ToolManifestResponse(id, BuildId(platform), ManifestText(handlers))
    case Refuse(id, action, outcome, detail) => ImmediateResponse(id, action, outcome, detail, BuildId(platform))
  }

  /** A ticket that can be echoed in a response. */
  predicate TicketIsClean(t: Ticket) {
    && IsSemanticToken(t.requestId, 96) && IsSemanticToken(t.targetEcho, 160)
    && Clean(t.actionType) && t.countryId < UINT32_LIMIT
  }

  /** Eight fields in one line, the second and third naming the request that is answered. */
  predicate AnswersRequest(response: string, id: string, action: string) {
    && WellFramed(response)
    && var f := Fields(response[..|response| - 1]);
       |f| == 8 && f[0] == PROTOCOL_VERSION && f[1] == id && f[2] == action
  }

  /** The id and action that a reply has to carry: those of the line when it is long enough. */
  function Addressed(line: string): (string, string) {
    var f := Fields(line);
    if f[0] == PROTOCOL_VERSION && (|f| >= 5 || (|f| == 4 && f[2] == DESCRIBE_TOOLS && f[3] == "0"))
    then (f[1], f[2])
    else ("invalid", "unknown")
  }

  lemma BuildIdIsClean(platform: Platform)
    ensures Clean(BuildId(platform))
  {
    match platform
    case Linux => LinuxBuildIdIsClean();
    case Windows => WindowsBuildIdIsClean();
  }

  lemma LinuxBuildIdIsClean()
    ensures Clean("c6969e60fd81d7389482" + "22a94c0b5a0841abbffc")
  {
  }

  lemma WindowsBuildIdIsClean()
    ensures Clean("stellaris-4.4.6" + "-windows-steam" + "-24109497-bc451c72")
  {
  }

  lemma FramedParts(
    id: string, action: string, outcome: string, buildId: string, country: string, echo: string, detail: string)
    requires Clean(id) && Clean(action) && Clean(outcome) && Clean(buildId)
    requires Clean(country) && Clean(echo) && Clean(detail)
    ensures AnswersRequest(ResponseLine(id, action, outcome, buildId, country, echo, detail), id, action)
  {
    ResponseFraming(id, action, outcome, buildId, country, echo, detail);
  }

  lemma ImmediateIsFramed(platform: Platform, id: string, action: string, outcome: string, detail: string)
    requires Clean(id) && Clean(action) && Clean(outcome)
    ensures AnswersRequest(ImmediateResponse(id, action, outcome, detail, BuildId(platform)), id, action)
  {
    BuildIdIsClean(platform);
    FramedParts(id, action, outcome, BuildId(platform), "0", "-", SanitizeDetail(detail));
  }

  lemma ManifestPartsAreClean()
    ensures Clean("confirmed") && Clean("runtime_tool_manifest")
  {
  }

  lemma ManifestIsFramed(platform: Platform, id: string, manifest: string)
    requires Clean(id) && Clean(manifest) && Clean(DESCRIBE_TOOLS)
    ensures AnswersRequest(ToolManifestResponse(id, BuildId(platform), manifest), id, DESCRIBE_TOOLS)
  {
    BuildIdIsClean(platform);
    ManifestPartsAreClean();
    FramedParts(id, DESCRIBE_TOOLS, "confirmed", BuildId(platform), "0", manifest, "runtime_tool_manifest");
  }

  lemma FieldsOfLineAreClean(line: string)
    requires Without(line, '\n')
    ensures forall i | 0 <= i < |Fields(line)| :: Clean(Fields(line)[i])
  {
    SplitThenJoin(line);
    FieldsWithout(line, '\n');
    var f := Fields(line);
    forall i | 0 <= i < |f|
      ensures Clean(f[i])
    {
      assert Without(f[i], '\t') && Without(f[i], '\n');
    }
  }

  /** What the front end decides is addressed to the line it answers, in parts without tab or line end. */
  lemma DecisionIsAddressed(platform: Platform, handlers: Handlers, line: string)
    requires Without(line, '\n')
    ensures var (id, action) := Addressed(line);
            && Clean(id) && Clean(action)
            && match HandleRequest(platform, handlers, line)
               case Manifest(requestId) => requestId == id && action == DESCRIBE_TOOLS
               case Refuse(requestId, a, outcome, _) =>
                 requestId == id && a == action && (outcome == "rejected" || outcome == "failed")
               case Enter(ticket) => TicketIsClean(ticket) && ticket.requestId == id && ticket.actionType == action
  {
    hide Supports, ParseUint32;
    FieldsOfLineAreClean(line);
  }

  lemma OutcomesAreClean()
    ensures Clean("rejected") && Clean("failed") && Clean("pending") && Clean("conflict") && Clean("busy")
  {
  }

  /** Every line without a line end is answered by a framed line, or enters the slot with a clean ticket. */
  lemma EveryLineIsAnswered(platform: Platform, handlers: Handlers, line: string)
    requires Without(line, '\n')
    ensures var result := HandleRequest(platform, handlers, line);
            if result.Enter? then TicketIsClean(result.ticket)
            else AnswersRequest(Reply(platform, handlers, result), Addressed(line).0, Addressed(line).1)
  {
    hide HandleRequest, ImmediateResponse, ToolManifestResponse, AnswersRequest, TicketIsClean, Addressed, BuildId, Clean, JsonText.Write, ActionRegistry.ManifestJson;
    DecisionIsAddressed(platform, handlers, line);
    OutcomesAreClean();
    match HandleRequest(platform, handlers, line)
    case Manifest(id) =>
      ActionRegistry.ManifestIsOneField(handlers.profile, handlers.registered, handlers.supported);
      ManifestIsFramed(platform, id, ManifestText(handlers));
    case Refuse(id, action, outcome, detail) => ImmediateIsFramed(platform, id, action, outcome, detail);
    case Enter(_) =>
  }

  lemma EnteredActionIsSupported(platform: Platform, handlers: Handlers, line: string)
    requires HandleRequest(platform, handlers, line).Enter?
    ensures Supports(handlers, HandleRequest(platform, handlers, line).ticket.actionType)
  {
    hide Supports, TabProtocol.IsSemanticToken, TabProtocol.ParseUint32;
  }

  lemma SupportedActionIsListed(handlers: Handlers, action: string)
    requires Supports(handlers, action)
    ensures exists d :: d in handlers.registered && handlers.supported(d) && d.actionType == action
              && ActionRegistry.ToolJson(d)
                 in ActionRegistry.ToolItems(ActionRegistry.Catalogue(handlers.registered), handlers.supported)
  {
    hide ActionRegistry.ToolJson, ActionRegistry.ToolItems, ActionRegistry.Catalogue, ActionRegistry.FindActionDescriptor;
    var d := ActionRegistry.FindActionDescriptor(handlers.registered, action).value;
    assert d in multiset(ActionRegistry.Catalogue(handlers.registered));
    ActionRegistry.SupportedIsListed(ActionRegistry.Catalogue(handlers.registered), d, handlers.supported);
  }

  /** Only an action that the manifest lists gets into the slot. */
  lemma EnteredActionIsListed(platform: Platform, handlers: Handlers, line: string)
    requires HandleRequest(platform, handlers, line).Enter?
    ensures exists d :: d in handlers.registered && handlers.supported(d)
              && d.actionType == HandleRequest(platform, handlers, line).ticket.actionType
              && ActionRegistry.ToolJson(d)
                 in ActionRegistry.ToolItems(ActionRegistry.Catalogue(handlers.registered), handlers.supported)
  {
    hide HandleRequest, Supports, ActionRegistry.ToolJson, ActionRegistry.ToolItems, ActionRegistry.Catalogue;
    EnteredActionIsSupported(platform, handlers, line);
    SupportedActionIsListed(handlers, HandleRequest(platform, handlers, line).ticket.actionType);
  }

  lemma FinishedIsFramed(platform: Platform, request: Request)
    requires TicketIsClean(request.ticket) && Clean(request.result.outcome)
    ensures AnswersRequest(BuildResponse(request, platform), request.ticket.requestId, request.ticket.actionType)
  {
    var ticket := request.ticket;
    TokensAreClean(ticket.requestId, 96);
    TokensAreClean(ticket.targetEcho, 160);
    BuildIdIsClean(platform);
    DigitsAreClean(Decimal(ticket.countryId));
    FramedParts(
      ticket.requestId, ticket.actionType, request.result.outcome, BuildId(platform),
      Decimal(ticket.countryId), ticket.targetEcho, SanitizeDetail(request.result.detail));
  }
}
