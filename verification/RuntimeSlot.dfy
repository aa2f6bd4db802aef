/** The request slot of the native runtime: the globals that its mutex guards, and every locked region. */
module RuntimeSlot {
  import opened Basics
  import opened TabProtocol

  datatype Platform = Linux | Windows

  function BuildId(platform: Platform): string {
    match platform
    case Linux => "c6969e60fd81d7389482" + "22a94c0b5a0841abbffc"
    case Windows => "stellaris-4.4.6" + "-windows-steam" + "-24109497-bc451c72"
  }

  datatype Phase = Pending | Posted | Done

  datatype Result = Result(outcome: string, detail: string)

  /** The part of a request that the client sent, after parsing. */
  datatype Ticket = Ticket(requestId: string, actionType: string, countryId: nat, targetEcho: string) {
    function Print(): string {
      Fingerprint(actionType, countryId, targetEcho)
    }
  }

  datatype Request = Request(generation: nat, ticket: Ticket, phase: Phase, deadline: nat, result: Result)

  datatype CachedResult = CachedResult(requestId: string, fingerprint: string, response: string)

  /** `g_active_request`, `g_last_result` and `g_generation`. */
  datatype Slot = Slot(active: Option<Request>, last: Option<CachedResult>, generation: nat)

  /** What a request learns under the lock: an answer at once, or the generation it has to wait for. */
  datatype Admission =
    | Replay(response: string)
    | Refused(outcome: string, detail: string)
    | Await(generation: nat)

  const EXECUTION_TIMEOUT: nat := 15
  const RESPONSE_TIMEOUT: nat := 20

  function BuildResponse(request: Request, platform: Platform): string {
    ResponseLine(
      request.ticket.requestId, request.ticket.actionType, request.result.outcome, BuildId(platform),
      Decimal(request.ticket.countryId), request.ticket.targetEcho, SanitizeDetail(request.result.detail))
  }

  // ---------------------------------------------------------------------------------------------
  // Specifications of the locked regions

  predicate Holds(slot: Slot, generation: nat) {
    slot.active.Some? && slot.active.value.generation == generation
  }

  function Closed(request: Request, result: Result): Request {
    request.(result := result, phase := Done)
  }

  function Finish(slot: Slot, generation: nat, result: Result): Slot {
    if Holds(slot, generation) then slot.(active := Some(Closed(slot.active.value, result))) else slot
  }

  function FailActive(slot: Slot, detail: string): Slot {
    if slot.active.Some? && slot.active.value.phase != Done
    then slot.(active := Some(Closed(slot.active.value, Result("failed", detail))))
    else slot
  }

  function MarkPosted(slot: Slot, generation: nat, now: nat): Slot {
    if Holds(slot, generation)
    then slot.(active := Some(slot.active.value.(deadline := now + EXECUTION_TIMEOUT, phase := Posted)))
    else slot
  }

  function Admit(slot: Slot, ticket: Ticket): (Admission, Slot) {
    if slot.last.Some? && slot.last.value.requestId == ticket.requestId then
      if slot.last.value.fingerprint == ticket.Print() then (Replay(slot.last.value.response), slot)
      else (Refused("conflict", "request_id_payload_conflict"), slot)
    else if slot.active.Some? then
      if slot.active.value.ticket.requestId != ticket.requestId then
        (Refused("busy", "runtime_request_active"), slot)
      else if slot.active.value.ticket.Print() != ticket.Print() then
        (Refused("conflict", "request_id_payload_conflict"), slot)
      else (Await(slot.active.value.generation), slot)
    else
      var generation := slot.generation + 1;
      (Await(generation),
       slot.(active := Some(Request(generation, ticket, Pending, 0, Result("", ""))), generation := generation))
  }

  predicate Ready(slot: Slot, generation: nat) {
    Holds(slot, generation) && slot.active.value.phase == Done
  }

  function Collect(slot: Slot, platform: Platform): Slot
    requires slot.active.Some?
  {
    var request := slot.active.value;
    slot.(active := None,
          last := Some(CachedResult(request.ticket.requestId, request.ticket.Print(), BuildResponse(request, platform))))
  }

  // ---------------------------------------------------------------------------------------------
  // The globals and the code that changes them

  class Runtime {
    const platform: Platform
    var active: Option<Request>
    var last: Option<CachedResult>
    var generation: nat

    constructor (platform: Platform)
      ensures this.platform == platform && Contents() == Slot(None, None, 0)
    {
      this.platform := platform;
      active, last, generation := None, None, 0;
    }

    ghost function Contents(): Slot
      reads this
    {
      Slot(active, last, generation)
    }

    method FinishRequest(generation: nat, outcome: string, detail: string)
      modifies this
      ensures Contents() == Finish(old(Contents()), generation, Result(outcome, detail))
    {
      if active.None? || active.value.generation != generation {
        return;
      }
      active := Some(active.value.(result := Result(outcome, detail)));
      active := Some(active.value.(phase := Done));
    }

    method FailActiveRequest(detail: string)
      modifies this
      ensures Contents() == FailActive(old(Contents()), detail)
    {
      if active.None? || active.value.phase == Done {
        return;
      }
      active := Some(active.value.(result := Result("failed", detail)));
      active := Some(active.value.(phase := Done));
    }

    /** The copy that both halves of the idle hook take; `None` when the phase is not the wanted one. */
    method CopyInPhase(phase: Phase) returns (request: Option<Request>)
      ensures request == if active.Some? && active.value.phase == phase then active else None
    {
      if active.None? || active.value.phase != phase {
        return None;
      }
      request := active;
    }

    method BeginPosting(generation: nat, now: nat) returns (posted: bool)
      modifies this
      ensures posted == Holds(old(Contents()), generation)
      ensures Contents() == MarkPosted(old(Contents()), generation, now)
    {
      if active.None? || active.value.generation != generation {
        return false;
      }
      active := Some(active.value.(deadline := now + EXECUTION_TIMEOUT));
      active := Some(active.value.(phase := Posted));
      posted := true;
    }

    /** The part of `HandleRequest` between taking the lock and the wait. */
    method EnterRequest(ticket: Ticket) returns (admission: Admission)
      modifies this
      ensures (admission, Contents()) == Admit(old(Contents()), ticket)
    {
      if last.Some? && last.value.requestId == ticket.requestId {
        if last.value.fingerprint == ticket.Print() {
          return Replay(last.value.response);
        }
        return Refused("conflict", "request_id_payload_conflict");
      }
      if active.Some? {
        if active.value.ticket.requestId != ticket.requestId {
          return Refused("busy", "runtime_request_active");
        }
        if active.value.ticket.Print() != ticket.Print() {
          return Refused("conflict", "request_id_payload_conflict");
        }
      } else {
        generation := generation + 1;
        active := Some(Request(generation, ticket, Pending, 0, Result("", "")));
      }
      admission := Await(active.value.generation);
    }

    /** The part of `HandleRequest` after a wait that found its request done. */
    method CollectResult(requestId: string, fingerprint: string) returns (response: string)
      requires active.Some?
      requires requestId == active.value.ticket.requestId && fingerprint == active.value.ticket.Print()
      modifies this
      ensures Contents() == Collect(old(Contents()), platform)
      ensures last == Some(CachedResult(requestId, fingerprint, response))
    {
      response := BuildResponse(active.value, platform);
      last := Some(CachedResult(requestId, fingerprint, response));
      active := None;
    }
  }
}
