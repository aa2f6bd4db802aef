/**
 * The native runtime as a transition system: one server thread, one game thread, and the request slot.
 * Every locked region of RuntimeSlot is one step; what runs outside the lock (authority check, Prepare,
 * Verify, PostCommand, the clock) is decided by the step taken.  The log records what the runtime did.
 */
module RuntimeRuns {
  import opened Basics
  import opened TabProtocol
  import opened RuntimeSlot

  // ---------------------------------------------------------------------------------------------
  // States

  /** Where the game thread is inside the idle hook, with the copy of the request it took. */
  datatype GameThread =
    | Idle
    | Preparing(request: Request)
    | Submitting(request: Request)   // phase is Posted, PostCommand has not been called yet
    | Updating
    | Verifying(request: Request)

  datatype ServerThread =
    | Accepting
    | Waiting(ticket: Ticket, generation: nat, until: nat)

  /** Who recorded a result. */
  datatype Source = Authority | Preparation | PrepareException | Verification | Expiry | VerifyException

  predicate BeforePosting(source: Source) {
    source.Authority? || source.Preparation? || source.PrepareException?
  }

  /** The reply to a request that reached the lock: a finished response, or one made up on the spot. */
  datatype Answer = Whole(response: string) | Immediate(outcome: string, detail: string)

  function AnswerLine(platform: Platform, ticket: Ticket, answer: Answer): string {
    match answer
    case Whole(response) => response
    case Immediate(outcome, detail) =>
      ImmediateResponse(ticket.requestId, ticket.actionType, outcome, detail, BuildId(platform))
  }

  datatype Event =
    | CommandPosted(generation: nat, ticket: Ticket, deadline: nat)
    | ResultRecorded(generation: nat, source: Source, result: Result, at: nat)
    | ResultCached(generation: nat, ticket: Ticket, result: Result, response: string)
    | Answered(ticket: Ticket, answer: Answer)

  datatype State = State(slot: Slot, game: GameThread, server: ServerThread, now: nat, log: seq<Event>)

  const INITIAL := State(Slot(None, None, 0), Idle, Accepting, 0, [])

  // ---------------------------------------------------------------------------------------------
  // Steps

  datatype PrepareOutcome =
    | NoCountry
    | OtherCountry
    | Rejects(detail: string)
    | Fails(detail: string)
    | NullCommand
    | PrepareThrows
    | Command

  datatype VerifyOutcome =
    | NotLocalCountry
    | NoReport
    | Reports(result: Result)
    | VerifyThrows

  datatype Step =
    | Tick(seconds: nat)
    | Submit(ticket: Ticket)
    | CollectDone
    | GiveUp
    | BeginUpdate
    | PrepareEnds(prepared: PrepareOutcome)
    | PostCommand
    | BeginVerify
    | VerifyEnds(verified: VerifyOutcome, timeoutDetail: string)

  /** The Windows twin neither checks the country nor guards the hook against exceptions. */
  predicate Possible(platform: Platform, step: Step) {
    match step
    case PrepareEnds(p) => platform.Windows? ==> !p.NoCountry? && !p.OtherCountry? && !p.PrepareThrows?
    case VerifyEnds(v, _) => platform.Windows? ==> !v.NotLocalCountry? && !v.VerifyThrows?
    case _ => true
  }

  predicate Enabled(platform: Platform, s: State, step: Step) {
    && Possible(platform, step)
    && match step
       case Tick(_) => true
       case Submit(_) => s.server.Accepting?
       case CollectDone => s.server.Waiting? && Ready(s.slot, s.server.generation)
       case GiveUp => s.server.Waiting? && !Ready(s.slot, s.server.generation) && s.now >= s.server.until
       case BeginUpdate => s.game.Idle?
       case PrepareEnds(_) => s.game.Preparing?
       case PostCommand => s.game.Submitting?
       case BeginVerify => s.game.Updating?
       case VerifyEnds(_, _) => s.game.Verifying?
  }

  function InPhase(slot: Slot, phase: Phase): Option<Request> {
    if slot.active.Some? && slot.active.value.phase == phase then slot.active else None
  }

  /** `FinishRequest` called by the game thread, with the event it leaves when the generation matches. */
  function Record(s: State, generation: nat, source: Source, result: Result): State {
    var recorded := if Holds(s.slot, generation) then [ResultRecorded(generation, source, result, s.now)] else [];
    s.(slot := Finish(s.slot, generation, result), log := s.log + recorded)
  }

  /** `FailActiveRequest` called by the exception guard of the hook. */
  function Guard(s: State, source: Source, detail: string): State {
    var recorded :=
      if s.slot.active.Some? && s.slot.active.value.phase != Done
      then [ResultRecorded(s.slot.active.value.generation, source, Result("failed", detail), s.now)]
      else [];
    s.(slot := FailActive(s.slot, detail), log := s.log + recorded)
  }

  function AfterPrepare(s: State, request: Request, prepared: PrepareOutcome): State {
    var g := request.generation;
    match prepared
    case NoCountry =>
      Record(s, g, Authority, Result("rejected", "no_local_observed_country")).(game := Updating)
    case OtherCountry =>
      Record(s, g, Authority, Result("rejected", "authority_country_mismatch")).(game := Updating)
    case Rejects(detail) => Record(s, g, Preparation, Result("rejected", detail)).(game := Updating)
    case Fails(detail) => Record(s, g, Preparation, Result("failed", detail)).(game := Updating)
    case NullCommand =>
      Record(s, g, Preparation, Result("failed", "action_returned_null_command")).(game := Updating)
    case PrepareThrows => Guard(s, PrepareException, "action_prepare_exception").(game := Updating)
    case Command =>
      if Holds(s.slot, g) then s.(slot := MarkPosted(s.slot, g, s.now), game := Submitting(request))
      else s.(game := Updating)
  }

  function AfterVerify(s: State, request: Request, verified: VerifyOutcome, timeoutDetail: string): State {
    match verified
    case Reports(result) => Record(s, request.generation, Verification, result).(game := Idle)
    case VerifyThrows => Guard(s, VerifyException, "action_verify_exception").(game := Idle)
    case _ =>
      if s.now >= request.deadline
      then Record(s, request.generation, Expiry, Result("pending", timeoutDetail)).(game := Idle)
      else s.(game := Idle)
  }

  function AfterSubmit(s: State, ticket: Ticket): State {
    var (admission, slot) := Admit(s.slot, ticket);
    match admission
    case Replay(response) => s.(slot := slot, log := s.log + [Answered(ticket, Whole(response))])
    case Refused(outcome, detail) =>
      s.(slot := slot, log := s.log + [Answered(ticket, Immediate(outcome, detail))])
    case Await(generation) =>
      s.(slot := slot, server := Waiting(ticket, generation, s.now + RESPONSE_TIMEOUT))
  }

  function AfterCollect(platform: Platform, s: State): State
    requires s.slot.active.Some? && s.server.Waiting?
  {
    var request := s.slot.active.value;
    var slot := Collect(s.slot, platform);
    var response := slot.last.value.response;
    s.(slot := slot, server := Accepting,
       log := s.log
              + [ResultCached(request.generation, request.ticket, request.result, response)]
              + [Answered(s.server.ticket, Whole(response))])
  }

  function Next(platform: Platform, s: State, step: Step): State
    requires Enabled(platform, s, step)
  {
    match step
    case Tick(seconds) => s.(now := s.now + seconds)
    case Submit(ticket) => AfterSubmit(s, ticket)
    case CollectDone => AfterCollect(platform, s)
    case GiveUp =>
      s.(server := Accepting,
         log := s.log + [Answered(s.server.ticket, Immediate("pending", "runtime_response_timeout"))])
    case BeginUpdate =>
      var copy := InPhase(s.slot, Pending);
      s.(game := if copy.Some? then Preparing(copy.value) else Updating)
    case PrepareEnds(prepared) => AfterPrepare(s, s.game.request, prepared)
    case PostCommand =>
      // Posting hands over the command; the deadline in the slot was set when the phase became Posted.
      var deadline := if s.slot.active.Some? then s.slot.active.value.deadline else 0;
      s.(game := Updating,
         log := s.log + [CommandPosted(s.game.request.generation, s.game.request.ticket, deadline)])
    case BeginVerify =>
      var copy := InPhase(s.slot, Posted);
      s.(game := if copy.Some? then Verifying(copy.value) else Idle)
    case VerifyEnds(verified, timeoutDetail) => AfterVerify(s, s.game.request, verified, timeoutDetail)
  }

  /** The state after a whole schedule, for any interleaving of the two threads and the clock. */
  predicate CanRun(platform: Platform, s: State, schedule: seq<Step>)
    decreases |schedule|
  {
    schedule == []
    || (Enabled(platform, s, schedule[0]) && CanRun(platform, Next(platform, s, schedule[0]), schedule[1..]))
  }

  function Run(platform: Platform, s: State, schedule: seq<Step>): State
    requires CanRun(platform, s, schedule)
    decreases |schedule|
  {
    if schedule == [] then s else Run(platform, Next(platform, s, schedule[0]), schedule[1..])
  }

  // ---------------------------------------------------------------------------------------------
  // Invariants

  /** The copies that the threads hold agree with the slot. */
  predicate ThreadsAgree(s: State) {
    && (s.slot.active.Some? ==> s.slot.active.value.generation == s.slot.generation >= 1)
    && (match s.game
        case Preparing(r) => s.slot.active == Some(r) && r.phase == Pending
        case Submitting(r) =>
          && Holds(s.slot, r.generation) && s.slot.active.value.phase == Posted
          && s.slot.active.value.ticket == r.ticket
        case Verifying(r) => s.slot.active == Some(r) && r.phase == Posted
        case _ => true)
    && (s.server.Waiting? ==>
          && Holds(s.slot, s.server.generation)
          && s.slot.active.value.ticket.requestId == s.server.ticket.requestId
          && s.slot.active.value.ticket.Print() == s.server.ticket.Print())
    && (s.slot.active.Some? && s.slot.last.Some? ==>
          s.slot.last.value.requestId != s.slot.active.value.ticket.requestId)
  }

  predicate PostOf(e: Event, generation: nat) {
    e.CommandPosted? && e.generation == generation
  }

  predicate RecordOf(e: Event, generation: nat) {
    e.ResultRecorded? && e.generation == generation
  }

  predicate NeverPosted(log: seq<Event>, generation: nat) {
    forall i | 0 <= i < |log| :: !PostOf(log[i], generation)
  }

  predicate NeverRecorded(log: seq<Event>, generation: nat) {
    forall i | 0 <= i < |log| :: !RecordOf(log[i], generation)
  }

  /** Position of the only post of a generation, when there is one. */
  function PostIndex(log: seq<Event>, generation: nat): (i: nat)
    ensures i <= |log| && (i < |log| ==> PostOf(log[i], generation))
    ensures i == |log| ==> NeverPosted(log, generation)
  {
    if log == [] || PostOf(log[0], generation) then 0 else 1 + PostIndex(log[1..], generation)
  }

  predicate AtMostOnePost(log: seq<Event>) {
    forall i, j | 0 <= i < j < |log| && log[i].CommandPosted? && log[j].CommandPosted? ::
      log[i].generation != log[j].generation
  }

  /** The phase of the active request says exactly whether its command has been handed over. */
  predicate PostsAgree(slot: Slot, submitting: bool, log: seq<Event>) {
    && (forall i | 0 <= i < |log| && log[i].CommandPosted? :: 1 <= log[i].generation <= slot.generation)
    && (slot.active.Some? ==>
          var r := slot.active.value;
          && (r.phase == Pending || submitting ==> NeverPosted(log, r.generation))
          && (r.phase == Posted && !submitting ==>
                var i := PostIndex(log, r.generation);
                i < |log| && log[i].ticket == r.ticket && log[i].deadline == r.deadline))
  }

  predicate AtMostOneRecord(log: seq<Event>) {
    forall i, j | 0 <= i < j < |log| && log[i].ResultRecorded? && log[j].ResultRecorded? ::
      log[i].generation != log[j].generation
  }

  /** What a recorded result says about posting, by who recorded it. */
  predicate RecordIsSound(log: seq<Event>, k: nat)
    requires k < |log| && log[k].ResultRecorded?
  {
    var e := log[k];
    if BeforePosting(e.source) then
      && NeverPosted(log, e.generation)
      && (e.result.outcome == "rejected" || e.result.outcome == "failed")
    else
      && PostIndex(log, e.generation) < k
      && (e.source.Expiry? ==>
            e.result.outcome == "pending" && e.at >= log[PostIndex(log, e.generation)].deadline)
      && (e.source.VerifyException? ==> e.result.outcome == "failed")
  }

  predicate RecordsAgree(slot: Slot, log: seq<Event>) {
    && (forall k | 0 <= k < |log| && log[k].ResultRecorded? ::
          1 <= log[k].generation <= slot.generation && RecordIsSound(log, k))
    && (slot.active.Some? && slot.active.value.phase != Done ==> NeverRecorded(log, slot.active.value.generation))
    && (slot.active.Some? && slot.active.value.phase == Done ==>
          RecordedWith(log, slot.active.value.generation, slot.active.value.result))
  }

  predicate RecordedWith(log: seq<Event>, generation: nat, result: Result) {
    exists k :: 0 <= k < |log| && RecordOf(log[k], generation) && log[k].result == result
  }

  /** Position after the last cached result; 0 when nothing was cached. */
  function CachedUpTo(log: seq<Event>): (c: nat)
    ensures c <= |log| && (c > 0 ==> log[c - 1].ResultCached?)
    ensures forall i | c <= i < |log| :: !log[i].ResultCached?
  {
    if log == [] then 0
    else if log[|log| - 1].ResultCached? then |log|
    else CachedUpTo(log[..|log| - 1])
  }

  /** The cache is the last cached result, and every post of a closed generation came before it. */
  predicate CacheAgrees(slot: Slot, log: seq<Event>) {
    var c := CachedUpTo(log);
    && (slot.last.Some? <==> c > 0)
    && (c > 0 ==>
          var e := log[c - 1];
          slot.last.value == CachedResult(e.ticket.requestId, e.ticket.Print(), e.response))
    && (forall i | 0 <= i < |log| && log[i].CommandPosted? ::
          i < c || (Holds(slot, log[i].generation) && slot.active.value.ticket == log[i].ticket))
  }

  /** A cached response is the response built from the result recorded for that generation. */
  predicate CachedIsRecorded(platform: Platform, log: seq<Event>, c: nat)
    requires c < |log| && log[c].ResultCached?
  {
    var e := log[c];
    && e.response == BuildResponse(Request(e.generation, e.ticket, Done, 0, e.result), platform)
    && RecordedWith(log[..c], e.generation, e.result)
  }

  predicate CachedAreRecorded(platform: Platform, log: seq<Event>) {
    forall c | 0 <= c < |log| && log[c].ResultCached? :: CachedIsRecorded(platform, log, c)
  }

  /** Between posts of one request id under two generations, the result of another id was cached. */
  predicate OtherCachedBetween(log: seq<Event>, i: nat, j: nat)
    requires i < j < |log| && log[i].CommandPosted?
  {
    exists k :: i < k < j && log[k].ResultCached? && log[k].ticket.requestId != log[i].ticket.requestId
  }

  predicate RepostsAreSeparated(log: seq<Event>) {
    forall i, j | 0 <= i < j < |log| && log[i].CommandPosted? && log[j].CommandPosted?
                  && log[i].ticket.requestId == log[j].ticket.requestId ::
      OtherCachedBetween(log, i, j)
  }

  predicate LogInv(platform: Platform, slot: Slot, submitting: bool, log: seq<Event>) {
    && PostsAgree(slot, submitting, log)
    && AtMostOnePost(log)
    && RecordsAgree(slot, log)
    && AtMostOneRecord(log)
    && CacheAgrees(slot, log)
    && CachedAreRecorded(platform, log)
    && RepostsAreSeparated(log)
  }

  predicate Inv(platform: Platform, s: State) {
    ThreadsAgree(s) && LogInv(platform, s.slot, s.game.Submitting?, s.log)
  }
}
