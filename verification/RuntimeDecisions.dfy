/** What the native runtime decides about a line and about a ticket, and when its two waits end. */
module RuntimeDecisions {
  import opened Basics
  import opened TabProtocol
  import opened ActionRegistry
  import opened RuntimeSlot
  import opened RuntimeRuns
  import opened RuntimeSafety
  import opened RuntimeFrontEnd

  // ---------------------------------------------------------------------------------------------
  // Tokens

  /** Letters, digits and four marks. */
  const SMALL := "abcdefghijklmnopqrstuvwxyz"
  const CAPITAL := "ABCDEFGHIJKLMNOPQRSTUVWXYZ"
  const TOKEN_CHARACTERS := SMALL + CAPITAL + "0123456789" + "_-.:"

  function Letters(from: char, count: nat): (s: string)
    requires from as int + count <= 0x7f
    ensures |s| == count && forall i | 0 <= i < count :: s[i] == (from as int + i) as char
  {
    seq(count, i requires 0 <= i < count => (from as int + i) as char)
  }

  lemma SmallLetters()
    ensures SMALL == Letters('a', 26)
  {
  }

  lemma CapitalLetters()
    ensures CAPITAL == Letters('A', 26)
  {
  }

  lemma TokenDigits()
    ensures "0123456789" == Letters('0', 10)
  {
  }

  lemma InLetters(from: char, count: nat, c: char)
    requires from as int + count <= 0x7f
    ensures c in Letters(from, count) <==> from as int <= c as int < from as int + count
  {
    if from as int <= c as int < from as int + count {
      assert Letters(from, count)[c as int - from as int] == c;
    }
  }

  lemma TokenCharIff(c: char)
    ensures IsTokenChar(c) <==> c in TOKEN_CHARACTERS
  {
    hide Letters;
    SmallLetters();
    CapitalLetters();
    TokenDigits();
    InLetters('a', 26, c);
    InLetters('A', 26, c);
    InLetters('0', 10, c);
  }

  /** Not empty, not too long, and made of these characters only. */
  predicate Token(value: string, maximum: nat) {
    value != "" && |value| <= maximum && forall c | c in value :: c in TOKEN_CHARACTERS
  }

  lemma TokenIff(value: string, maximum: nat)
    ensures IsSemanticToken(value, maximum) <==> Token(value, maximum)
  {
    forall c ensures IsTokenChar(c) <==> c in TOKEN_CHARACTERS {
      TokenCharIff(c);
    }
  }

  /** What a sound descriptor is, in full. */
  lemma SoundIff(d: Descriptor)
    ensures Sound(d) <==>
            && d.version > 0 && d.parses && d.probes
            && Token(d.actionType, 64) && Token(d.applicationId, 64) && Token(d.riskClass, 64)
            && Token(d.verificationState, 64)
            && forall p | p in d.parameters :: Token(p.name, 64) && p.description != ""
  {
    hide IsSemanticToken, Token;
    TokenIff(d.actionType, 64);
    TokenIff(d.applicationId, 64);
    TokenIff(d.riskClass, 64);
    TokenIff(d.verificationState, 64);
    forall p: Parameter ensures ParameterWellFormed(p) <==> Token(p.name, 64) && p.description != "" {
      TokenIff(p.name, 64);
    }
  }

  // ---------------------------------------------------------------------------------------------
  // The order of the catalogue

  /** The first character in which two texts differ decides; a text comes behind its own beginnings. */
  predicate ComesFirst(s: string, t: string, k: nat) {
    && k <= |s| && k < |t| && s[..k] == t[..k]
    && (k == |s| || s[k] < t[k])
  }

  lemma {:induction false} TextLessIff(s: string, t: string)
    ensures TextLess(s, t) <==> exists k :: 0 <= k <= |s| && ComesFirst(s, t, k)
  {
    if t == "" {
      return;
    }
    if s == "" {
      assert ComesFirst(s, t, 0);
      return;
    }
    var s', t' := s[1..], t[1..];
    TextLessIff(s', t');
    if s[0] < t[0] {
      assert ComesFirst(s, t, 0);
    }
    if s[0] == t[0] {
      if TextLess(s', t') {
        var k :| 0 <= k <= |s'| && ComesFirst(s', t', k);
        assert s[..k + 1] == [s[0]] + s'[..k] && t[..k + 1] == [t[0]] + t'[..k];
        assert ComesFirst(s, t, k + 1);
      }
      if k :| 0 <= k <= |s| && ComesFirst(s, t, k) {
        assert k > 0 && s'[..k - 1] == s[..k][1..] && t'[..k - 1] == t[..k][1..];
        assert ComesFirst(s', t', k - 1);
      }
    } else if k :| 0 <= k <= |s| && ComesFirst(s, t, k) {
      if k > 0 {
        SameFirst(s, t, k);
      }
    }
  }

  lemma SameFirst(s: string, t: string, k: nat)
    requires 0 < k <= |s| && k <= |t| && s[..k] == t[..k]
    ensures s[0] == t[0]
  {
    assert s[..k][0] == s[0];
  }

  /** The catalogue lists actions by name, and versions of one action upwards. */
  lemma CatalogueAscends(registered: seq<Descriptor>, i: nat, j: nat)
    requires i < j < |Catalogue(registered)|
    ensures var a, b := Catalogue(registered)[i], Catalogue(registered)[j];
            if a.actionType == b.actionType then a.version <= b.version
            else exists k :: 0 <= k <= |a.actionType| && ComesFirst(a.actionType, b.actionType, k)
  {
    hide TextLess, ComesFirst;
    var a, b := Catalogue(registered)[i], Catalogue(registered)[j];
    assert !Before(b, a);
    TextLessTrichotomy(a.actionType, b.actionType);
    TextLessIff(a.actionType, b.actionType);
  }

  // ---------------------------------------------------------------------------------------------
  // The decision about a line

  /** A registered descriptor of this action that the build supports comes first among those of the action. */
  predicate Offered(handlers: Handlers, action: string) {
    exists i :: 0 <= i < |handlers.registered| && handlers.registered[i].actionType == action
      && handlers.supported(handlers.registered[i])
      && forall j | 0 <= j < i :: handlers.registered[j].actionType != action
  }

  lemma {:induction false} OfferedIff(registered: seq<Descriptor>, action: string, supported: Descriptor -> bool)
    ensures (var found := FindActionDescriptor(registered, action); found.Some? && supported(found.value))
            <==> exists i :: 0 <= i < |registered| && registered[i].actionType == action && supported(registered[i])
                   && forall j | 0 <= j < i :: registered[j].actionType != action
  {
    if registered != [] {
      var rest := registered[1..];
      OfferedIff(rest, action, supported);
      if registered[0].actionType == action {
        assert FindActionDescriptor(registered, action) == Some(registered[0]);
      } else if i :| 0 <= i < |rest| && rest[i].actionType == action && supported(rest[i])
                     && forall j | 0 <= j < i :: rest[j].actionType != action {
        assert registered[i + 1] == rest[i];
        forall j | 0 <= j < i + 1 ensures registered[j].actionType != action {
          assert j > 0 ==> registered[j] == rest[j - 1];
        }
      } else {
        forall i | 0 < i < |registered|
          ensures registered[i] == rest[i - 1]
        {
        }
      }
    }
  }

  lemma SupportsIff(handlers: Handlers, action: string)
    ensures Supports(handlers, action) <==> Offered(handlers, action)
  {
    OfferedIff(handlers.registered, action, handlers.supported);
  }

  /** Protocol, request id, action, country and what the action's own parser gets. */
  function RequestLine(id: string, action: string, country: string, target: seq<string>): seq<string> {
    ["IAG1", id, action, country] + target
  }

  predicate IsDescribe(f: seq<string>) {
    |f| == 4 && f[0] == "IAG1" && f[2] == "describe_tools" && f[3] == "0"
  }

  /**
   * A line that asks for an action: it enters with its own id, action and country and the echo of the parser, and
   * otherwise the first of these things that is wrong is reported.
   */
  lemma RequestIsDecided(
    p: Platform, handlers: Handlers, line: string, id: string, action: string, country: string, target: seq<string>)
    requires Fields(line) == RequestLine(id, action, country, target) && target != []
    ensures var parsed, number := handlers.parse(action, target), ParseUint32(country);
            HandleRequest(p, handlers, line)
            == if !Token(id, 96) then Refuse(id, action, "rejected", "invalid_semantic_target")
               else if number.None? then
                 Refuse(id, action, "rejected",
                        if p.Linux? then "country_id_out_of_range" else "invalid_semantic_target")
               else if !Offered(handlers, action) then Refuse(id, action, "rejected", "unsupported_action")
               else if parsed.NoTarget? then
                 Refuse(id, action, "rejected", if parsed.error == "" then "invalid_semantic_target" else parsed.error)
               else if parsed.actionType != action || !Token(parsed.echo, 160)
               then Refuse(id, action, "failed", "action_handler_contract_violation")
               else Enter(Ticket(id, action, number.value, parsed.echo))
  {
    hide IsSemanticToken, Token, Offered, Supports, ParseUint32, Fields;
    TokenIff(id, 96);
    SupportsIff(handlers, action);
    var f := Fields(line);
    assert f[4..] == target;
    if handlers.parse(action, target).Target? {
      TokenIff(handlers.parse(action, target).echo, 160);
    }
  }

  /** A request for the manifest, and every other line. */
  lemma OtherLinesAreDecided(p: Platform, handlers: Handlers, line: string)
    ensures var f := Fields(line);
            && (IsDescribe(f) ==>
                  HandleRequest(p, handlers, line)
                  == if Token(f[1], 96) then Manifest(f[1])
                     else Refuse(f[1], "describe_tools", "rejected", "invalid_request_id"))
            && (!IsDescribe(f) && (|f| < 5 || f[0] != "IAG1") ==>
                  HandleRequest(p, handlers, line) == Refuse("invalid", "unknown", "rejected", "bad_request"))
  {
    hide IsSemanticToken, Token, Fields;
    var f := Fields(line);
    if IsDescribe(f) {
      TokenIff(f[1], 96);
    }
  }

  /** What a client has to write: a line that is joined from these parts enters with exactly these parts. */
  lemma WrittenLineEnters(
    p: Platform, handlers: Handlers, id: string, action: string, country: nat, target: seq<string>, echo: string)
    requires AllWithout(RequestLine(id, action, Decimal(country), target), '\t') && target != []
    requires Token(id, 96) && Offered(handlers, action) && country < 4294967296
    requires handlers.parse(action, target) == Target(action, echo) && Token(echo, 160)
    ensures HandleRequest(p, handlers, Join(RequestLine(id, action, Decimal(country), target)))
            == Enter(Ticket(id, action, country, echo))
  {
    hide Token, Offered, HandleRequest, ParseUint32, Fields;
    var parts := RequestLine(id, action, Decimal(country), target);
    JoinThenSplit(parts);
    ParseUint32OfDecimal(country);
    RequestIsDecided(p, handlers, Join(parts), id, action, Decimal(country), target);
  }

  // ---------------------------------------------------------------------------------------------
  // The decision about a ticket

  /** The request id is that of the last result, or of the request under way. */
  predicate Known(slot: Slot, id: string) {
    || (slot.last.Some? && slot.last.value.requestId == id)
    || (slot.active.Some? && slot.active.value.ticket.requestId == id)
  }

  /** What the runtime remembers of a known id: the last result's fingerprint, or that of the request under way. */
  function RememberedPrint(slot: Slot, id: string): string
    requires Known(slot, id)
  {
    if slot.last.Some? && slot.last.value.requestId == id then slot.last.value.fingerprint
    else slot.active.value.ticket.Print()
  }

  /**
   * "conflict" is the answer exactly to a known id with another fingerprint, "busy" exactly to an unknown id beside
   * another request; the cached response is replayed exactly to the id and fingerprint of the last result; and
   * whoever waits, waits for the request under way, or for a new one with his own ticket.
   */
  lemma AdmissionIff(slot: Slot, ticket: Ticket)
    requires slot.active.Some? && slot.last.Some? ==>
               slot.last.value.requestId != slot.active.value.ticket.requestId
    ensures var (admission, after) := Admit(slot, ticket);
            var id, mark := ticket.requestId, ticket.Print();
            && (admission == Refused("conflict", "request_id_payload_conflict")
                <==> Known(slot, id) && RememberedPrint(slot, id) != mark)
            && (admission == Refused("busy", "runtime_request_active") <==> slot.active.Some? && !Known(slot, id))
            && (admission.Replay? <==>
                  slot.last.Some? && slot.last.value.requestId == id && slot.last.value.fingerprint == mark)
            && (admission.Replay? ==> admission.response == slot.last.value.response)
            && (admission.Refused? ==> admission.outcome == "conflict" || admission.outcome == "busy")
            && (admission.Await? ==>
                  && after.active.Some? && after.active.value.generation == admission.generation
                  && after.active.value.ticket.requestId == id && after.active.value.ticket.Print() == mark)
            && (after != slot ==>
                  && slot.active.None? && !Known(slot, id) && after.last == slot.last
                  && after.generation == slot.generation + 1
                  && after.active.value.ticket == ticket && after.active.value.phase == Pending)
            && (slot.active.None? && !Known(slot, id) ==> after != slot)
  {
    hide Fingerprint;
  }

  // ---------------------------------------------------------------------------------------------
  // The two waits

  /** A command that is handed over at some time may be closed as pending fifteen seconds later, not before. */
  lemma FifteenSecondsToConfirm(p: Platform, s: State)
    requires Inv(p, s) && Enabled(p, s, PrepareEnds(Command))
    ensures var t := Next(p, s, PrepareEnds(Command));
            && Enabled(p, t, PostCommand)
            && var u := Next(p, t, PostCommand);
               && u.log == s.log + [CommandPosted(s.game.request.generation, s.game.request.ticket, s.now + 15)]
               && u.slot.active.Some? && u.slot.active.value.deadline == s.now + 15
  {
    PrepareFindsItsRequest(s, Command);
  }

  /** A verification without a report closes its request exactly when the deadline has come. */
  lemma PendingIffExpired(p: Platform, s: State, detail: string)
    requires Inv(p, s) && Enabled(p, s, VerifyEnds(NoReport, detail))
    ensures var t := Next(p, s, VerifyEnds(NoReport, detail));
            && (s.now < s.slot.active.value.deadline ==> t == s.(game := Idle))
            && (s.now >= s.slot.active.value.deadline ==>
                  && t.slot == s.slot.(active := Some(s.slot.active.value.(result := Result("pending", detail), phase := Done)))
                  && t.log == s.log + [ResultRecorded(s.slot.active.value.generation, Expiry, Result("pending", detail), s.now)])
  {
    VerifyFindsItsRequest(s, NoReport, detail);
  }

  /** Whoever waits gives up after twenty seconds without a result, and neither before nor with one. */
  lemma TwentySecondsToAnswer(p: Platform, s: State, ticket: Ticket)
    requires Enabled(p, s, Submit(ticket)) && Next(p, s, Submit(ticket)).server.Waiting?
    ensures var t := Next(p, s, Submit(ticket));
            forall later: State | later.server == t.server ::
              && (Enabled(p, later, GiveUp) <==>
                    later.now >= s.now + 20 && !Ready(later.slot, t.server.generation))
              && (Enabled(p, later, CollectDone) <==> Ready(later.slot, t.server.generation))
    ensures var t := Next(p, s, Submit(ticket));
            && Enabled(p, t, Tick(20))
            && (Ready(t.slot, t.server.generation) || Enabled(p, Next(p, t, Tick(20)), GiveUp))
  {
  }

  // ---------------------------------------------------------------------------------------------
  // The Windows twin

  /** Without a country check and without a guard only these record results. */
  predicate RecordedOnWindows(log: seq<Event>) {
    forall k | 0 <= k < |log| && log[k].ResultRecorded? ::
      log[k].source.Preparation? || log[k].source.Verification? || log[k].source.Expiry?
  }

  lemma WindowsStep(s: State, step: Step)
    requires Inv(Windows, s) && Enabled(Windows, s, step) && RecordedOnWindows(s.log)
    ensures RecordedOnWindows(Next(Windows, s, step).log)
  {
    hide LogInv;
    match step
    case PrepareEnds(prepared) => PrepareFindsItsRequest(s, prepared);
    case VerifyEnds(verified, detail) => VerifyFindsItsRequest(s, verified, detail);
    case _ =>
  }

  /** In every schedule of the Windows twin a result comes from preparation, from verification or from the deadline. */
  lemma {:induction false} WindowsSources(s: State, schedule: seq<Step>)
    requires Inv(Windows, s) && CanRun(Windows, s, schedule) && RecordedOnWindows(s.log)
    ensures RecordedOnWindows(Run(Windows, s, schedule).log)
    decreases |schedule|
  {
    hide Inv, RecordedOnWindows, Enabled, Next;
    if schedule != [] {
      StepKeepsInv(Windows, s, schedule[0]);
      WindowsStep(s, schedule[0]);
      WindowsSources(Next(Windows, s, schedule[0]), schedule[1..]);
    }
  }
}
