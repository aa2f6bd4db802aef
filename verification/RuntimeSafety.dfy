/** Every step of the native runtime keeps its invariants, and what that gives for whole runs. */
module RuntimeSafety {
  import opened Basics
  import opened RuntimeSlot
  import opened RuntimeRuns

  // ---------------------------------------------------------------------------------------------
  // One more event in the log

  lemma {:induction false} PostIndexAppend(log: seq<Event>, e: Event, g: nat)
    ensures PostIndex(log + [e], g)
            == if PostIndex(log, g) < |log| then PostIndex(log, g)
               else if PostOf(e, g) then |log| else |log| + 1
  {
    if log == [] {
      assert log + [e] == [e];
    } else if !PostOf(log[0], g) {
      PostIndexAppend(log[1..], e, g);
      assert (log + [e])[1..] == log[1..] + [e];
    }
  }

  lemma CachedUpToAppend(log: seq<Event>, e: Event)
    ensures CachedUpTo(log + [e]) == if e.ResultCached? then |log| + 1 else CachedUpTo(log)
  {
    assert (log + [e])[..|log|] == log;
  }

  // ---------------------------------------------------------------------------------------------
  // What a step does to slot and log, in five kinds

  /** The active request is closed and the log says by whom. */
  function Close(s: State, source: Source, result: Result): State
    requires s.slot.active.Some?
  {
    var r := s.slot.active.value;
    s.(slot := s.slot.(active := Some(Closed(r, result))),
       log := s.log + [ResultRecorded(r.generation, source, result, s.now)])
  }

  function PrepareVerdict(prepared: PrepareOutcome): (v: (Source, Result))
    requires !prepared.Command?
    ensures BeforePosting(v.0) && (v.1.outcome == "rejected" || v.1.outcome == "failed")
  {
    match prepared
    case NoCountry => (Authority, Result("rejected", "no_local_observed_country"))
    case OtherCountry => (Authority, Result("rejected", "authority_country_mismatch"))
    case Rejects(detail) => (Preparation, Result("rejected", detail))
    case Fails(detail) => (Preparation, Result("failed", detail))
    case NullCommand => (Preparation, Result("failed", "action_returned_null_command"))
    case PrepareThrows => (PrepareException, Result("failed", "action_prepare_exception"))
  }

  /** While the game thread prepares, nobody else touches its request: the mismatch branch is dead. */
  lemma PrepareFindsItsRequest(s: State, prepared: PrepareOutcome)
    requires ThreadsAgree(s) && s.game.Preparing?
    ensures Holds(s.slot, s.game.request.generation)
    ensures AfterPrepare(s, s.game.request, prepared)
            == if prepared.Command?
               then s.(slot := MarkPosted(s.slot, s.game.request.generation, s.now),
                       game := Submitting(s.game.request))
               else Close(s, PrepareVerdict(prepared).0, PrepareVerdict(prepared).1).(game := Updating)
  {
  }

  function VerifyVerdict(s: State, verified: VerifyOutcome, timeoutDetail: string): (v: Option<(Source, Result)>)
    requires s.game.Verifying?
    ensures v.Some? ==>
              && !BeforePosting(v.value.0)
              && (v.value.0.Expiry? ==> v.value.1.outcome == "pending" && s.now >= s.game.request.deadline)
              && (v.value.0.VerifyException? ==> v.value.1.outcome == "failed")
  {
    match verified
    case Reports(result) => Some((Verification, result))
    case VerifyThrows => Some((VerifyException, Result("failed", "action_verify_exception")))
    case _ =>
      if s.now >= s.game.request.deadline then Some((Expiry, Result("pending", timeoutDetail))) else None
  }

  lemma VerifyFindsItsRequest(s: State, verified: VerifyOutcome, timeoutDetail: string)
    requires ThreadsAgree(s) && s.game.Verifying?
    ensures Holds(s.slot, s.game.request.generation)
    ensures var v := VerifyVerdict(s, verified, timeoutDetail);
            AfterVerify(s, s.game.request, verified, timeoutDetail)
            == (if v.Some? then Close(s, v.value.0, v.value.1) else s).(game := Idle)
  {
    assert s.log + [] == s.log;
  }

  // ---------------------------------------------------------------------------------------------
  // The log, effect by effect

  lemma PostsSurvive(slot: Slot, submitting: bool, log: seq<Event>, e: Event)
    requires PostsAgree(slot, submitting, log) && AtMostOnePost(log) && !e.CommandPosted?
    ensures PostsAgree(slot, submitting, log + [e]) && AtMostOnePost(log + [e])
  {
    if slot.active.Some? {
      PostIndexAppend(log, e, slot.active.value.generation);
    }
  }

  /** Appending anything but a post of its generation leaves a recorded result sound. */
  lemma SoundRecordsSurvive(log: seq<Event>, e: Event)
    requires forall k | 0 <= k < |log| && log[k].ResultRecorded? :: RecordIsSound(log, k)
    requires e.CommandPosted? ==> NeverRecorded(log, e.generation)
    ensures forall k | 0 <= k < |log| && log[k].ResultRecorded? :: RecordIsSound(log + [e], k)
  {
    forall k | 0 <= k < |log| && log[k].ResultRecorded?
      ensures RecordIsSound(log + [e], k)
    {
      assert RecordIsSound(log, k) && RecordOf(log[k], log[k].generation);
      PostIndexAppend(log, e, log[k].generation);
    }
  }

  lemma RecordsSurvive(slot: Slot, log: seq<Event>, e: Event)
    requires RecordsAgree(slot, log) && AtMostOneRecord(log) && !e.ResultRecorded?
    requires e.CommandPosted? ==> NeverRecorded(log, e.generation)
    ensures RecordsAgree(slot, log + [e]) && AtMostOneRecord(log + [e])
  {
    SoundRecordsSurvive(log, e);
    if slot.active.Some? && slot.active.value.phase == Done {
      var g, result := slot.active.value.generation, slot.active.value.result;
      var k :| 0 <= k < |log| && RecordOf(log[k], g) && log[k].result == result;
      assert (log + [e])[k] == log[k];
    }
  }

  lemma CachedSurvive(p: Platform, log: seq<Event>, e: Event)
    requires CachedAreRecorded(p, log)
    requires e.ResultCached? ==> CachedIsRecorded(p, log + [e], |log|)
    ensures CachedAreRecorded(p, log + [e])
  {
    forall c | 0 <= c < |log| + 1 && (log + [e])[c].ResultCached?
      ensures CachedIsRecorded(p, log + [e], c)
    {
      if c < |log| {
        assert CachedIsRecorded(p, log, c);
        assert (log + [e])[..c] == log[..c];
      }
    }
  }

  lemma CacheSurvives(p: Platform, slot: Slot, log: seq<Event>, e: Event)
    requires CacheAgrees(slot, log) && !e.ResultCached?
    requires e.CommandPosted? ==> Holds(slot, e.generation) && slot.active.value.ticket == e.ticket
    ensures CacheAgrees(slot, log + [e])
  {
    CachedUpToAppend(log, e);
  }

  lemma SeparationSurvives(log: seq<Event>, e: Event)
    requires RepostsAreSeparated(log)
    requires e.CommandPosted? ==>
               forall i | 0 <= i < |log| && log[i].CommandPosted?
                          && log[i].ticket.requestId == e.ticket.requestId ::
                 OtherCachedBetween(log + [e], i, |log|)
    ensures RepostsAreSeparated(log + [e])
  {
    forall i, j | 0 <= i < j < |log| && log[i].CommandPosted? && log[j].CommandPosted?
                  && log[i].ticket.requestId == log[j].ticket.requestId
      ensures OtherCachedBetween(log + [e], i, j)
    {
      assert OtherCachedBetween(log, i, j);
      var k :| i < k < j && log[k].ResultCached? && log[k].ticket.requestId != log[i].ticket.requestId;
      assert (log + [e])[k] == log[k];
    }
  }

  // The effects a step can have on slot and log

  lemma AnswerKeeps(p: Platform, slot: Slot, submitting: bool, log: seq<Event>, e: Event)
    requires LogInv(p, slot, submitting, log) && e.Answered?
    ensures LogInv(p, slot, submitting, log + [e])
  {
    PostsSurvive(slot, submitting, log, e);
    RecordsSurvive(slot, log, e);
    CacheSurvives(p, slot, log, e);
    CachedSurvive(p, log, e);
    SeparationSurvives(log, e);
  }

  lemma EnterKeeps(p: Platform, slot: Slot, log: seq<Event>, ticket: Ticket)
    requires LogInv(p, slot, false, log) && slot.active.None?
    ensures var g := slot.generation + 1;
            LogInv(p, slot.(active := Some(Request(g, ticket, Pending, 0, Result("", ""))), generation := g), false, log)
  {
  }

  /** What a source may record, given the phase in which it runs. */
  predicate MayRecord(r: Request, source: Source, result: Result, at: nat) {
    if BeforePosting(source) then
      r.phase == Pending && (result.outcome == "rejected" || result.outcome == "failed")
    else
      && r.phase == Posted
      && (source.Expiry? ==> result.outcome == "pending" && at >= r.deadline)
      && (source.VerifyException? ==> result.outcome == "failed")
  }

  lemma CloseKeepsRecords(slot: Slot, log: seq<Event>, source: Source, result: Result, at: nat)
    requires PostsAgree(slot, false, log) && RecordsAgree(slot, log) && AtMostOneRecord(log)
    requires slot.active.Some? && 1 <= slot.active.value.generation <= slot.generation
    requires MayRecord(slot.active.value, source, result, at)
    ensures var log' := log + [ResultRecorded(slot.active.value.generation, source, result, at)];
            && RecordsAgree(slot.(active := Some(Closed(slot.active.value, result))), log')
            && AtMostOneRecord(log')
  {
    var g := slot.active.value.generation;
    var e := ResultRecorded(g, source, result, at);
    SoundRecordsSurvive(log, e);
    PostIndexAppend(log, e, g);
    assert RecordOf((log + [e])[|log|], g);
    assert RecordIsSound(log + [e], |log|);
    forall k | 0 <= k < |log| && log[k].ResultRecorded?
      ensures log[k].generation != g
    {
      assert !RecordOf(log[k], g);
    }
  }

  lemma CloseKeeps(p: Platform, slot: Slot, log: seq<Event>, source: Source, result: Result, at: nat)
    requires LogInv(p, slot, false, log)
    requires slot.active.Some? && 1 <= slot.active.value.generation <= slot.generation
    requires MayRecord(slot.active.value, source, result, at)
    ensures LogInv(p, slot.(active := Some(Closed(slot.active.value, result))), false,
                   log + [ResultRecorded(slot.active.value.generation, source, result, at)])
  {
    var e := ResultRecorded(slot.active.value.generation, source, result, at);
    CloseKeepsPosts(slot, log, e, result);
    CloseKeepsRecords(slot, log, source, result, at);
    CloseKeepsCache(slot, log, e, result);
    CachedSurvive(p, log, e);
    SeparationSurvives(log, e);
  }

  lemma CloseKeepsPosts(slot: Slot, log: seq<Event>, e: Event, result: Result)
    requires PostsAgree(slot, false, log) && AtMostOnePost(log) && slot.active.Some? && e.ResultRecorded?
    ensures PostsAgree(slot.(active := Some(Closed(slot.active.value, result))), false, log + [e])
    ensures AtMostOnePost(log + [e])
  {
    PostsSurvive(slot, false, log, e);
  }

  lemma CloseKeepsCache(slot: Slot, log: seq<Event>, e: Event, result: Result)
    requires CacheAgrees(slot, log) && slot.active.Some? && e.ResultRecorded?
    ensures CacheAgrees(slot.(active := Some(Closed(slot.active.value, result))), log + [e])
  {
    CachedUpToAppend(log, e);
  }

  lemma MarkKeeps(p: Platform, slot: Slot, log: seq<Event>, now: nat)
    requires LogInv(p, slot, false, log) && slot.active.Some? && slot.active.value.phase == Pending
    ensures LogInv(p, MarkPosted(slot, slot.active.value.generation, now), true, log)
  {
  }

  lemma PostKeeps(p: Platform, slot: Slot, log: seq<Event>)
    requires LogInv(p, slot, true, log) && slot.active.Some? && slot.active.value.phase == Posted
    requires 1 <= slot.active.value.generation <= slot.generation
    requires slot.last.Some? ==> slot.last.value.requestId != slot.active.value.ticket.requestId
    ensures var r := slot.active.value;
            LogInv(p, slot, false, log + [CommandPosted(r.generation, r.ticket, r.deadline)])
  {
    var r := slot.active.value;
    var e := CommandPosted(r.generation, r.ticket, r.deadline);
    RecordsSurvive(slot, log, e);
    CacheSurvives(p, slot, log, e);
    CachedSurvive(p, log, e);
    PostAddsOne(slot, log);
    PostIsSeparated(slot, log);
    SeparationSurvives(log, e);
  }

  lemma PostAddsOne(slot: Slot, log: seq<Event>)
    requires PostsAgree(slot, true, log) && AtMostOnePost(log) && slot.active.Some?
    requires 1 <= slot.active.value.generation <= slot.generation
    ensures var r := slot.active.value;
            var log' := log + [CommandPosted(r.generation, r.ticket, r.deadline)];
            slot.active.value.phase == Posted ==> PostsAgree(slot, false, log') && AtMostOnePost(log')
  {
    var r := slot.active.value;
    PostIndexAppend(log, CommandPosted(r.generation, r.ticket, r.deadline), r.generation);
    forall i | 0 <= i < |log| && log[i].CommandPosted?
      ensures log[i].generation != r.generation
    {
      assert !PostOf(log[i], r.generation);
    }
  }

  lemma PostIsSeparated(slot: Slot, log: seq<Event>)
    requires PostsAgree(slot, true, log) && CacheAgrees(slot, log) && slot.active.Some?
    requires slot.last.Some? ==> slot.last.value.requestId != slot.active.value.ticket.requestId
    ensures var r := slot.active.value;
            var log' := log + [CommandPosted(r.generation, r.ticket, r.deadline)];
            forall i | 0 <= i < |log| && log[i].CommandPosted? && log[i].ticket.requestId == r.ticket.requestId ::
              OtherCachedBetween(log', i, |log|)
  {
    var r := slot.active.value;
    var log' := log + [CommandPosted(r.generation, r.ticket, r.deadline)];
    forall i | 0 <= i < |log| && log[i].CommandPosted? && log[i].ticket.requestId == r.ticket.requestId
      ensures OtherCachedBetween(log', i, |log|)
    {
      assert !PostOf(log[i], r.generation);
      var c := CachedUpTo(log);
      assert i < c && log'[c - 1] == log[c - 1];
    }
  }

  lemma CollectKeeps(p: Platform, slot: Slot, log: seq<Event>)
    requires LogInv(p, slot, false, log) && slot.active.Some? && slot.active.value.phase == Done
    ensures var r := slot.active.value;
            LogInv(p, Collect(slot, p), false,
                   log + [ResultCached(r.generation, r.ticket, r.result, BuildResponse(r, p))])
  {
    var r := slot.active.value;
    var e := ResultCached(r.generation, r.ticket, r.result, BuildResponse(r, p));
    PostsSurvive(slot, false, log, e);
    RecordsSurvive(slot, log, e);
    assert (log + [e])[..|log|] == log;
    CachedSurvive(p, log, e);
    CachedUpToAppend(log, e);
    SeparationSurvives(log, e);
  }

  // ---------------------------------------------------------------------------------------------
  // Every step

  lemma SubmitKeepsThreads(s: State, ticket: Ticket)
    requires ThreadsAgree(s) && s.server.Accepting?
    ensures ThreadsAgree(AfterSubmit(s, ticket))
  {
  }

  /** Entering a request leaves the slot alone, except that an empty slot takes the request. */
  lemma SubmitEffect(s: State, ticket: Ticket)
    ensures var s' := AfterSubmit(s, ticket);
            && s'.game == s.game
            && (|| (s'.slot == s.slot && s'.log == s.log)
                || (s'.slot == s.slot && |s'.log| == |s.log| + 1 && s'.log == s.log + [s'.log[|s.log|]]
                    && s'.log[|s.log|].Answered?)
                || (s.slot.active.None? && s'.log == s.log
                    && s'.slot == s.slot.(active := Some(Request(s.slot.generation + 1, ticket, Pending, 0, Result("", ""))),
                                          generation := s.slot.generation + 1)))
  {
  }

  lemma SubmitKeepsLog(p: Platform, s: State, ticket: Ticket)
    requires Inv(p, s) && s.server.Accepting?
    ensures var s' := AfterSubmit(s, ticket); LogInv(p, s'.slot, s'.game.Submitting?, s'.log)
  {
    var s' := AfterSubmit(s, ticket);
    SubmitEffect(s, ticket);
    if |s'.log| > |s.log| {
      AnswerKeeps(p, s.slot, s.game.Submitting?, s.log, s'.log[|s.log|]);
    } else if s'.slot != s.slot {
      EnterKeeps(p, s.slot, s.log, ticket);
    }
  }

  lemma CollectKeepsThreads(p: Platform, s: State)
    requires ThreadsAgree(s) && Enabled(p, s, CollectDone)
    ensures ThreadsAgree(AfterCollect(p, s))
  {
  }

  lemma CollectKeepsLog(p: Platform, s: State)
    requires Inv(p, s) && Enabled(p, s, CollectDone)
    ensures var s' := AfterCollect(p, s); LogInv(p, s'.slot, s'.game.Submitting?, s'.log)
  {
    var r := s.slot.active.value;
    CollectKeeps(p, s.slot, s.log);
    var log := s.log + [ResultCached(r.generation, r.ticket, r.result, BuildResponse(r, p))];
    AnswerKeeps(p, Collect(s.slot, p), false, log, Answered(s.server.ticket, Whole(BuildResponse(r, p))));
  }

  lemma GiveUpKeeps(p: Platform, s: State)
    requires Inv(p, s) && Enabled(p, s, GiveUp)
    ensures Inv(p, Next(p, s, GiveUp))
  {
    AnswerKeeps(p, s.slot, s.game.Submitting?, s.log,
                Answered(s.server.ticket, Immediate("pending", "runtime_response_timeout")));
  }

  /** Closing the request that the game thread holds, on its way out of Prepare or Verify. */
  lemma CloseStateKeeps(p: Platform, s: State, source: Source, result: Result, game: GameThread)
    requires Inv(p, s) && (s.game.Preparing? || s.game.Verifying?) && (game.Idle? || game.Updating?)
    requires MayRecord(s.slot.active.value, source, result, s.now)
    ensures Inv(p, Close(s, source, result).(game := game))
  {
    CloseKeeps(p, s.slot, s.log, source, result, s.now);
  }

  lemma MarkStateKeeps(p: Platform, s: State)
    requires Inv(p, s) && s.game.Preparing?
    ensures var r := s.game.request;
            Inv(p, s.(slot := MarkPosted(s.slot, r.generation, s.now), game := Submitting(r)))
  {
    MarkKeeps(p, s.slot, s.log, s.now);
  }

  lemma PrepareEndsKeeps(p: Platform, s: State, prepared: PrepareOutcome)
    requires Inv(p, s) && s.game.Preparing?
    ensures Inv(p, AfterPrepare(s, s.game.request, prepared))
  {
    PrepareFindsItsRequest(s, prepared);
    if prepared.Command? {
      MarkStateKeeps(p, s);
    } else {
      var verdict := PrepareVerdict(prepared);
      CloseStateKeeps(p, s, verdict.0, verdict.1, Updating);
    }
  }

  lemma PostCommandKeeps(p: Platform, s: State)
    requires Inv(p, s) && s.game.Submitting?
    ensures Inv(p, Next(p, s, PostCommand))
  {
    hide LogInv;
    PostKeeps(p, s.slot, s.log);
  }

  lemma VerifyEndsKeeps(p: Platform, s: State, verified: VerifyOutcome, timeoutDetail: string)
    requires Inv(p, s) && s.game.Verifying?
    ensures Inv(p, AfterVerify(s, s.game.request, verified, timeoutDetail))
  {
    VerifyFindsItsRequest(s, verified, timeoutDetail);
    var v := VerifyVerdict(s, verified, timeoutDetail);
    if v.Some? {
      CloseStateKeeps(p, s, v.value.0, v.value.1, Idle);
    }
  }

  lemma BeginKeeps(p: Platform, s: State, step: Step)
    requires Inv(p, s) && Enabled(p, s, step) && (step.Tick? || step.BeginUpdate? || step.BeginVerify?)
    ensures Inv(p, Next(p, s, step))
  {
  }

  lemma StepKeepsInv(p: Platform, s: State, step: Step)
    requires Inv(p, s) && Enabled(p, s, step)
    ensures Inv(p, Next(p, s, step))
  {
    match step
    case Submit(ticket) => SubmitKeepsThreads(s, ticket); SubmitKeepsLog(p, s, ticket);
    case CollectDone => CollectKeepsThreads(p, s); CollectKeepsLog(p, s);
    case GiveUp => GiveUpKeeps(p, s);
    case PrepareEnds(prepared) => PrepareEndsKeeps(p, s, prepared);
    case PostCommand => PostCommandKeeps(p, s);
    case VerifyEnds(v, d) => VerifyEndsKeeps(p, s, v, d);
    case _ => BeginKeeps(p, s, step);
  }

  /** The invariants hold after every schedule. */
  lemma {:induction false} RunKeepsInv(p: Platform, s: State, schedule: seq<Step>)
    requires Inv(p, s) && CanRun(p, s, schedule)
    ensures Inv(p, Run(p, s, schedule))
    decreases |schedule|
  {
    if schedule != [] {
      StepKeepsInv(p, s, schedule[0]);
      RunKeepsInv(p, Next(p, s, schedule[0]), schedule[1..]);
    }
  }
}
