/** Capturing threads under every interleaving: drop counts and first-seen claims. */
module ProbeRuns {
  import opened Basics
  import opened CommandProbe

  datatype Event = Event(sequence: nat, droppedBefore: nat, vtable: nat)

  /**
   * Where a thread is inside `CaptureEvent`. `lost`: in this call another thread was faster to put the same vtable
   * into an entry that this thread had seen empty.
   */
  datatype Pc =
    | Idle
    | Numbered(sequence: nat, vtable: nat)
    | Probing(event: Event, probe: nat, lost: bool)
    | Swapping(event: Event, probe: nat, lost: bool)
    | Writing(event: Event)
    | Refused(event: Event)

  /** A successful claim: of what, at which probe, and whether the claimer had lost an entry to the same vtable. */
  datatype Claim = Claim(vtable: nat, probe: nat, lost: bool)

  /** `failures` counts failed writes; `written` and `claims` are logs. */
  datatype State = State(
    threads: seq<Pc>, sequence: nat, dropped: nat, table: Table, written: seq<Event>, failures: nat,
    claims: seq<Claim>)

  datatype Step =
    | Begin(t: nat, vtable: nat)
    | Exchange(t: nat)
    | Load(t: nat)
    | Swap(t: nat)
    | Write(t: nat, works: bool)
    | AddBack(t: nat)

  predicate Enabled(s: State, step: Step) {
    step.t < |s.threads|
    && match step
       case Begin(t, _) => s.threads[t].Idle?
       case Exchange(t) => s.threads[t].Numbered?
       case Load(t) => s.threads[t].Probing?
       case Swap(t) => s.threads[t].Swapping?
       case Write(t, _) => s.threads[t].Writing?
       case AddBack(t) => s.threads[t].Refused?
  }

  function Loaded(s: State, pc: Pc): Pc
    requires pc.Probing?
  {
    if pc.probe >= PROBES then Writing(pc.event)
    else
      var observed := s.table[Slot(pc.event.vtable, pc.probe)];
      if observed == pc.event.vtable then Writing(pc.event)
      else if observed == 0 then Swapping(pc.event, pc.probe, pc.lost)
      else Probing(pc.event, pc.probe + 1, pc.lost)
  }

  function At(s: State, t: nat, pc: Pc): State
    requires t < |s.threads|
  {
    s.(threads := s.threads[t := pc])
  }

  function Next(s: State, step: Step): State
    requires Enabled(s, step)
  {
    var pc := s.threads[step.t];
    match step
    case Begin(t, vtable) => At(s, t, Numbered(s.sequence + 1, vtable)).(sequence := s.sequence + 1)
    case Exchange(t) => At(s, t, Probing(Event(pc.sequence, s.dropped, pc.vtable), 0, false)).(dropped := 0)
    case Load(t) => At(s, t, Loaded(s, pc))
    case Swap(t) =>
      var v, i := pc.event.vtable, Slot(pc.event.vtable, pc.probe);
      if s.table[i] == 0 then
        At(s, t, Writing(pc.event)).(table := s.table[i := v], claims := s.claims + [Claim(v, pc.probe, pc.lost)])
      else At(s, t, Probing(pc.event, pc.probe + 1, pc.lost || s.table[i] == v))
    case Write(t, works) =>
      if works then At(s, t, Idle).(written := s.written + [pc.event])
      else At(s, t, Refused(pc.event)).(failures := s.failures + 1)
    case AddBack(t) => At(s, t, Idle).(dropped := (s.dropped + pc.event.droppedBefore + 1) % LIMIT)
  }

  function Start(threads: nat): State {
    State(seq(threads, i => Idle), 0, 0, seq(SEEN_CAPACITY, i => 0), [], 0, [])
  }

  predicate CanRun(s: State, steps: seq<Step>)
    decreases |steps|
  {
    steps == [] || (Enabled(s, steps[0]) && CanRun(Next(s, steps[0]), steps[1..]))
  }

  function Run(s: State, steps: seq<Step>): State
    requires CanRun(s, steps)
    decreases |steps|
  {
    if steps == [] then s else Run(Next(s, steps[0]), steps[1..])
  }

  // ---------------------------------------------------------------------------------------------
  // Conservation of drops

  /** Drops that a thread holds in flight. */
  function Carried(pc: Pc): nat {
    match pc
    case Idle => 0
    case Numbered(_, _) => 0
    case Probing(e, _, _) => e.droppedBefore
    case Swapping(e, _, _) => e.droppedBefore
    case Writing(e) => e.droppedBefore
    case Refused(e) => e.droppedBefore + 1
  }

  function InFlight(threads: seq<Pc>): nat {
    if threads == [] then 0 else Carried(threads[0]) + InFlight(threads[1..])
  }

  /** The analyser's total: `dropped_before` summed over the events. */
  function DroppedEventCount(events: seq<Event>): nat {
    if events == [] then 0
    else DroppedEventCount(events[..|events| - 1]) + events[|events| - 1].droppedBefore
  }

  ghost predicate Conserved(s: State) {
    s.failures < LIMIT ==> s.dropped + InFlight(s.threads) + DroppedEventCount(s.written) == s.failures
  }

  lemma {:induction false} ThreadMoves(threads: seq<Pc>, t: nat, pc: Pc)
    requires t < |threads|
    ensures InFlight(threads[t := pc]) == InFlight(threads) - Carried(threads[t]) + Carried(pc)
  {
    var after := threads[t := pc];
    if t == 0 {
      assert after[1..] == threads[1..];
    } else {
      ThreadMoves(threads[1..], t - 1, pc);
      assert after[1..] == threads[1..][t - 1 := pc];
    }
  }

  lemma {:induction false} NothingInFlight(threads: seq<Pc>)
    requires forall t | 0 <= t < |threads| :: threads[t].Idle?
    ensures InFlight(threads) == 0
  {
    if threads != [] {
      NothingInFlight(threads[1..]);
    }
  }

  lemma StepConserves(s: State, step: Step)
    requires Conserved(s) && Enabled(s, step)
    ensures Conserved(Next(s, step))
  {
    hide InFlight, Loaded, Slot;
    var next := Next(s, step);
    ThreadMoves(s.threads, step.t, next.threads[step.t]);
    assert next.threads == s.threads[step.t := next.threads[step.t]];
    if step.Write? && step.works {
      assert next.written[..|s.written|] == s.written;
    } else if step.Load? {
      LoadCarries(s, s.threads[step.t]);
    }
  }

  lemma LoadCarries(s: State, pc: Pc)
    requires pc.Probing?
    ensures Carried(Loaded(s, pc)) == Carried(pc)
  {
  }

  lemma {:induction false} RunConserves(s: State, steps: seq<Step>)
    requires Conserved(s) && CanRun(s, steps)
    ensures Conserved(Run(s, steps))
    decreases |steps|
  {
    if steps != [] {
      StepConserves(s, steps[0]);
      RunConserves(Next(s, steps[0]), steps[1..]);
    }
  }

  /**
   * In every interleaving the shared counter, the drops in flight and the drops reported by written events add up to
   * the failed writes, as long as there are fewer than the counter can hold.
   */
  lemma DropsAreConserved(threads: nat, steps: seq<Step>)
    requires CanRun(Start(threads), steps) && Run(Start(threads), steps).failures < 0x1_0000_0000_0000_0000
    ensures var s := Run(Start(threads), steps);
            && s.dropped + InFlight(s.threads) + DroppedEventCount(s.written) == s.failures
            && DroppedEventCount(s.written) <= s.failures
            && ((forall t | 0 <= t < |s.threads| :: s.threads[t].Idle?) ==>
                  s.dropped + DroppedEventCount(s.written) == s.failures)
  {
    NothingInFlight(Start(threads).threads);
    RunConserves(Start(threads), steps);
    var s := Run(Start(threads), steps);
    if forall t | 0 <= t < |s.threads| :: s.threads[t].Idle? {
      NothingInFlight(s.threads);
    }
  }

  /** A failed write gives back what it carried, and one more. */
  lemma FailedWriteGivesBack(s: State, t: nat)
    requires t < |s.threads| && s.threads[t].Writing?
    requires s.dropped + s.threads[t].event.droppedBefore + 1 < LIMIT
    ensures Enabled(s, Write(t, false)) && Enabled(Next(s, Write(t, false)), AddBack(t))
    ensures var after := Next(Next(s, Write(t, false)), AddBack(t));
            && after.dropped == s.dropped + s.threads[t].event.droppedBefore + 1 && after.failures == s.failures + 1
            && after.written == s.written && after.threads[t].Idle?
  {
  }

  // ---------------------------------------------------------------------------------------------
  // Sequence numbers

  function NumberOf(pc: Pc): Option<nat> {
    match pc
    case Idle => None
    case Numbered(n, _) => Some(n)
    case Probing(e, _, _) => Some(e.sequence)
    case Swapping(e, _, _) => Some(e.sequence)
    case Writing(e) => Some(e.sequence)
    case Refused(e) => None
  }

  /** Numbers in use are at most the counter, and no two events, written or on their way, share one. */
  ghost predicate NumbersDiffer(s: State) {
    && (forall i | 0 <= i < |s.written| :: s.written[i].sequence <= s.sequence)
    && (forall t | 0 <= t < |s.threads| && NumberOf(s.threads[t]).Some? :: NumberOf(s.threads[t]).value <= s.sequence)
    && (forall i, j | 0 <= i < j < |s.written| :: s.written[i].sequence != s.written[j].sequence)
    && (forall t, u | 0 <= t < u < |s.threads| && NumberOf(s.threads[t]).Some? ::
          NumberOf(s.threads[t]) != NumberOf(s.threads[u]))
    && (forall t, i | 0 <= t < |s.threads| && 0 <= i < |s.written| ::
          NumberOf(s.threads[t]) != Some(s.written[i].sequence))
  }

  lemma StepKeepsNumbers(s: State, step: Step)
    requires NumbersDiffer(s) && Enabled(s, step)
    ensures NumbersDiffer(Next(s, step))
  {
    match step
    case Begin(t, _) => BeginKeepsNumbers(s, step);
    case Write(t, works) => WriteKeepsNumbers(s, t, works);
    case _ => MoveKeepsNumbers(s, step.t, Next(s, step).threads[step.t], Next(s, step));
  }

  lemma BeginKeepsNumbers(s: State, step: Step)
    requires NumbersDiffer(s) && Enabled(s, step) && step.Begin?
    ensures NumbersDiffer(Next(s, step))
  {
    var next := Next(s, step);
    assert forall u | 0 <= u < |s.threads| && u != step.t :: next.threads[u] == s.threads[u];
  }

  lemma WriteKeepsNumbers(s: State, t: nat, works: bool)
    requires NumbersDiffer(s) && Enabled(s, Write(t, works))
    ensures NumbersDiffer(Next(s, Write(t, works)))
  {
    var next := Next(s, Write(t, works));
    assert forall u | 0 <= u < |s.threads| && u != t :: next.threads[u] == s.threads[u];
  }

  /** A thread that keeps its number, or gives it up, while nothing is written. */
  lemma MoveKeepsNumbers(s: State, t: nat, pc: Pc, next: State)
    requires NumbersDiffer(s) && t < |s.threads| && (NumberOf(pc).None? || NumberOf(pc) == NumberOf(s.threads[t]))
    requires next.threads == s.threads[t := pc] && next.written == s.written && next.sequence == s.sequence
    ensures NumbersDiffer(next)
  {
    hide NumberOf;
    assert forall u | 0 <= u < |s.threads| && u != t :: next.threads[u] == s.threads[u];
  }

  lemma {:induction false} RunKeepsNumbers(s: State, steps: seq<Step>)
    requires NumbersDiffer(s) && CanRun(s, steps)
    ensures NumbersDiffer(Run(s, steps))
    decreases |steps|
  {
    if steps != [] {
      StepKeepsNumbers(s, steps[0]);
      RunKeepsNumbers(Next(s, steps[0]), steps[1..]);
    }
  }

  /** No two written events carry the same sequence number. */
  lemma SequenceNumbersAreUnique(threads: nat, steps: seq<Step>, i: nat, j: nat)
    requires CanRun(Start(threads), steps) && i < j < |Run(Start(threads), steps).written|
    ensures Run(Start(threads), steps).written[i].sequence != Run(Start(threads), steps).written[j].sequence
  {
    RunKeepsNumbers(Start(threads), steps);
  }
}
