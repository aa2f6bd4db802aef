/** Correlating command posts with payload events: binary-searched windows against the plain filter. */
module CaptureAnalysis {
  import opened Basics
  import opened StableSort

  datatype CommandType = QueueFleetOrder | QueueFleetsOrder | AddBuildableToQueue | OtherCommand(name: string)

  datatype Command = Command(thread: Option<int>, time: Option<int>, isPost: bool, kind: CommandType)

  datatype Payload = Payload(thread: Option<int>, time: Option<int>, objectType: Option<string>, buildable: bool)

  predicate IsWrapper(c: CommandType) {
    !c.OtherCommand?
  }

  predicate StandsAt(s: string, i: int, text: string) {
    0 <= i <= |s| - |text| && s[i..i + |text|] == text
  }

  predicate HasText(s: string, text: string) {
    exists i :: 0 <= i <= |s| && StandsAt(s, i, text)
  }

  predicate EndsWith(s: string, text: string) {
    |s| >= |text| && s[|s| - |text|..] == text
  }

  const FLEET_ORDER := "FleetOrder"
  const FLEET_ACTION := "FleetAction"
  const COMMAND := "Command"
  const SCRIPTED := "CScriptedFleetOrder"
  const UNKNOWN := "<unknown>"

  function TextOf(t: Option<string>, default: string): string {
    if t.Some? then t.value else default
  }

  predicate PayloadMatchesWrapper(wrapper: CommandType, p: Payload) {
    if wrapper.AddBuildableToQueue? then p.buildable
    else HasText(TextOf(p.objectType, ""), FLEET_ORDER) && !EndsWith(TextOf(p.objectType, ""), COMMAND)
  }

  predicate IsNested(p: Payload) {
    && p.objectType.Some?
    && (HasText(p.objectType.value, FLEET_ORDER) || HasText(p.objectType.value, FLEET_ACTION))
    && !EndsWith(p.objectType.value, COMMAND)
  }

  // ---------------------------------------------------------------------------------------------
  // Selecting and sorting

  function Select<T>(s: seq<T>, wanted: T -> bool): (r: seq<T>)
    ensures forall x | x in r :: wanted(x)
  {
    if s == [] then []
    else
      var rest := Select(s[1..], wanted);
      if wanted(s[0]) then [s[0]] + rest else rest
  }

  function PayloadTime(p: Payload): int {
    if p.time.Some? then p.time.value else 0
  }

  function CommandTime(c: Command): int {
    if c.time.Some? then c.time.value else 0
  }

  function OnThread(thread: int): Payload -> bool {
    (p: Payload) => p.thread == Some(thread) && p.time.Some?
  }

  function PostsUntil(thread: int, high: int): Command -> bool {
    (c: Command) => c.isPost && c.thread == Some(thread) && c.time.Some? && c.time.value <= high
  }

  function PayloadEvents(payloads: seq<Payload>, thread: int): seq<Payload> {
    SortBy(Select(payloads, OnThread(thread)), PayloadTime)
  }

  function Posts(commands: seq<Command>, thread: int, high: int): seq<Command> {
    SortBy(Select(commands, PostsUntil(thread, high)), CommandTime)
  }

  // ---------------------------------------------------------------------------------------------
  // Windows

  predicate Ascending(a: seq<int>) {
    forall i, j | 0 <= i < j < |a| :: a[i] <= a[j]
  }

  /** `bisect.bisect_left(a, x, lo)` */
  method BisectLeft(a: seq<int>, x: int, lo: nat) returns (i: nat)
    requires Ascending(a) && lo <= |a|
    ensures lo <= i <= |a|
    ensures forall k | lo <= k < i :: a[k] < x
    ensures forall k | i <= k < |a| :: a[k] >= x
  {
    var low, high := lo, |a|;
    while low < high
      invariant lo <= low <= high <= |a|
      invariant forall k | lo <= k < low :: a[k] < x
      invariant forall k | high <= k < |a| :: a[k] >= x
    {
      var middle := (low + high) / 2;
      if a[middle] < x {
        low := middle + 1;
      } else {
        high := middle;
      }
    }
    return low;
  }

  function InWindow(start: int, end: int): Payload -> bool {
    (p: Payload) => start <= PayloadTime(p) < end
  }

  lemma {:induction false} SelectNone<T>(s: seq<T>, wanted: T -> bool)
    requires forall i | 0 <= i < |s| :: !wanted(s[i])
    ensures Select(s, wanted) == []
  {
    if s != [] {
      SelectNone(s[1..], wanted);
    }
  }

  lemma {:induction false} SelectAll<T>(s: seq<T>, wanted: T -> bool)
    requires forall i | 0 <= i < |s| :: wanted(s[i])
    ensures Select(s, wanted) == s
  {
    if s != [] {
      SelectAll(s[1..], wanted);
      assert s == [s[0]] + s[1..];
    }
  }

  lemma {:induction false} SelectConcat<T>(a: seq<T>, b: seq<T>, wanted: T -> bool)
    ensures Select(a + b, wanted) == Select(a, wanted) + Select(b, wanted)
  {
    if a == [] {
      assert a + b == b;
    } else {
      SelectConcat(a[1..], b, wanted);
      assert (a + b)[1..] == a[1..] + b;
    }
  }

  lemma SelectMiddle<T>(a: seq<T>, b: seq<T>, c: seq<T>, wanted: T -> bool)
    requires forall i | 0 <= i < |a| :: !wanted(a[i])
    requires forall i | 0 <= i < |b| :: wanted(b[i])
    requires forall i | 0 <= i < |c| :: !wanted(c[i])
    ensures Select(a + b + c, wanted) == b
  {
    SelectNone(a, wanted);
    SelectAll(b, wanted);
    SelectNone(c, wanted);
    SelectConcat(a + b, c, wanted);
    SelectConcat(a, b, wanted);
  }

  /** A slice whose elements are wanted, between parts without wanted elements, is what the plain filter selects. */
  lemma SliceIsFilter<T>(s: seq<T>, i: nat, j: nat, wanted: T -> bool)
    requires i <= j <= |s|
    requires forall k | 0 <= k < |s| :: wanted(s[k]) <==> i <= k < j
    ensures s[i..j] == Select(s, wanted)
  {
    SelectMiddle(s[..i], s[i..j], s[j..], wanted);
    ThreeParts(s, i, j);
  }

  lemma ThreeParts<T>(s: seq<T>, i: nat, j: nat)
    requires i <= j <= |s|
    ensures s[..i] + s[i..j] + s[j..] == s
  {
  }

  /** The window between two binary searches is the plain filter `start <= t < end`. */
  method Window(events: seq<Payload>, times: seq<int>, start: int, end: int) returns (window: seq<Payload>)
    requires |times| == |events| && Ascending(times)
    requires forall k | 0 <= k < |events| :: times[k] == PayloadTime(events[k])
    ensures window == Select(events, InWindow(start, end))
  {
    var begin := BisectLeft(times, start, 0);
    var stop := BisectLeft(times, end, begin);
    window := events[begin..stop];
    SliceIsFilter(events, begin, stop, InWindow(start, end));
  }

  // ---------------------------------------------------------------------------------------------
  // What each post contributes

  datatype Verdict =
    | Ignored
    | Missing(wrapper: CommandType)
    | Matched(wrapper: CommandType, objectType: string, nested: Option<seq<string>>)

  function EndOf(posts: seq<Command>, i: nat, high: int): int
    requires i < |posts|
  {
    if i + 1 < |posts| then CommandTime(posts[i + 1]) else high + 1
  }

  function NestedTypes(window: seq<Payload>): seq<string> {
    if window == [] then []
    else (if IsNested(window[0]) then [TextOf(window[0].objectType, "")] else []) + NestedTypes(window[1..])
  }

  function Judge(wrapper: CommandType, window: seq<Payload>): Verdict {
    var matching := Select(window, (p: Payload) => PayloadMatchesWrapper(wrapper, p));
    if matching == [] then Missing(wrapper)
    else
      Matched(
        wrapper, TextOf(matching[0].objectType, UNKNOWN),
        if matching[0].objectType == Some(SCRIPTED) then Some(NestedTypes(window)) else None)
  }

  /** A wrapper post whose window ends behind the first payload. */
  predicate Counts(posts: seq<Command>, i: nat, low: int, high: int)
    requires i < |posts|
  {
    IsWrapper(posts[i].kind) && EndOf(posts, i, high) > low
  }

  /** The verdict on one post, by the plain filter. */
  function VerdictOn(events: seq<Payload>, posts: seq<Command>, i: nat, low: int, high: int): Verdict
    requires i < |posts|
  {
    if !Counts(posts, i, low, high) then Ignored
    else Judge(posts[i].kind, Select(events, InWindow(CommandTime(posts[i]), EndOf(posts, i, high))))
  }

  datatype Report = Report(
    correlations: multiset<(CommandType, string)>, missing: multiset<CommandType>, scripted: multiset<seq<string>>)

  const NOTHING: Report := Report(multiset{}, multiset{}, multiset{})

  function Add(r: Report, v: Verdict): Report {
    match v
    case Ignored => r
    case Missing(wrapper) => r.(missing := r.missing + multiset{wrapper})
    case Matched(wrapper, objectType, nested) =>
      r.(correlations := r.correlations + multiset{(wrapper, objectType)},
         scripted := if nested.Some? then r.scripted + multiset{nested.value} else r.scripted)
  }

  function ReportOn(events: seq<Payload>, posts: seq<Command>, n: nat, low: int, high: int): Report
    requires n <= |posts|
  {
    if n == 0 then NOTHING
    else Add(ReportOn(events, posts, n - 1, low, high), VerdictOn(events, posts, n - 1, low, high))
  }

  /** The whole analysis, by the plain filter. */
  function Analysis(commands: seq<Command>, payloads: seq<Payload>, thread: int): Report {
    var events := PayloadEvents(payloads, thread);
    if events == [] then NOTHING
    else
      var low, high := PayloadTime(events[0]), PayloadTime(events[|events| - 1]);
      var posts := Posts(commands, thread, high);
      ReportOn(events, posts, |posts|, low, high)
  }

  method FirstMatch(wrapper: CommandType, window: seq<Payload>) returns (found: Option<Payload>)
    ensures var matching := Select(window, (p: Payload) => PayloadMatchesWrapper(wrapper, p));
            found == if matching == [] then None else Some(matching[0])
  {
    var matches := (p: Payload) => PayloadMatchesWrapper(wrapper, p);
    var i := 0;
    while i < |window|
      invariant 0 <= i <= |window|
      invariant Select(window, matches) == Select(window[i..], matches)
    {
      assert window[i..][1..] == window[i + 1..];
      if PayloadMatchesWrapper(wrapper, window[i]) {
        return Some(window[i]);
      }
      i := i + 1;
    }
    return None;
  }

  lemma TimesAscend(payloads: seq<Payload>, thread: int)
    ensures SortedBy(PayloadEvents(payloads, thread), PayloadTime)
  {
    SortIsStable(Select(payloads, OnThread(thread)), PayloadTime, 0);
  }

  lemma PostsAscend(commands: seq<Command>, thread: int, high: int)
    ensures SortedBy(Posts(commands, thread, high), CommandTime)
  {
    SortIsStable(Select(commands, PostsUntil(thread, high)), CommandTime, 0);
  }

  /** The body of the loop for one post. */
  method JudgePost(
    events: seq<Payload>, times: seq<int>, posts: seq<Command>, index: nat, low: int, high: int, before: Report)
    returns (r: Report)
    requires index < |posts| && |times| == |events| && Ascending(times)
    requires forall k | 0 <= k < |events| :: times[k] == PayloadTime(events[k])
    ensures r == Add(before, VerdictOn(events, posts, index, low, high))
  {
    r := before;
    var wrapper := posts[index].kind;
    if !IsWrapper(wrapper) {
      return;
    }
    var end := EndOf(posts, index, high);
    if end <= low {
      return;
    }
    var window := Window(events, times, CommandTime(posts[index]), end);
    var found := FirstMatch(wrapper, window);
    if found.None? {
      r := r.(missing := r.missing + multiset{wrapper});
      return;
    }
    r := r.(correlations := r.correlations + multiset{(wrapper, TextOf(found.value.objectType, UNKNOWN))});
    if found.value.objectType == Some(SCRIPTED) {
      r := r.(scripted := r.scripted + multiset{NestedTypes(window)});
    }
  }

  /** The loop with its binary searches reports what the plain filter says. */
  method CorrelatePayloads(commands: seq<Command>, payloads: seq<Payload>, thread: int) returns (r: Report)
    ensures r == Analysis(commands, payloads, thread)
  {
    var events := PayloadEvents(payloads, thread);
    if events == [] {
      return NOTHING;
    }
    TimesAscend(payloads, thread);
    var times := seq(|events|, k requires 0 <= k < |events| => PayloadTime(events[k]));
    var low, high := times[0], times[|times| - 1];
    var posts := Posts(commands, thread, high);
    r := NOTHING;
    var index := 0;
    while index < |posts|
      invariant 0 <= index <= |posts|
      invariant r == ReportOn(events, posts, index, low, high)
    {
      r := JudgePost(events, times, posts, index, low, high, r);
      index := index + 1;
    }
  }

  // ---------------------------------------------------------------------------------------------
  // No payload serves two posts, and nothing is counted twice

  /** Windows of different posts have no payload in common. */
  lemma WindowsAreDisjoint(commands: seq<Command>, thread: int, high: int, i: nat, j: nat, p: Payload)
    requires i < j < |Posts(commands, thread, high)|
    ensures var posts := Posts(commands, thread, high);
            !(InWindow(CommandTime(posts[i]), EndOf(posts, i, high))(p)
              && InWindow(CommandTime(posts[j]), EndOf(posts, j, high))(p))
  {
    PostsAscend(commands, thread, high);
    var posts := Posts(commands, thread, high);
    assert i + 1 < j ==> CommandTime(posts[i + 1]) <= CommandTime(posts[j]);
  }

  function CountingPosts(posts: seq<Command>, n: nat, low: int, high: int): nat
    requires n <= |posts|
  {
    if n == 0 then 0 else CountingPosts(posts, n - 1, low, high) + if Counts(posts, n - 1, low, high) then 1 else 0
  }

  /** Correlated and missing posts together are the wrapper posts whose window ends behind the first payload. */
  lemma {:induction false} EveryCountingPostIsJudgedOnce(
    events: seq<Payload>, posts: seq<Command>, n: nat, low: int, high: int)
    requires n <= |posts|
    ensures var r := ReportOn(events, posts, n, low, high);
            && |r.correlations| + |r.missing| == CountingPosts(posts, n, low, high)
            && |r.scripted| <= |r.correlations|
  {
    if n > 0 {
      EveryCountingPostIsJudgedOnce(events, posts, n - 1, low, high);
    }
  }

  /** No window is empty of payloads and matched, and a match lies in its own window. */
  lemma MatchLiesInWindow(events: seq<Payload>, posts: seq<Command>, i: nat, low: int, high: int)
    requires i < |posts| && VerdictOn(events, posts, i, low, high).Matched?
    ensures exists p :: p in events && InWindow(CommandTime(posts[i]), EndOf(posts, i, high))(p)
              && PayloadMatchesWrapper(posts[i].kind, p)
              && TextOf(p.objectType, UNKNOWN) == VerdictOn(events, posts, i, low, high).objectType
  {
    var window := Select(events, InWindow(CommandTime(posts[i]), EndOf(posts, i, high)));
    var matching := Select(window, (p: Payload) => PayloadMatchesWrapper(posts[i].kind, p));
    assert matching[0] in matching;
    SelectedFrom(window, (p: Payload) => PayloadMatchesWrapper(posts[i].kind, p), matching[0]);
    SelectedFrom(events, InWindow(CommandTime(posts[i]), EndOf(posts, i, high)), matching[0]);
  }

  lemma {:induction false} SelectedFrom<T>(s: seq<T>, wanted: T -> bool, x: T)
    requires x in Select(s, wanted)
    ensures x in s
  {
    if x != s[0] || !wanted(s[0]) {
      SelectedFrom(s[1..], wanted, x);
    }
  }
}
