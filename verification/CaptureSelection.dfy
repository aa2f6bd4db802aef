/** Which events the correlation looks at, and what its verdict on a post means. */
module CaptureSelection {
  import opened Basics
  import opened StableSort
  import opened CaptureAnalysis

  // ---------------------------------------------------------------------------------------------
  // Names of payloads

  ghost predicate Mentions(s: string, text: string) {
    exists before, after :: s == before + text + after
  }

  ghost predicate Closes(s: string, text: string) {
    exists before :: s == before + text
  }

  lemma HasTextIff(s: string, text: string)
    ensures HasText(s, text) <==> Mentions(s, text)
  {
    if i: int :| 0 <= i <= |s| && StandsAt(s, i, text) {
      assert s == s[..i] + text + s[i + |text|..];
    }
    if before, after :| s == before + text + after {
      assert StandsAt(s, |before|, text);
    }
  }

  lemma EndsWithIff(s: string, text: string)
    ensures EndsWith(s, text) <==> Closes(s, text)
  {
    if EndsWith(s, text) {
      assert s == s[..|s| - |text|] + text;
    }
  }

  /** Buildables answer for a construction; for fleet orders it is the name that counts. */
  lemma MatchesIff(wrapper: CommandType, p: Payload)
    ensures PayloadMatchesWrapper(wrapper, p) <==>
            if wrapper == AddBuildableToQueue then p.buildable
            else p.objectType.Some? && Mentions(p.objectType.value, "FleetOrder") && !Closes(p.objectType.value, "Command")
  {
    hide Mentions, HasText, Closes, EndsWith;
    var t := TextOf(p.objectType, "");
    HasTextIff(t, "FleetOrder");
    EndsWithIff(t, "Command");
    NothingMentioned("FleetOrder");
  }

  lemma NothingMentioned(text: string)
    requires text != ""
    ensures !Mentions("", text)
  {
  }

  lemma NestedIff(p: Payload)
    ensures IsNested(p) <==>
            && p.objectType.Some?
            && (Mentions(p.objectType.value, "FleetOrder") || Mentions(p.objectType.value, "FleetAction"))
            && !Closes(p.objectType.value, "Command")
  {
    hide Mentions, HasText, Closes, EndsWith;
    if p.objectType.Some? {
      HasTextIff(p.objectType.value, "FleetOrder");
      HasTextIff(p.objectType.value, "FleetAction");
      EndsWithIff(p.objectType.value, "Command");
    }
  }

  // ---------------------------------------------------------------------------------------------
  // What is selected

  /** Selecting keeps every wanted element as often as it occurs. */
  lemma {:induction false} SelectCounts<T(!new)>(s: seq<T>, wanted: T -> bool, x: T)
    ensures multiset(Select(s, wanted))[x] == if wanted(x) then multiset(s)[x] else 0
  {
    if s != [] {
      SelectCounts(s[1..], wanted, x);
      assert s == [s[0]] + s[1..];
      var rest := Select(s[1..], wanted);
      assert wanted(s[0]) ==> multiset([s[0]] + rest) == multiset{s[0]} + multiset(rest);
    }
  }

  /** The payloads looked at: those of the game's thread with a time, each as often as it was captured. */
  lemma PayloadsLookedAt(payloads: seq<Payload>, thread: int, p: Payload)
    ensures multiset(PayloadEvents(payloads, thread))[p]
            == if p.thread.Some? && p.thread.value == thread && p.time.Some? then multiset(payloads)[p] else 0
  {
    SelectCounts(payloads, OnThread(thread), p);
    SortSorts(Select(payloads, OnThread(thread)), PayloadTime);
  }

  /** The posts looked at: those of the game's thread with a time not behind the last payload. */
  lemma PostsLookedAt(commands: seq<Command>, thread: int, high: int, c: Command)
    ensures multiset(Posts(commands, thread, high))[c]
            == if c.isPost && c.thread.Some? && c.thread.value == thread && c.time.Some? && !(c.time.value > high)
               then multiset(commands)[c] else 0
  {
    SelectCounts(commands, PostsUntil(thread, high), c);
    SortSorts(Select(commands, PostsUntil(thread, high)), CommandTime);
  }

  lemma SelectedAre<T(!new)>(s: seq<T>, sorted: seq<T>, wanted: T -> bool)
    requires multiset(sorted) == multiset(Select(s, wanted))
    ensures forall x | x in sorted :: wanted(x)
  {
    forall x | x in sorted ensures wanted(x) {
      assert x in multiset(sorted);
      assert x in Select(s, wanted);
    }
  }

  /** Payloads are looked at in the order of their times. */
  lemma PayloadsInOrder(payloads: seq<Payload>, thread: int)
    ensures var events := PayloadEvents(payloads, thread);
            && (forall p | p in events :: p.time.Some? && PayloadTime(p) == p.time.value)
            && forall i, j | 0 <= i < j < |events| && events[i].time.Some? && events[j].time.Some? ::
                 events[i].time.value <= events[j].time.value
  {
    var events := PayloadEvents(payloads, thread);
    SortSorts(Select(payloads, OnThread(thread)), PayloadTime);
    SelectedAre(payloads, events, OnThread(thread));
    forall i, j | 0 <= i < j < |events| && events[i].time.Some? && events[j].time.Some?
      ensures events[i].time.value <= events[j].time.value
    {
      assert PayloadTime(events[i]) <= PayloadTime(events[j]);
    }
  }

  /** And so are posts. */
  lemma PostsInOrder(commands: seq<Command>, thread: int, high: int)
    ensures var posts := Posts(commands, thread, high);
            && (forall c | c in posts :: c.time.Some? && CommandTime(c) == c.time.value)
            && forall i, j | 0 <= i < j < |posts| && posts[i].time.Some? && posts[j].time.Some? ::
                 posts[i].time.value <= posts[j].time.value
  {
    var posts := Posts(commands, thread, high);
    SortSorts(Select(commands, PostsUntil(thread, high)), CommandTime);
    SelectedAre(commands, posts, PostsUntil(thread, high));
    forall i, j | 0 <= i < j < |posts| && posts[i].time.Some? && posts[j].time.Some?
      ensures posts[i].time.value <= posts[j].time.value
    {
      assert CommandTime(posts[i]) <= CommandTime(posts[j]);
    }
  }

  /** The types of the nested payloads of a window, in order. */
  lemma {:induction false} NestedTypesOf(window: seq<Payload>)
    ensures var nested := Select(window, IsNested);
            && |NestedTypes(window)| == |nested|
            && forall i | 0 <= i < |nested| :: nested[i].objectType == Some(NestedTypes(window)[i])
  {
    hide IsNested;
    if window != [] {
      NestedTypesOf(window[1..]);
      NestedHasType(window[0]);
    }
  }

  lemma NestedHasType(p: Payload)
    ensures IsNested(p) ==> p.objectType.Some?
  {
  }

  // ---------------------------------------------------------------------------------------------
  // Every payload has its window

  /** The last post that is not behind a time. */
  lemma {:induction false} LastPostUntil(posts: seq<Command>, time: int, n: nat) returns (i: nat)
    requires 0 < n <= |posts| && CommandTime(posts[0]) <= time
    ensures i < n && CommandTime(posts[i]) <= time
    ensures forall k | i < k < n :: CommandTime(posts[k]) > time
  {
    if CommandTime(posts[n - 1]) <= time {
      i := n - 1;
    } else {
      i := LastPostUntil(posts, time, n - 1);
    }
  }

  /** Every payload from the first post on lies in a window, namely in that of the last post before it. */
  lemma EveryPayloadHasAWindow(commands: seq<Command>, payloads: seq<Payload>, thread: int, p: Payload)
    requires p in PayloadEvents(payloads, thread)
    requires var events := PayloadEvents(payloads, thread);
             var posts := Posts(commands, thread, PayloadTime(events[|events| - 1]));
             posts != [] && CommandTime(posts[0]) <= PayloadTime(p)
    ensures var events := PayloadEvents(payloads, thread);
            var high := PayloadTime(events[|events| - 1]);
            var posts := Posts(commands, thread, high);
            exists i :: 0 <= i < |posts| && InWindow(CommandTime(posts[i]), EndOf(posts, i, high))(p)
              && CommandTime(posts[i]) <= PayloadTime(p)
              && forall k | i < k < |posts| :: CommandTime(posts[k]) > PayloadTime(p)
  {
    var events := PayloadEvents(payloads, thread);
    var high := PayloadTime(events[|events| - 1]);
    var posts := Posts(commands, thread, high);
    var i := LastPostUntil(posts, PayloadTime(p), |posts|);
    TimesAscend(payloads, thread);
    var k :| 0 <= k < |events| && events[k] == p;
    assert PayloadTime(p) <= high;
  }

  // ---------------------------------------------------------------------------------------------
  // What a verdict means

  /** A payload of the post's window that answers for its wrapper. */
  predicate Answers(events: seq<Payload>, posts: seq<Command>, i: nat, high: int, p: Payload)
    requires i < |posts|
  {
    && p in events && CommandTime(posts[i]) <= PayloadTime(p) < EndOf(posts, i, high)
    && PayloadMatchesWrapper(posts[i].kind, p)
  }

  lemma {:induction false} SelectOrder(events: seq<Payload>, wanted: Payload -> bool)
    requires SortedBy(events, PayloadTime)
    ensures SortedBy(Select(events, wanted), PayloadTime)
    ensures forall x :: x in Select(events, wanted) <==> x in events && wanted(x)
  {
    if events != [] {
      var first, rest := events[0], events[1..];
      assert events == [first] + rest;
      assert forall k | 0 <= k < |rest| :: rest[k] == events[k + 1];
      SelectOrder(rest, wanted);
      var selected := Select(rest, wanted);
      forall x | x in selected ensures PayloadTime(first) <= PayloadTime(x) {
        assert x in rest;
        FirstIsEarliest(events, x);
      }
      FrontOfSorted(first, selected);
    }
  }

  lemma FirstIsEarliest(events: seq<Payload>, x: Payload)
    requires SortedBy(events, PayloadTime) && events != [] && x in events[1..]
    ensures PayloadTime(events[0]) <= PayloadTime(x)
  {
    var m :| 0 <= m < |events[1..]| && events[1..][m] == x;
    assert events[m + 1] == x;
  }

  lemma FrontOfSorted(first: Payload, rest: seq<Payload>)
    requires SortedBy(rest, PayloadTime) && forall x | x in rest :: PayloadTime(first) <= PayloadTime(x)
    ensures SortedBy([first] + rest, PayloadTime)
  {
    var all := [first] + rest;
    forall i, j | 0 <= i < j < |all| ensures PayloadTime(all[i]) <= PayloadTime(all[j]) {
      assert all[j] == rest[j - 1] && all[j] in rest;
    }
  }

  /**
   * A wrapper's post counts unless its window ends before the first payload. It is missing if no payload of its window
   * answers for it; and otherwise it is correlated with the earliest one that does, and with the nested types of its
   * whole window if that one is scripted.
   */
  lemma VerdictMeans(events: seq<Payload>, posts: seq<Command>, i: nat, low: int, high: int)
    requires i < |posts| && SortedBy(events, PayloadTime)
    ensures match VerdictOn(events, posts, i, low, high)
            case Ignored => posts[i].kind.OtherCommand? || EndOf(posts, i, high) <= low
            case Missing(wrapper) =>
              && wrapper == posts[i].kind && !wrapper.OtherCommand? && EndOf(posts, i, high) > low
              && forall p | p in events :: !Answers(events, posts, i, high, p)
            case Matched(wrapper, objectType, nested) =>
              && wrapper == posts[i].kind && !wrapper.OtherCommand? && EndOf(posts, i, high) > low
              && exists p ::
                   && Answers(events, posts, i, high, p)
                   && (forall q | q in events && Answers(events, posts, i, high, q) :: PayloadTime(p) <= PayloadTime(q))
                   && objectType == (if p.objectType.Some? then p.objectType.value else "<unknown>")
                   && nested == if p.objectType == Some("CScriptedFleetOrder")
                                then Some(NestedTypes(Select(events, InWindow(CommandTime(posts[i]), EndOf(posts, i, high)))))
                                else None
  {
    hide PayloadMatchesWrapper, NestedTypes;
    var kind := posts[i].kind;
    if Counts(posts, i, low, high) {
      var inside := InWindow(CommandTime(posts[i]), EndOf(posts, i, high));
      var window, matches := Select(events, inside), (p: Payload) => PayloadMatchesWrapper(kind, p);
      SelectOrder(events, inside);
      SelectOrder(window, matches);
      var matching := Select(window, matches);
      forall p ensures p in matching <==> Answers(events, posts, i, high, p) {
      }
      if matching != [] {
        var first := matching[0];
        assert Answers(events, posts, i, high, first);
        forall q | q in events && Answers(events, posts, i, high, q) ensures PayloadTime(first) <= PayloadTime(q) {
          var k :| 0 <= k < |matching| && matching[k] == q;
        }
      }
    }
  }
}
