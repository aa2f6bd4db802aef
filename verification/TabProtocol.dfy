/** The tab-separated line protocol of the native runtime: splitting, tokens, fingerprints, responses. */
module TabProtocol {
  import opened Basics

  const PROTOCOL_VERSION := "IAG1"
  const DESCRIBE_TOOLS := "describe_tools"

  // ---------------------------------------------------------------------------------------------
  // Splitting and joining

  /** Position of the first `c`, or the length of the string when there is none. */
  function IndexOf(s: string, c: char): (i: nat)
    ensures i <= |s| && (i < |s| ==> s[i] == c)
    ensures forall j | 0 <= j < i :: s[j] != c
  {
    if s == [] || s[0] == c then 0 else 1 + IndexOf(s[1..], c)
  }

  /** The fields between tabs; there is always one more field than there are tabs. */
  function Fields(line: string): (fields: seq<string>)
    ensures |fields| > 0
    decreases |line|
  {
    var tab := IndexOf(line, '\t');
    if tab == |line| then [line] else [line[..tab]] + Fields(line[tab + 1..])
  }

  function Join(fields: seq<string>): string
    requires |fields| > 0
  {
    if |fields| == 1 then fields[0] else fields[0] + ("\t" + Join(fields[1..]))
  }

  lemma JoinCons(first: string, rest: seq<string>)
    requires |rest| > 0
    ensures Join([first] + rest) == first + ("\t" + Join(rest))
  {
    assert ([first] + rest)[1..] == rest;
  }

  lemma FieldsAtTab(line: string, tab: nat)
    requires tab == IndexOf(line, '\t') && tab < |line|
    ensures Fields(line) == [line[..tab]] + Fields(line[tab + 1..])
  {
  }

  method SplitTabs(line: string) returns (fields: seq<string>)
    ensures fields == Fields(line)
  {
    fields := [];
    var rest := line;
    while true
      invariant fields + Fields(rest) == Fields(line)
      decreases |rest|
    {
      var separator := IndexOf(rest, '\t');
      if separator == |rest| {
        assert rest[..separator] == rest;
        fields := fields + [rest[..separator]];
        return;
      }
      FieldsAtTab(rest, separator);
      AppendOne(fields, rest[..separator], Fields(rest[separator + 1..]));
      fields := fields + [rest[..separator]];
      rest := rest[separator + 1..];
    }
  }

  predicate Without(s: string, c: char) {
    c !in s
  }

  predicate AllWithout(fields: seq<string>, c: char) {
    forall i | 0 <= i < |fields| :: Without(fields[i], c)
  }

  lemma CutAtTab(line: string, tab: nat)
    requires tab < |line| && line[tab] == '\t'
    ensures line == line[..tab] + ("\t" + line[tab + 1..])
  {
  }

  lemma {:induction false} SplitThenJoin(line: string)
    ensures Join(Fields(line)) == line
    ensures AllWithout(Fields(line), '\t')
    decreases |line|
  {
    var tab := IndexOf(line, '\t');
    if tab == |line| {
      assert Without(line, '\t');
    } else {
      var first, rest := line[..tab], Fields(line[tab + 1..]);
      SplitThenJoin(line[tab + 1..]);
      JoinCons(first, rest);
      CutAtTab(line, tab);
      assert Without(first, '\t');
      assert Fields(line) == [first] + rest;
    }
  }

  lemma FirstField(first: string, rest: string)
    requires Without(first, '\t')
    ensures Fields(first + ("\t" + rest)) == [first] + Fields(rest)
  {
    var line := first + ("\t" + rest);
    assert line[|first|] == '\t' && forall j | 0 <= j < |first| :: line[j] == first[j];
    assert IndexOf(line, '\t') == |first|;
    assert line[..|first|] == first && line[|first| + 1..] == rest;
  }

  lemma {:induction false} JoinThenSplit(fields: seq<string>)
    requires |fields| > 0 && AllWithout(fields, '\t')
    ensures Fields(Join(fields)) == fields
  {
    if |fields| == 1 {
      assert IndexOf(fields[0], '\t') == |fields[0]|;
    } else {
      JoinThenSplit(fields[1..]);
      FirstField(fields[0], Join(fields[1..]));
      assert Join(fields) == fields[0] + ("\t" + Join(fields[1..]));
    }
  }

  /** A character other than the tab occurs in the line exactly when it occurs in some field. */
  lemma {:induction false} JoinWithout(fields: seq<string>, c: char)
    requires |fields| > 0 && AllWithout(fields, c) && c != '\t'
    ensures Without(Join(fields), c)
  {
    if |fields| > 1 {
      JoinWithout(fields[1..], c);
    }
  }

  lemma {:induction false} FieldsWithout(line: string, c: char)
    requires Without(line, c)
    ensures AllWithout(Fields(line), c)
    decreases |line|
  {
    var tab := IndexOf(line, '\t');
    if tab < |line| {
      FieldsWithout(line[tab + 1..], c);
    }
  }

  function Count(s: string, c: char): nat {
    if s == [] then 0 else (if s[0] == c then 1 else 0) + Count(s[1..], c)
  }

  lemma {:induction false} CountConcat(s: string, t: string, c: char)
    ensures Count(s + t, c) == Count(s, c) + Count(t, c)
  {
    if s == [] {
      assert s + t == t;
    } else {
      CountConcat(s[1..], t, c);
      assert (s + t)[1..] == s[1..] + t;
    }
  }

  lemma {:induction false} CountAbsent(s: string, c: char)
    requires Without(s, c)
    ensures Count(s, c) == 0
  {
    if s != [] {
      CountAbsent(s[1..], c);
    }
  }

  lemma {:induction false} CountTabs(fields: seq<string>)
    requires |fields| > 0 && AllWithout(fields, '\t')
    ensures Count(Join(fields), '\t') == |fields| - 1
  {
    CountAbsent(fields[0], '\t');
    if |fields| > 1 {
      CountTabs(fields[1..]);
      CountConcat(fields[0], "\t" + Join(fields[1..]), '\t');
      assert Join(fields) == fields[0] + ("\t" + Join(fields[1..]));
      assert ("\t" + Join(fields[1..]))[1..] == Join(fields[1..]);
    }
  }

  // ---------------------------------------------------------------------------------------------
  // Tokens and numbers

  predicate IsTokenChar(c: char) {
    'a' <= c <= 'z' || 'A' <= c <= 'Z' || '0' <= c <= '9' || c in "_-.:"
  }

  predicate IsSemanticToken(value: string, maximum: nat) {
    0 < |value| <= maximum && forall i | 0 <= i < |value| :: IsTokenChar(value[i])
  }

  lemma TokensAreClean(value: string, maximum: nat)
    requires IsSemanticToken(value, maximum)
    ensures Without(value, '\t') && Without(value, '\n') && Without(value, '\r')
  {
    assert !IsTokenChar('\t') && !IsTokenChar('\n') && !IsTokenChar('\r');
  }

  const UINT32_LIMIT: nat := 0x1_0000_0000

  function ParseUint32(value: string): (r: Option<nat>)
    ensures r.Some? ==> r.value < UINT32_LIMIT
  {
    if 0 < |value| <= 10 && AllDigits(value) && DigitsValue(value) < UINT32_LIMIT
    then Some(DigitsValue(value))
    else None
  }

  lemma ParseUint32OfDecimal(n: nat)
    ensures ParseUint32(Decimal(n)) == if n < UINT32_LIMIT then Some(n) else None
  {
    DecimalRoundTrip(n);
    if n < UINT32_LIMIT {
      assert Power10(10) == 10000000000;
      DecimalLength(n, 10);
    }
  }

  // ---------------------------------------------------------------------------------------------
  // Fingerprints

  function Fingerprint(actionType: string, countryId: nat, targetEcho: string): string {
    actionType + "\t" + Decimal(countryId) + "\t" + targetEcho
  }

  /** Two requests share a fingerprint exactly when action, country and echo agree. */
  lemma FingerprintInjective(a1: string, c1: nat, e1: string, a2: string, c2: nat, e2: string)
    requires Without(a1, '\t') && Without(a2, '\t') && Without(e1, '\t') && Without(e2, '\t')
    ensures Fingerprint(a1, c1, e1) == Fingerprint(a2, c2, e2) <==> a1 == a2 && c1 == c2 && e1 == e2
  {
    FingerprintFields(a1, c1, e1);
    FingerprintFields(a2, c2, e2);
    if Fingerprint(a1, c1, e1) == Fingerprint(a2, c2, e2) {
      assert [a1, Decimal(c1), e1] == [a2, Decimal(c2), e2];
      assert [a1, Decimal(c1), e1][0] == a1 && [a1, Decimal(c1), e1][1] == Decimal(c1);
      assert [a1, Decimal(c1), e1][2] == e1;
      DecimalInjective(c1, c2);
    }
  }

  lemma FingerprintFields(a: string, c: nat, e: string)
    requires Without(a, '\t') && Without(e, '\t')
    ensures Fields(Fingerprint(a, c, e)) == [a, Decimal(c), e]
  {
    var fields := [a, Decimal(c), e];
    JoinPrefix(fields, 1);
    JoinPrefix(fields, 2);
    assert fields[..1] == [a] && fields[..3] == fields;
    assert Join(fields) == Fingerprint(a, c, e);
    DigitsAreClean(Decimal(c));
    JoinThenSplit(fields);
  }

  lemma DigitsAreClean(s: string)
    requires AllDigits(s)
    ensures Without(s, '\t') && Without(s, '\n')
  {
    assert !IsDigit('\t') && !IsDigit('\n');
  }

  // ---------------------------------------------------------------------------------------------
  // Responses

  /** Tabs and line ends become spaces, and the text is cut at 240 characters. */
  function SanitizeDetail(detail: string): (clean: string)
    ensures |clean| == if |detail| < 240 then |detail| else 240
    ensures forall i | 0 <= i < |clean| :: clean[i] == if detail[i] in "\t\r\n" then ' ' else detail[i]
    ensures Without(clean, '\t') && Without(clean, '\n') && Without(clean, '\r')
  {
    var spaced := Spaced(detail);
    if |spaced| > 240 then spaced[..240] else spaced
  }

  function Spaced(detail: string): (spaced: string)
    ensures |spaced| == |detail|
    ensures Without(spaced, '\t') && Without(spaced, '\n') && Without(spaced, '\r')
    ensures forall i | 0 <= i < |detail| :: spaced[i] == if detail[i] in "\t\r\n" then ' ' else detail[i]
  {
    if detail == [] then []
    else [if detail[0] in "\t\r\n" then ' ' else detail[0]] + Spaced(detail[1..])
  }

  function ResponseLine(
    requestId: string, action: string, outcome: string, buildId: string,
    country: string, echo: string, detail: string): string
  {
    PROTOCOL_VERSION + "\t" + requestId + "\t" + action + "\t" + outcome + "\t" + buildId + "\t" +
    country + "\t" + echo + "\t" + detail + "\n"
  }

  function ImmediateResponse(
    requestId: string, action: string, outcome: string, detail: string, buildId: string): string
  {
    ResponseLine(requestId, action, outcome, buildId, "0", "-", SanitizeDetail(detail))
  }

  function ToolManifestResponse(requestId: string, buildId: string, manifest: string): string {
    ResponseLine(requestId, DESCRIBE_TOOLS, "confirmed", buildId, "0", manifest, "runtime_tool_manifest")
  }

  /** Free of the two characters that frame the protocol. */
  predicate Clean(s: string) {
    Without(s, '\t') && Without(s, '\n')
  }

  /** What a reader relies on: seven tabs, one line end, and that one last. */
  predicate WellFramed(response: string) {
    && Count(response, '\t') == 7
    && Count(response, '\n') == 1
    && response[|response| - 1..] == "\n"
  }

  /** With clean parts a response is well framed, and splitting it recovers the eight parts. */
  lemma ResponseFraming(
    requestId: string, action: string, outcome: string, buildId: string,
    country: string, echo: string, detail: string)
    requires Clean(requestId) && Clean(action) && Clean(outcome) && Clean(buildId)
    requires Clean(country) && Clean(echo) && Clean(detail)
    ensures var line := ResponseLine(requestId, action, outcome, buildId, country, echo, detail);
            && WellFramed(line)
            && Fields(line[..|line| - 1])
               == [PROTOCOL_VERSION, requestId, action, outcome, buildId, country, echo, detail]
  {
    var fields := [PROTOCOL_VERSION, requestId, action, outcome, buildId, country, echo, detail];
    VersionIsClean();
    JoinEight(fields);
    JoinIsFramed(fields);
    var body := Join(fields);
    assert ResponseLine(requestId, action, outcome, buildId, country, echo, detail) == body + "\n";
    assert (body + "\n")[..|body + "\n"| - 1] == body;
  }

  lemma VersionIsClean()
    ensures Clean(PROTOCOL_VERSION)
  {
  }

  lemma OneLineEnd(body: string, tabs: nat)
    requires Without(body, '\n') && Count(body, '\t') == tabs
    ensures Count(body + "\n", '\t') == tabs && Count(body + "\n", '\n') == 1
  {
    CountConcat(body, "\n", '\t');
    CountConcat(body, "\n", '\n');
    CountAbsent(body, '\n');
    assert Count("\n", '\n') == 1 && Count("\n", '\t') == 0;
  }

  lemma JoinIsFramed(fields: seq<string>)
    requires |fields| == 8 && forall i | 0 <= i < 8 :: Clean(fields[i])
    ensures WellFramed(Join(fields) + "\n") && Fields(Join(fields)) == fields
  {
    JoinThenSplit(fields);
    CountTabs(fields);
    JoinWithout(fields, '\n');
    OneLineEnd(Join(fields), 7);
  }

  lemma JoinEight(f: seq<string>)
    requires |f| == 8
    ensures Join(f) == f[0] + "\t" + f[1] + "\t" + f[2] + "\t" + f[3] + "\t" + f[4] + "\t" + f[5] + "\t"
                       + f[6] + "\t" + f[7]
  {
    JoinFour(f[..4]);
    JoinPrefix(f, 4);
    JoinPrefix(f, 5);
    JoinPrefix(f, 6);
    JoinPrefix(f, 7);
    assert f[..8] == f;
  }

  lemma JoinFour(f: seq<string>)
    requires |f| == 4
    ensures Join(f) == f[0] + "\t" + f[1] + "\t" + f[2] + "\t" + f[3]
  {
    JoinPrefix(f, 1);
    JoinPrefix(f, 2);
    JoinPrefix(f, 3);
    assert f[..4] == f;
  }

  lemma JoinPrefix(f: seq<string>, k: nat)
    requires 0 < k < |f|
    ensures Join(f[..k + 1]) == Join(f[..k]) + "\t" + f[k]
  {
    assert f[..k + 1] == f[..k] + [f[k]];
    JoinLast(f[..k], f[k]);
  }

  lemma {:induction false} JoinLast(fields: seq<string>, last: string)
    requires |fields| > 0
    ensures Join(fields + [last]) == Join(fields) + "\t" + last
  {
    if |fields| == 1 {
      assert (fields + [last])[1..] == [last];
    } else {
      JoinLast(fields[1..], last);
      assert (fields + [last])[1..] == fields[1..] + [last];
    }
  }
}
