/** A reader of compact JSON (RFC 8259), and the proof that it recovers whatever was written. */
module JsonReader {
  import opened Basics
  import opened JsonText

  datatype Reading<T> = Reading(value: T, rest: string)

  // ---------------------------------------------------------------------------------------------
  // Strings

  function HexDigit(c: char): Option<nat> {
    if '0' <= c <= '9' then Some(c as int - 48)
    else if 'a' <= c <= 'f' then Some(c as int - 87)
    else None
  }

  function ShortEscape(c: char): Option<char> {
    match c
    case '\"' => Some('\"')
    case '\\' => Some('\\')
    case '/' => Some('/')
    case 'b' => Some(8 as char)
    case 'f' => Some(12 as char)
    case 'n' => Some('\n')
    case 'r' => Some('\r')
    case 't' => Some('\t')
    case _ => None
  }

  function Before(c: char, later: Option<Reading<string>>): (r: Option<Reading<string>>)
    ensures r.Some? ==> later.Some? && r.value.rest == later.value.rest
  {
    match later
    case Some(reading) => Some(Reading([c] + reading.value, reading.rest))
    case None => None
  }

  /** The characters of a string up to its closing quote, with the escapes of section 7 that fit in one byte. */
  function ReadChars(s: string): (r: Option<Reading<string>>)
    ensures r.Some? ==> |r.value.rest| < |s|
  {
    if s == [] then None
    else if s[0] == '\"' then Some(Reading([], s[1..]))
    else if s[0] != '\\' then Before(s[0], ReadChars(s[1..]))
    else if |s| < 2 then None
    else if s[1] == 'u' then
      if |s| < 6 || s[2..4] != "00" || HexDigit(s[4]).None? || HexDigit(s[5]).None? then None
      else Before((16 * HexDigit(s[4]).value + HexDigit(s[5]).value) as char, ReadChars(s[6..]))
    else if ShortEscape(s[1]).None? then None
    else Before(ShortEscape(s[1]).value, ReadChars(s[2..]))
  }

  lemma HexPair(c: char)
    requires c as int < 0x20
    ensures HexDigit(HEX[c as int / 16]) == Some(c as int / 16) && HexDigit(HEX[c as int % 16]) == Some(c as int % 16)
  {
    var n := c as int % 16;
    assert c as int / 16 == 0 || c as int / 16 == 1;
    assert n in {0, 1, 2, 3, 4, 5, 6, 7, 8, 9, 10, 11, 12, 13, 14, 15};
  }

  lemma ReadPlain(c: char, later: string)
    requires c != '\"' && c != '\\'
    ensures ReadChars([c] + later) == Before(c, ReadChars(later))
  {
    assert ([c] + later)[1..] == later;
  }

  lemma ReadShort(c: char, letter: char, later: string)
    requires letter != 'u' && ShortEscape(letter) == Some(c)
    ensures ReadChars(['\\', letter] + later) == Before(c, ReadChars(later))
  {
    hide ShortEscape;
    assert (['\\', letter] + later)[2..] == later;
  }

  lemma ReadHex(c: char, high: char, low: char, later: string)
    requires HexDigit(high).Some? && HexDigit(low).Some?
    requires 16 * HexDigit(high).value + HexDigit(low).value == c as int < 0x20
    ensures ReadChars(['\\', 'u', '0', '0', high, low] + later) == Before(c, ReadChars(later))
  {
    hide HexDigit, ShortEscape;
    var s := ['\\', 'u', '0', '0', high, low] + later;
    assert s[2..4] == "00" && s[6..] == later;
  }

  lemma ReadOneChar(c: char, later: string)
    ensures ReadChars(EscapeChar(c) + later) == Before(c, ReadChars(later))
  {
    hide ReadChars, Before;
    if |EscapeChar(c)| == 1 {
      ReadPlain(c, later);
    } else if |EscapeChar(c)| == 2 {
      ReadShort(c, EscapeChar(c)[1], later);
      assert EscapeChar(c) == ['\\', EscapeChar(c)[1]];
    } else {
      HexPair(c);
      ReadHex(c, HEX[c as int / 16], HEX[c as int % 16], later);
      assert EscapeChar(c) == ['\\', 'u', '0', '0', HEX[c as int / 16], HEX[c as int % 16]];
    }
  }

  lemma Regroup(a: string, b: string, c: string)
    ensures (a + b) + c == a + (b + c)
  {
  }

  /** Escaping loses nothing: a reader gets the original text back and stops at the quote behind it. */
  lemma {:induction false} EscapeRoundTrip(value: string, rest: string)
    ensures ReadChars(Escaped(value) + ("\"" + rest)) == Some(Reading(value, rest))
  {
    hide EscapeChar;
    var tail := "\"" + rest;
    if value == [] {
      assert [] + tail == tail && tail[1..] == rest;
    } else {
      EscapeRoundTrip(value[1..], rest);
      Regroup(EscapeChar(value[0]), Escaped(value[1..]), tail);
      ReadOneChar(value[0], Escaped(value[1..]) + tail);
      assert [value[0]] + value[1..] == value;
    }
  }

  // ---------------------------------------------------------------------------------------------
  // Numbers

  function DigitCount(s: string): (n: nat)
    ensures n <= |s| && AllDigits(s[..n])
  {
    if s == [] || !IsDigit(s[0]) then 0
    else
      var n := 1 + DigitCount(s[1..]);
      assert s[..n] == [s[0]] + s[1..][..n - 1];
      n
  }

  predicate StopsNumber(rest: string) {
    rest == [] || !IsDigit(rest[0])
  }

  lemma {:induction false} DigitCountOf(digits: string, rest: string)
    requires AllDigits(digits) && StopsNumber(rest)
    ensures DigitCount(digits + rest) == |digits|
  {
    if digits == [] {
      assert digits + rest == rest;
    } else {
      assert (digits + rest)[1..] == digits[1..] + rest;
      DigitCountOf(digits[1..], rest);
    }
  }

  // ---------------------------------------------------------------------------------------------
  // Values

  function ReadValue(s: string): (r: Option<Reading<Json>>)
    ensures r.Some? ==> |r.value.rest| < |s|
    decreases |s|, 0
  {
    if s == [] then None
    else if s[0] == '\"' then
      var chars := ReadChars(s[1..]);
      if chars.None? then None else Some(Reading(Str(chars.value.value), chars.value.rest))
    else if s[0] == '[' then
      if |s| > 1 && s[1] == ']' then Some(Reading(Arr([]), s[2..]))
      else
        var items := ReadItems(s[1..]);
        if items.None? then None else Some(Reading(Arr(items.value.value), items.value.rest))
    else if s[0] == '{' then
      if |s| > 1 && s[1] == '}' then Some(Reading(Obj([]), s[2..]))
      else
        var members := ReadMembers(s[1..]);
        if members.None? then None else Some(Reading(Obj(members.value.value), members.value.rest))
    else if IsDigit(s[0]) then
      var n := DigitCount(s);
      Some(Reading(Num(DigitsValue(s[..n])), s[n..]))
    else if s[0] == '-' then
      var n := DigitCount(s[1..]);
      if n == 0 then None else Some(Reading(Num(-(DigitsValue(s[1..][..n]) as int)), s[1..][n..]))
    else if |s| >= 4 && s[..4] == "true" then Some(Reading(Flag(true), s[4..]))
    else if |s| >= 5 && s[..5] == "false" then Some(Reading(Flag(false), s[5..]))
    else if |s| >= 4 && s[..4] == "null" then Some(Reading(Null, s[4..]))
    else None
  }

  function ReadItems(s: string): (r: Option<Reading<seq<Json>>>)
    ensures r.Some? ==> |r.value.rest| < |s|
    decreases |s|, 1
  {
    var first := ReadValue(s);
    if first.None? || first.value.rest == [] then None
    else
      var rest := first.value.rest;
      if rest[0] == ']' then Some(Reading([first.value.value], rest[1..]))
      else if rest[0] != ',' then None
      else
        var others := ReadItems(rest[1..]);
        if others.None? then None else Some(Reading([first.value.value] + others.value.value, others.value.rest))
  }

  function ReadMember(s: string): (r: Option<Reading<JsonMember>>)
    ensures r.Some? ==> |r.value.rest| < |s|
    decreases |s|, 1
  {
    if s == [] || s[0] != '\"' then None
    else
      var key := ReadChars(s[1..]);
      if key.None? || key.value.rest == [] || key.value.rest[0] != ':' then None
      else
        var value := ReadValue(key.value.rest[1..]);
        if value.None? then None else Some(Reading(JsonMember(key.value.value, value.value.value), value.value.rest))
  }

  function ReadMembers(s: string): (r: Option<Reading<seq<JsonMember>>>)
    ensures r.Some? ==> |r.value.rest| < |s|
    decreases |s|, 2
  {
    var first := ReadMember(s);
    if first.None? || first.value.rest == [] then None
    else
      var rest := first.value.rest;
      if rest[0] == '}' then Some(Reading([first.value.value], rest[1..]))
      else if rest[0] != ',' then None
      else
        var others := ReadMembers(rest[1..]);
        if others.None? then None else Some(Reading([first.value.value] + others.value.value, others.value.rest))
  }

  /** A whole text is one value and nothing behind it. */
  function Parse(text: string): Option<Json> {
    var reading := ReadValue(text);
    if reading.Some? && reading.value.rest == [] then Some(reading.value.value) else None
  }

  // ---------------------------------------------------------------------------------------------
  // What was written reads back

  lemma NumberReadsBack(n: nat, rest: string)
    requires StopsNumber(rest)
    ensures ReadValue(Decimal(n) + rest) == Some(Reading(Num(n), rest))
    ensures ReadValue(("-" + Decimal(n)) + rest) == Some(Reading(Num(-(n as int)), rest))
  {
    hide ReadItems, ReadChars, ReadMembers, Decimal, DigitsValue;
    DecimalRoundTrip(n);
    DigitCountOf(Decimal(n), rest);
    var s := Decimal(n) + rest;
    assert s[0] == Decimal(n)[0] && s[..|Decimal(n)|] == Decimal(n) && s[|Decimal(n)|..] == rest;
    assert (("-" + Decimal(n)) + rest)[1..] == s;
  }

  lemma WordReadsBack(rest: string)
    ensures ReadValue("true" + rest) == Some(Reading(Flag(true), rest))
    ensures ReadValue("false" + rest) == Some(Reading(Flag(false), rest))
    ensures ReadValue("null" + rest) == Some(Reading(Null, rest))
  {
    assert ("true" + rest)[..4] == "true" && ("true" + rest)[4..] == rest;
    assert ("false" + rest)[..5] == "false" && ("false" + rest)[5..] == rest;
    assert ("null" + rest)[..4] == "null" && ("null" + rest)[4..] == rest;
  }

  lemma TextReadsBack(text: string, rest: string)
    ensures ReadValue(("\"" + Escaped(text) + "\"") + rest) == Some(Reading(Str(text), rest))
  {
    hide ReadItems, ReadChars, ReadMembers, Escaped;
    EscapeRoundTrip(text, rest);
    var s := ("\"" + Escaped(text) + "\"") + rest;
    assert s[1..] == Escaped(text) + ("\"" + rest);
  }

  /** The first character of a value tells its kind; in particular it never closes a list. */
  lemma FirstOfValue(json: Json)
    ensures Write(json) != [] && Write(json)[0] != ']'
  {
    if json.Num? {
      DecimalRoundTrip(if json.n < 0 then -json.n else json.n);
    }
  }

  lemma {:induction false} ValueReadsBack(json: Json, rest: string)
    requires StopsNumber(rest)
    ensures ReadValue(Write(json) + rest) == Some(Reading(json, rest))
    decreases json, 0
  {
    match json
    case Str(text) => TextReadsBack(text, rest);
    case Num(n) => NumberReadsBack(if n < 0 then -n else n, rest);
    case Flag(_) => WordReadsBack(rest);
    case Null => WordReadsBack(rest);
    case Arr(items) => ListReadsBack(items, rest);
    case Obj(members) => ObjectReadsBack(members, rest);
  }

  lemma {:induction false} ListReadsBack(items: seq<Json>, rest: string)
    requires StopsNumber(rest)
    ensures ReadValue(("[" + WriteItems(items) + "]") + rest) == Some(Reading(Arr(items), rest))
    decreases items, 1
  {
    hide ReadItems, ReadChars, ReadMembers;
    var s := ("[" + WriteItems(items) + "]") + rest;
    assert s[1..] == WriteItems(items) + ("]" + rest);
    if items == [] {
      assert s[2..] == rest;
    } else {
      FirstOfValue(items[0]);
      assert s[1] == Write(items[0])[0];
      ItemsReadBack(items, rest);
    }
  }

  lemma LastItem(first: Json, s: string, rest: string)
    requires ReadValue(s) == Some(Reading(first, "]" + rest))
    ensures ReadItems(s) == Some(Reading([first], rest))
  {
    assert ("]" + rest)[1..] == rest;
  }

  lemma NextItem(first: Json, s: string, later: string, others: seq<Json>, rest: string)
    requires ReadValue(s) == Some(Reading(first, "," + later)) && ReadItems(later) == Some(Reading(others, rest))
    ensures ReadItems(s) == Some(Reading([first] + others, rest))
  {
    assert ("," + later)[1..] == later;
  }

  lemma {:induction false} ItemsReadBack(items: seq<Json>, rest: string)
    requires items != [] && StopsNumber(rest)
    ensures ReadItems(WriteItems(items) + ("]" + rest)) == Some(Reading(items, rest))
    decreases items, 0
  {
    var tail := "]" + rest;
    if |items| == 1 {
      ValueReadsBack(items[0], tail);
      LastItem(items[0], Write(items[0]) + tail, rest);
      assert WriteItems(items) == Write(items[0]) && items == [items[0]];
    } else {
      var others := WriteItems(items[1..]);
      ItemsReadBack(items[1..], rest);
      ValueReadsBack(items[0], "," + (others + tail));
      NextItem(items[0], Write(items[0]) + ("," + (others + tail)), others + tail, items[1..], rest);
      CommaAfter(Write(items[0]), others, tail);
      assert items == [items[0]] + items[1..];
    }
  }

  lemma CommaAfter(first: string, others: string, tail: string)
    ensures (first + ("," + others)) + tail == first + ("," + (others + tail))
  {
  }

  lemma {:induction false} ObjectReadsBack(members: seq<JsonMember>, rest: string)
    requires StopsNumber(rest)
    ensures ReadValue(("{" + WriteMembers(members) + "}") + rest) == Some(Reading(Obj(members), rest))
    decreases members, 1
  {
    hide ReadMembers, ReadChars, ReadItems, Write, Escaped;
    var s := ("{" + WriteMembers(members) + "}") + rest;
    assert s[1..] == WriteMembers(members) + ("}" + rest);
    if members == [] {
      assert s[2..] == rest;
    } else {
      assert s[1] == '\"';
      MembersReadBack(members, rest);
    }
  }

  lemma {:induction false} MemberReadsBack(member: JsonMember, rest: string)
    requires StopsNumber(rest)
    ensures ReadMember(WriteMember(member) + rest) == Some(Reading(member, rest))
    decreases member, 0
  {
    hide ReadValue, ReadChars, Escaped, Write;
    var value := Write(member.value) + rest;
    var s := WriteMember(member) + rest;
    assert s[1..] == Escaped(member.key) + ("\"" + (":" + value));
    EscapeRoundTrip(member.key, ":" + value);
    assert (":" + value)[1..] == value;
    ValueReadsBack(member.value, rest);
  }

  lemma LastMember(first: JsonMember, s: string, rest: string)
    requires ReadMember(s) == Some(Reading(first, "}" + rest))
    ensures ReadMembers(s) == Some(Reading([first], rest))
  {
    assert ("}" + rest)[1..] == rest;
  }

  lemma NextMember(first: JsonMember, s: string, later: string, others: seq<JsonMember>, rest: string)
    requires ReadMember(s) == Some(Reading(first, "," + later)) && ReadMembers(later) == Some(Reading(others, rest))
    ensures ReadMembers(s) == Some(Reading([first] + others, rest))
  {
    assert ("," + later)[1..] == later;
  }

  lemma {:induction false} MembersReadBack(members: seq<JsonMember>, rest: string)
    requires members != [] && StopsNumber(rest)
    ensures ReadMembers(WriteMembers(members) + ("}" + rest)) == Some(Reading(members, rest))
    decreases members, 0
  {
    var tail := "}" + rest;
    if |members| == 1 {
      MemberReadsBack(members[0], tail);
      LastMember(members[0], WriteMember(members[0]) + tail, rest);
      assert WriteMembers(members) == WriteMember(members[0]) && members == [members[0]];
    } else {
      var others := WriteMembers(members[1..]);
      MembersReadBack(members[1..], rest);
      MemberReadsBack(members[0], "," + (others + tail));
      NextMember(members[0], WriteMember(members[0]) + ("," + (others + tail)), others + tail, members[1..], rest);
      CommaAfter(WriteMember(members[0]), others, tail);
      assert members == [members[0]] + members[1..];
    }
  }

  /** Reading what was written gives the value back, for every value. */
  lemma RoundTrip(json: Json)
    ensures Parse(Write(json)) == Some(json)
  {
    ValueReadsBack(json, []);
    assert Write(json) + [] == Write(json);
  }
}
