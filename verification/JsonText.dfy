/** JSON texts as both writers produce them: compact, with every control character of a string escaped. */
module JsonText {
  import opened Basics

  // ---------------------------------------------------------------------------------------------
  // JSON strings

  const HEX := "0123456789abcdef"

  function EscapeChar(c: char): string {
    if c == '\"' then "\\\""
    else if c == '\\' then "\\\\"
    else if c as int == 8 then "\\b"
    else if c as int == 12 then "\\f"
    else if c == '\n' then "\\n"
    else if c == '\r' then "\\r"
    else if c == '\t' then "\\t"
    else if c as int < 0x20 then "\\u00" + [HEX[c as int / 16], HEX[c as int % 16]]
    else [c]
  }

  /** The characters with a short form have it, and every other control character four hexadecimal digits. */
  lemma EscapesAre(c: char)
    ensures c as int == 8 ==> EscapeChar(c) == "\\b"
    ensures c as int == 9 ==> EscapeChar(c) == "\\t"
    ensures c as int == 10 ==> EscapeChar(c) == "\\n"
    ensures c as int == 12 ==> EscapeChar(c) == "\\f"
    ensures c as int == 13 ==> EscapeChar(c) == "\\r"
    ensures c as int < 32 && c as int !in {8, 9, 10, 12, 13} ==>
              |EscapeChar(c)| == 6 && EscapeChar(c)[..4] == "\\u00"
    ensures c as int >= 32 && c as int != 34 && c as int != 92 ==> EscapeChar(c) == [c]
  {
    assert '\t' as int == 9 && '\n' as int == 10 && '\r' as int == 13 && '\"' as int == 34 && '\\' as int == 92;
  }

  function Escaped(value: string): string {
    if value == [] then [] else EscapeChar(value[0]) + Escaped(value[1..])
  }

  predicate NoControl(s: string) {
    forall i | 0 <= i < |s| :: s[i] as int >= 0x20
  }

  /** Section 7 of RFC 8259: control characters never appear unescaped. */
  lemma {:induction false} EscapedHasNoControl(value: string)
    ensures NoControl(Escaped(value))
  {
    if value != [] {
      EscapedHasNoControl(value[1..]);
      EscapeCharHasNoControl(value[0]);
    }
  }

  lemma EscapeCharHasNoControl(c: char)
    ensures NoControl(EscapeChar(c))
  {
  }

  // ---------------------------------------------------------------------------------------------
  // Values

  datatype Json =
    | Str(text: string)
    | Num(n: int)
    | Flag(b: bool)
    | Null
    | Arr(items: seq<Json>)
    | Obj(members: seq<JsonMember>)

  datatype JsonMember = JsonMember(key: string, value: Json)

  function Write(json: Json): string {
    match json
    case Str(text) => "\"" + Escaped(text) + "\""
    case Num(n) => if n < 0 then "-" + Decimal(-n) else Decimal(n)
    case Flag(b) => if b then "true" else "false"
    case Null => "null"
    case Arr(items) => "[" + WriteItems(items) + "]"
    case Obj(members) => "{" + WriteMembers(members) + "}"
  }

  function WriteItems(items: seq<Json>): string {
    if items == [] then "" else Write(items[0]) + (if |items| == 1 then "" else "," + WriteItems(items[1..]))
  }

  function WriteMember(member: JsonMember): string {
    "\"" + Escaped(member.key) + "\":" + Write(member.value)
  }

  function WriteMembers(members: seq<JsonMember>): string {
    if members == [] then ""
    else WriteMember(members[0]) + (if |members| == 1 then "" else "," + WriteMembers(members[1..]))
  }

  lemma CommaBetween(a: string, b: string, c: string)
    ensures a + ("," + (b + "," + c)) == (a + ("," + b)) + "," + c
  {
  }

  lemma {:induction false} WriteItemsAppend(items: seq<Json>, item: Json)
    ensures WriteItems(items + [item]) == (if items == [] then "" else WriteItems(items) + ",") + Write(item)
  {
    var more := items + [item];
    if items == [] {
      assert more == [item];
    } else if |items| == 1 {
      assert more[0] == items[0] && more[1..] == [item];
      assert WriteItems(items) == Write(items[0]);
    } else {
      assert more[0] == items[0] && more[1..] == items[1..] + [item];
      WriteItemsAppend(items[1..], item);
      CommaBetween(Write(items[0]), WriteItems(items[1..]), Write(item));
    }
  }

  lemma {:induction false} WriteHasNoControl(json: Json)
    ensures NoControl(Write(json))
  {
    match json
    case Str(text) => EscapedHasNoControl(text);
    case Num(n) =>
    case Flag(_) =>
    case Null =>
    case Arr(items) => ItemsHaveNoControl(items);
    case Obj(members) => MembersHaveNoControl(members);
  }

  lemma {:induction false} ItemsHaveNoControl(items: seq<Json>)
    ensures NoControl(WriteItems(items))
  {
    if items != [] {
      WriteHasNoControl(items[0]);
      ItemsHaveNoControl(items[1..]);
    }
  }

  lemma {:induction false} MemberHasNoControl(member: JsonMember)
    ensures NoControl(WriteMember(member))
  {
    EscapedHasNoControl(member.key);
    WriteHasNoControl(member.value);
  }

  lemma {:induction false} MembersHaveNoControl(members: seq<JsonMember>)
    ensures NoControl(WriteMembers(members))
  {
    if members != [] {
      MemberHasNoControl(members[0]);
      MembersHaveNoControl(members[1..]);
    }
  }
}
