/** What the fields of a target become in the body: the texts and numbers that a reader of the body finds. */
module CaptureFields {
  import opened Basics
  import opened TabProtocol
  import opened ActionRegistry
  import opened CaptureAction
  import opened PatchOrder
  import opened CaptureSubstitution
  import opened CaptureParser

  // ---------------------------------------------------------------------------------------------
  // Numbers as text

  /** The decimal text, with a minus sign in front or not, denotes the number. */
  predicate Denotes(text: string, n: int) {
    || (text != "" && AllDigits(text) && DigitsValue(text) == n)
    || (|text| > 1 && text[0] == '-' && AllDigits(text[1..]) && DigitsValue(text[1..]) == -n)
  }

  /** A number as two's complement of 64 bits says it. */
  function Signed(bits: nat): int {
    if bits < 0x8000_0000_0000_0000 then bits else bits - 0x1_0000_0000_0000_0000
  }

  lemma DigitsHaveNoSign(text: string)
    requires text != "" && AllDigits(text)
    ensures text[0] != '-'
  {
  }

  /** At most ten digits of a number below 2^32. */
  lemma ParseUint32Iff(text: string, n: int)
    ensures ParseUint32(text) == Some(n)
            <==> |text| <= 10 && 0 <= n < 0x1_0000_0000 && Denotes(text, n) && (text == "" || text[0] != '-')
  {
    if text != "" && AllDigits(text) {
      DigitsHaveNoSign(text);
    }
  }

  /** At most twenty characters of a number that fits 64 bits with a sign. */
  lemma ParseInt64Iff(text: string, n: int)
    ensures ParseInt64(text) == Some(n)
            <==> |text| <= 20 && -0x8000_0000_0000_0000 <= n < 0x8000_0000_0000_0000 && Denotes(text, n)
  {
    if text != "" && AllDigits(text) {
      DigitsHaveNoSign(text);
    }
  }

  /** The number is what a reader of two's complement makes of its bytes. */
  lemma SignedRoundTrip(n: int)
    requires -INT64_LIMIT <= n < INT64_LIMIT
    ensures TwosComplement(n) < UINT64_LIMIT && Signed(TwosComplement(n)) == n
  {
  }

  lemma EightBytes()
    ensures Power256(4) == 0x1_0000_0000 && Power256(8) == UINT64_LIMIT
  {
    assert Power256(0) == 1;
    assert Power256(1) == 256 * Power256(0);
    assert Power256(2) == 256 * Power256(1);
    assert Power256(3) == 256 * Power256(2);
    assert Power256(4) == 256 * Power256(3);
    assert Power256(5) == 256 * Power256(4);
    assert Power256(6) == 256 * Power256(5);
    assert Power256(7) == 256 * Power256(6);
    assert Power256(8) == 256 * Power256(7);
  }

  // ---------------------------------------------------------------------------------------------
  // A field read back

  /** What stands at a position of the body: a counted text, or a number of four or eight bytes. */
  predicate SaysAt(body: seq<byte>, at: int, kind: PatchKind, text: string) {
    match kind
    case Ascii =>
      && 0 <= at && at + 2 + |text| <= |body|
      && body[at] as int + 256 * (body[at + 1] as int) == |text|
      && forall i | 0 <= i < |text| && text[i] as int < 256 :: body[at + 2 + i] == text[i] as int
    case U32 => 0 <= at && at + 4 <= |body| && Denotes(text, FromLittleEndian(body[at..at + 4]))
    case I64 => 0 <= at && at + 8 <= |body| && Denotes(text, Signed(FromLittleEndian(body[at..at + 8])))
  }

  lemma ByteAt(body: seq<byte>, at: int, value: seq<byte>, k: nat)
    requires Substitution.StandsAt(body, at, value) && k < |value|
    ensures 0 <= at + k < |body| && body[at + k] == value[k]
  {
    assert body[at..at + |value|][k] == body[at + k];
  }

  lemma EncodedTextSays(body: seq<byte>, at: int, text: string)
    requires |text| <= UINT16_MAX && Substitution.StandsAt(body, at, LittleEndian(|text|, 2) + BytesOf(text))
    ensures SaysAt(body, at, Ascii, text)
  {
    LengthPrefix(|text|);
    var value := [|text| % 256, |text| / 256] + BytesOf(text);
    TextBytesSay(body, at, value, text);
  }

  lemma TextBytesSay(body: seq<byte>, at: int, value: seq<byte>, text: string)
    requires |text| <= UINT16_MAX && value == [|text| % 256, |text| / 256] + BytesOf(text)
    requires Substitution.StandsAt(body, at, value)
    ensures SaysAt(body, at, Ascii, text)
  {
    hide Substitution.StandsAt;
    ByteAt(body, at, value, 0);
    ByteAt(body, at, value, 1);
    EndInside(body, at, value);
    forall i | 0 <= i < |text| && text[i] as int < 256
      ensures body[at + 2 + i] == text[i] as int
    {
      ByteAt(body, at, value, 2 + i);
      assert value[2 + i] == BytesOf(text)[i];
    }
  }

  lemma EndInside(body: seq<byte>, at: int, value: seq<byte>)
    requires Substitution.StandsAt(body, at, value)
    ensures 0 <= at && at + |value| <= |body|
  {
  }

  /** A number that fits reads back from where its bytes stand. */
  lemma NumberStands(body: seq<byte>, at: int, bits: nat, width: nat)
    requires bits < Power256(width) && Substitution.StandsAt(body, at, LittleEndian(bits, width))
    ensures 0 <= at && at + width <= |body| && FromLittleEndian(body[at..at + width]) == bits
  {
    hide Power256, LittleEndian, FromLittleEndian;
    LittleEndianRoundTrip(bits, width);
    RemainderUnique(bits, Power256(width), 0, bits);
  }

  lemma EncodedNumberSays(body: seq<byte>, at: int, kind: PatchKind, text: string)
    requires !kind.Ascii? && NumberOf(kind, text).Some?
    requires Substitution.StandsAt(body, at, LittleEndian(NumberOf(kind, text).value, Width(kind)))
    ensures SaysAt(body, at, kind, text)
  {
    hide Power256, LittleEndian, FromLittleEndian, ParseUint32, ParseInt64, Denotes, Substitution.StandsAt, Signed, TwosComplement;
    var bits := NumberOf(kind, text).value;
    EightBytes();
    if kind.U32? {
      ParseUint32Iff(text, bits);
    } else {
      var n := ParseInt64(text).value;
      ParseInt64Iff(text, n);
      SignedRoundTrip(n);
    }
    NumberStands(body, at, bits, Width(kind));
  }

  lemma EncodedSays(body: seq<byte>, at: int, p: Patch, fields: seq<string>)
    requires Encodable(p, fields) && Substitution.StandsAt(body, at, Encoded(p, fields).value)
    ensures p.field < |fields| && SaysAt(body, at, p.kind, fields[p.field])
  {
    hide SaysAt, Substitution.StandsAt, ParseUint32, ParseInt64;
    if p.kind.Ascii? {
      EncodedTextSays(body, at, fields[p.field]);
    } else {
      EncodedNumberSays(body, at, p.kind, fields[p.field]);
    }
  }

  /** Which fields can be encoded: texts that two bytes can count, and texts of numbers that fit. */
  lemma EncodableIff(p: Patch, fields: seq<string>)
    ensures Encodable(p, fields) <==>
            && p.field < |fields|
            && var text := fields[p.field];
               match p.kind
               case Ascii => |text| <= 65535
               case U32 =>
                 && |text| <= 10 && (text == "" || text[0] != '-')
                 && exists n :: 0 <= n < 0x1_0000_0000 && Denotes(text, n)
               case I64 =>
                 && |text| <= 20
                 && exists n :: -0x8000_0000_0000_0000 <= n < 0x8000_0000_0000_0000 && Denotes(text, n)
  {
    hide ParseUint32, ParseInt64, Denotes;
    if p.field < |fields| && !p.kind.Ascii? {
      var text := fields[p.field];
      if p.kind.U32? {
        forall n ensures ParseUint32(text) == Some(n) <==>
            |text| <= 10 && 0 <= n < 0x1_0000_0000 && Denotes(text, n) && (text == "" || text[0] != '-')
        {
          ParseUint32Iff(text, n);
        }
        assert ParseUint32(text).Some? ==> ParseUint32(text) == Some(ParseUint32(text).value);
      } else {
        forall n ensures ParseInt64(text) == Some(n) <==>
            |text| <= 20 && -0x8000_0000_0000_0000 <= n < 0x8000_0000_0000_0000 && Denotes(text, n)
        {
          ParseInt64Iff(text, n);
        }
        assert ParseInt64(text).Some? ==> ParseInt64(text) == Some(ParseInt64(text).value);
      }
    }
  }

  // ---------------------------------------------------------------------------------------------
  // Where it stands

  /** By how much the texts in front of a position push it back. */
  function Pushed(ps: seq<Patch>, fields: seq<string>, offset: nat): int
    requires FieldsPresent(ps, fields)
  {
    if ps == [] then 0
    else
      RestPresent(ps, fields);
      (if ps[0].kind.Ascii? && ps[0].offset < offset then |fields[ps[0].field]| - ps[0].originalSize else 0)
      + Pushed(ps[1..], fields, offset)
  }

  lemma RestPresent(ps: seq<Patch>, fields: seq<string>)
    requires ps != [] && FieldsPresent(ps, fields)
    ensures FieldsPresent(ps[1..], fields)
  {
    assert forall i | 0 <= i < |ps| - 1 :: ps[1..][i] == ps[i + 1];
  }

  lemma PushedCons(p: Patch, ps: seq<Patch>, fields: seq<string>, offset: nat)
    requires p.field < |fields| && FieldsPresent(ps, fields)
    ensures FieldsPresent([p] + ps, fields)
    ensures Pushed([p] + ps, fields, offset)
            == (if p.kind.Ascii? && p.offset < offset then |fields[p.field]| - p.originalSize else 0)
               + Pushed(ps, fields, offset)
  {
    Tail(p, ps);
  }

  lemma {:induction false} PushedConcat(a: seq<Patch>, b: seq<Patch>, fields: seq<string>, offset: nat)
    requires FieldsPresent(a, fields) && FieldsPresent(b, fields)
    ensures FieldsPresent(a + b, fields)
    ensures Pushed(a + b, fields, offset) == Pushed(a, fields, offset) + Pushed(b, fields, offset)
  {
    hide Pushed;
    if a == [] {
      assert a + b == b;
      PushedNothing(fields, offset);
    } else {
      RestPresent(a, fields);
      PushedConcat(a[1..], b, fields, offset);
      PushedCons(a[0], a[1..], fields, offset);
      PushedCons(a[0], a[1..] + b, fields, offset);
      assert a == [a[0]] + a[1..] && a + b == [a[0]] + (a[1..] + b);
    }
  }

  lemma PushedNothing(fields: seq<string>, offset: nat)
    ensures Pushed([], fields, offset) == 0
  {
  }

  lemma InsertPresent(p: Patch, ps: seq<Patch>, fields: seq<string>)
    requires DescendingOffsets(ps) && p.field < |fields| && FieldsPresent(ps, fields)
    ensures FieldsPresent(InsertDescending(p, ps), fields)
  {
    forall i | 0 <= i < |InsertDescending(p, ps)|
      ensures InsertDescending(p, ps)[i].field < |fields|
    {
      assert InsertDescending(p, ps)[i] in InsertDescending(p, ps);
    }
  }

  lemma {:induction false} PushedInsert(p: Patch, ps: seq<Patch>, fields: seq<string>, offset: nat)
    requires DescendingOffsets(ps) && p.field < |fields| && FieldsPresent(ps, fields)
    ensures FieldsPresent(InsertDescending(p, ps), fields) && FieldsPresent([p] + ps, fields)
    ensures Pushed(InsertDescending(p, ps), fields, offset) == Pushed([p] + ps, fields, offset)
  {
    hide Pushed;
    InsertPresent(p, ps, fields);
    PushedCons(p, ps, fields, offset);
    if ps != [] && p.offset < ps[0].offset {
      var first, rest := ps[0], ps[1..];
      assert ps == [first] + rest;
      RestPresent(ps, fields);
      PushedInsert(p, rest, fields, offset);
      InsertBehind(p, first, rest);
      PushedCons(p, rest, fields, offset);
      PushedCons(first, rest, fields, offset);
      PushedCons(first, InsertDescending(p, rest), fields, offset);
    }
  }

  lemma {:induction false} PushedDescending(ps: seq<Patch>, fields: seq<string>, offset: nat)
    requires FieldsPresent(ps, fields)
    ensures FieldsPresent(Descending(ps), fields)
    ensures Pushed(Descending(ps), fields, offset) == Pushed(ps, fields, offset)
  {
    hide Pushed;
    if ps != [] {
      RestPresent(ps, fields);
      PushedDescending(ps[1..], fields, offset);
      PushedInsert(ps[0], Descending(ps[1..]), fields, offset);
      PushedCons(ps[0], ps[1..], fields, offset);
      PushedCons(ps[0], Descending(ps[1..]), fields, offset);
      assert ps == [ps[0]] + ps[1..];
    }
  }

  lemma {:induction false} PushedReverse(ps: seq<Patch>, fields: seq<string>, offset: nat)
    requires FieldsPresent(ps, fields)
    ensures FieldsPresent(Reverse(ps), fields)
    ensures Pushed(Reverse(ps), fields, offset) == Pushed(ps, fields, offset)
  {
    hide Pushed;
    if ps != [] {
      RestPresent(ps, fields);
      PushedReverse(ps[1..], fields, offset);
      PushedConcat(Reverse(ps[1..]), [ps[0]], fields, offset);
      PushedConcat([ps[0]], ps[1..], fields, offset);
      assert ps == [ps[0]] + ps[1..];
    }
  }

  /** What one patch adds to the length of the body. */
  function OwnGrowth(p: Patch, fields: seq<string>): int
    requires p.field < |fields|
  {
    if p.kind.Ascii? then |fields[p.field]| - p.originalSize else 0
  }

  lemma GrowthCons(ps: seq<Patch>, k: nat, fields: seq<string>)
    requires 0 < k <= |ps| && AllEncodable(ps, fields) && FieldsPresent(ps, fields)
    ensures AllEncodable(ps[1..], fields)
    ensures GrowthBefore(ps, k, fields) == OwnGrowth(ps[0], fields) + GrowthBefore(ps[1..], k - 1, fields)
  {
    hide AllEncodable, Encodable, Extent;
    RestEncodable(ps, fields);
    GrowthOfOne(ps[0], fields);
  }

  lemma NoGrowth(ps: seq<Patch>, fields: seq<string>)
    requires AllEncodable(ps, fields)
    ensures GrowthBefore(ps, 0, fields) == 0
  {
  }

  lemma LayoutCons(ps: seq<Patch>, from: nat, limit: nat)
    requires ps != [] && Layout(ps, from, limit)
    ensures from <= ps[0].offset < ps[0].offset + Extent(ps[0])
    ensures Layout(ps[1..], ps[0].offset + Extent(ps[0]), limit)
  {
  }

  lemma PushedFirst(ps: seq<Patch>, fields: seq<string>, offset: nat)
    requires ps != [] && FieldsPresent(ps, fields)
    ensures FieldsPresent(ps[1..], fields)
    ensures Pushed(ps, fields, offset)
            == (if ps[0].offset < offset then OwnGrowth(ps[0], fields) else 0) + Pushed(ps[1..], fields, offset)
  {
    RestPresent(ps, fields);
  }

  /** In order, the patches in front of patch `k` are those with a smaller offset. */
  lemma {:induction false} GrowthIsPush(ps: seq<Patch>, from: nat, limit: nat, k: nat, fields: seq<string>)
    requires Layout(ps, from, limit) && AllEncodable(ps, fields) && k < |ps| && FieldsPresent(ps, fields)
    ensures GrowthBefore(ps, k, fields) == Pushed(ps, fields, ps[k].offset)
    decreases |ps|
  {
    hide Layout, AllEncodable, FieldsPresent, GrowthBefore, Pushed, Extent, OwnGrowth;
    LayoutCons(ps, from, limit);
    PushedFirst(ps, fields, ps[k].offset);
    var next := ps[0].offset + Extent(ps[0]);
    if k == 0 {
      NoGrowth(ps, fields);
      NothingInFront(ps[1..], next, limit, fields, ps[0].offset);
    } else {
      GrowthCons(ps, k, fields);
      GrowthIsPush(ps[1..], next, limit, k - 1, fields);
      OffsetsBehind(ps[1..], next, limit, k - 1);
    }
  }

  lemma {:induction false} OffsetsBehind(ps: seq<Patch>, from: nat, limit: nat, k: nat)
    requires Layout(ps, from, limit) && k < |ps|
    ensures from <= ps[k].offset
    decreases |ps|
  {
    if k > 0 {
      OffsetsBehind(ps[1..], ps[0].offset + Extent(ps[0]), limit, k - 1);
    }
  }

  lemma {:induction false} NothingInFront(ps: seq<Patch>, from: nat, limit: nat, fields: seq<string>, offset: nat)
    requires Layout(ps, from, limit) && FieldsPresent(ps, fields) && offset < from
    ensures Pushed(ps, fields, offset) == 0
    decreases |ps|
  {
    if ps != [] {
      RestPresent(ps, fields);
      NothingInFront(ps[1..], ps[0].offset + Extent(ps[0]), limit, fields, offset);
    }
  }

  /**
   * A reader of the materialised body finds, for every patch in whatever order the definition lists them, the text or
   * the number of its field, at the captured offset pushed back by the texts in front of it.
   */
  lemma BodySaysFields(d: Definition, fields: seq<string>, k: nat)
    requires d.hexField < 0 && PatchesFit(d) && k < |d.patches| && Materialised(d, fields).Some?
    ensures FieldsPresent(d.patches, fields)
    ensures var p := d.patches[k];
            SaysAt(
              Materialised(d, fields).value, p.offset + Pushed(d.patches, fields, p.offset), p.kind, fields[p.field])
  {
    hide SaysAt, Pushed, Substitute, Layout, AllEncodable, Separate, InBounds, Materialised, InOrder, GrowthBefore, FieldsPresent, Substitution.StandsAt, Encodable, Encoded;
    MaterialiseIsSubstitution(d, fields);
    var up, p := InOrder(d.patches), d.patches[k];
    EncodablePresent(d.patches, fields);
    InOrderHasLayout(d.patches, |d.template|);
    assert p in up;
    var m :| 0 <= m < |up| && up[m] == p;
    PushedInOrder(d.patches, fields, p.offset);
    GrowthIsPush(up, 0, |d.template|, m, fields);
    FieldReadsBack(d.template, up, m, fields);
    EncodedSays(Materialised(d, fields).value, ShiftedOffset(up, m, fields), p, fields);
  }

  lemma PushedInOrder(ps: seq<Patch>, fields: seq<string>, offset: nat)
    requires FieldsPresent(ps, fields)
    ensures FieldsPresent(InOrder(ps), fields)
    ensures Pushed(InOrder(ps), fields, offset) == Pushed(ps, fields, offset)
  {
    PushedDescending(ps, fields, offset);
    PushedReverse(Descending(ps), fields, offset);
  }

  lemma EncodablePresent(ps: seq<Patch>, fields: seq<string>)
    requires AllEncodable(ps, fields)
    ensures FieldsPresent(ps, fields) && forall p | p in ps :: Encodable(p, fields)
  {
    forall i | 0 <= i < |ps| ensures ps[i].field < |fields| {
      assert Encodable(ps[i], fields);
    }
  }

  // ---------------------------------------------------------------------------------------------
  // Hexadecimal digits

  /** A character denotes a hexadecimal digit in exactly two ways. */
  lemma HexNibbleIff(c: char, n: nat)
    ensures HexNibble(c) == Some(n) <==> n < 16 && (c == "0123456789abcdef"[n] || c == "0123456789ABCDEF"[n])
  {
    if n < 16 {
      assert n in {0, 1, 2, 3, 4, 5, 6, 7, 8, 9, 10, 11, 12, 13, 14, 15};
    }
  }

  // ---------------------------------------------------------------------------------------------
  // What the parser accepts

  /** What one field may hold, in terms of its text. */
  predicate Allowed(parameter: Parameter, text: string) {
    if text == "" then !parameter.required
    else
      match parameter.kind
      case Uint32 => exists n: nat :: Writes(text, n) && parameter.minimum <= n <= parameter.maximum
      case Boolean => text in ["0", "1"]
      case Text => |text| <= parameter.maximumLength && forall c | c in text :: ' ' <= c <= '~'
  }

  /** At most ten digits that denote a number below 2^32. */
  predicate Writes(text: string, n: nat) {
    |text| <= 10 && Denotes(text, n) && text[0] != '-' && n < 0x1_0000_0000
  }

  /** What is reported of a text that is not allowed. */
  function Complaint(parameter: Parameter, text: string): string {
    if text == "" then "missing_capture_target_field"
    else
      match parameter.kind
      case Uint32 => "capture_uint32_out_of_range"
      case Boolean => "capture_boolean_invalid"
      case Text => "capture_string_invalid"
  }

  /**
   * The parser lets a field pass exactly when its text is allowed for its parameter and, where a signed number of
   * eight bytes is to be written, denotes one; and it says which of the two is wrong.
   */
  lemma FieldPassesIff(d: Definition, index: nat, text: string)
    requires index < |d.parameters|
    ensures var parameter := d.parameters[index];
            FieldError(d, index, text)
            == if !Allowed(parameter, text) then Some(Complaint(parameter, text))
               else if text != "" && FieldNeedsInt64(d, index)
                       && !(|text| <= 20 && exists n :: -INT64_LIMIT <= n < INT64_LIMIT && Denotes(text, n))
               then Some("capture_int64_invalid")
               else None
  {
    hide ParseUint32, ParseInt64, Denotes, FieldNeedsInt64;
    NumbersWritten(text);
    SignedNumbersWritten(text);
    PrintableIff(text);
  }

  lemma NumbersWritten(text: string)
    ensures text != "" && ParseUint32(text).Some? ==> Writes(text, ParseUint32(text).value)
    ensures text != "" ==> forall n: nat :: Writes(text, n) ==> ParseUint32(text) == Some(n)
  {
    hide ParseUint32, Denotes;
    if text != "" {
      forall n: nat ensures Writes(text, n) ==> ParseUint32(text) == Some(n) {
        ParseUint32Iff(text, n);
      }
      if ParseUint32(text).Some? {
        ParseUint32Iff(text, ParseUint32(text).value);
      }
    }
  }

  lemma SignedNumbersWritten(text: string)
    ensures ParseInt64(text).Some?
            <==> |text| <= 20 && exists n :: -INT64_LIMIT <= n < INT64_LIMIT && Denotes(text, n)
  {
    hide ParseInt64, Denotes;
    if ParseInt64(text).Some? {
      ParseInt64Iff(text, ParseInt64(text).value);
    }
    forall n ensures Denotes(text, n) && |text| <= 20 && -INT64_LIMIT <= n < INT64_LIMIT ==> ParseInt64(text) == Some(n) {
      ParseInt64Iff(text, n);
    }
  }

  lemma PrintableIff(text: string)
    ensures IsPrintableAscii(text) <==> text != "" && forall c | c in text :: ' ' <= c <= '~'
  {
    if text != "" && forall c | c in text :: ' ' <= c <= '~' {
      forall i | 0 <= i < |text| ensures 0x20 <= text[i] as int <= 0x7e {
        assert text[i] in text;
      }
    }
  }
}
