/** Capture-backed actions: parsing a semantic target and writing it into a captured command body. */
module CaptureAction {
  import opened Basics
  import opened TabProtocol
  import opened ActionRegistry
  import opened JsonText

  datatype PatchKind = U32 | I64 | Ascii

  /** One field of the captured body; `originalSize` is the length of the captured string. */
  datatype Patch = Patch(field: nat, kind: PatchKind, offset: nat, originalSize: nat)

  /** `hexField` selects the adapter whose one field carries the whole body; negative for patched templates. */
  datatype Definition = Definition(
    parameters: seq<Parameter>, template: seq<byte>, family: seq<byte>, patches: seq<Patch>, hexField: int)

  // ---------------------------------------------------------------------------------------------
  // Values of fields

  const UINT16_MAX: nat := 65535
  const INT64_LIMIT: int := 0x8000_0000_0000_0000
  const UINT64_LIMIT: nat := 0x1_0000_0000_0000_0000

  function ParseInt64(value: string): (r: Option<int>)
    ensures r.Some? ==> -INT64_LIMIT <= r.value < INT64_LIMIT
  {
    var negative := value != [] && value[0] == '-';
    var digits := if negative then value[1..] else value;
    if 0 < |value| <= 20 && digits != [] && AllDigits(digits) then
      var magnitude: int := DigitsValue(digits);
      var n := if negative then -magnitude else magnitude;
      if -INT64_LIMIT <= n < INT64_LIMIT then Some(n) else None
    else None
  }

  /** The bits of a signed number, read as an unsigned one. */
  function TwosComplement(n: int): nat
    requires -INT64_LIMIT <= n < INT64_LIMIT
  {
    if n < 0 then n + UINT64_LIMIT else n
  }

  predicate IsPrintableAscii(value: string) {
    value != [] && forall i | 0 <= i < |value| :: 0x20 <= value[i] as int <= 0x7e
  }

  function HexNibble(c: char): (n: Option<nat>)
    ensures n.Some? ==> n.value < 16
  {
    if '0' <= c <= '9' then Some(c as int - '0' as int)
    else if 'a' <= c <= 'f' then Some(c as int - 'a' as int + 10)
    else if 'A' <= c <= 'F' then Some(c as int - 'A' as int + 10)
    else None
  }

  predicate IsHex(value: string) {
    |value| % 2 == 0 && forall i | 0 <= i < |value| :: HexNibble(value[i]).Some?
  }

  /** The bytes that pairs of hexadecimal digits denote. */
  function HexBytes(value: string): (b: seq<byte>)
    requires IsHex(value)
    ensures |b| * 2 == |value|
  {
    if value == [] then []
    else [16 * HexNibble(value[0]).value + HexNibble(value[1]).value] + HexBytes(value[2..])
  }

  method DecodeHex(value: string) returns (decoded: Option<seq<byte>>)
    ensures decoded == if value != [] && IsHex(value) then Some(HexBytes(value)) else None
  {
    hide HexNibble;
    if value == [] || |value| % 2 != 0 {
      return None;
    }
    var bytes: seq<byte> := [];
    var index := 0;
    while index < |value|
      invariant 0 <= index <= |value| && index % 2 == 0
      invariant forall i | 0 <= i < index :: HexNibble(value[i]).Some?
      invariant IsHex(value[..index]) && bytes == HexBytes(value[..index])
    {
      var high := HexNibble(value[index]);
      var low := HexNibble(value[index + 1]);
      if high.None? || low.None? {
        return None;
      }
      HexBytesAppend(value[..index], value[index], value[index + 1]);
      assert value[..index + 2] == value[..index] + [value[index], value[index + 1]];
      bytes := bytes + [16 * high.value + low.value];
      index := index + 2;
    }
    assert value[..index] == value;
    return Some(bytes);
  }

  lemma {:induction false} HexBytesAppend(value: string, high: char, low: char)
    requires IsHex(value) && HexNibble(high).Some? && HexNibble(low).Some?
    ensures IsHex(value + [high, low])
    ensures HexBytes(value + [high, low])
            == HexBytes(value) + [16 * HexNibble(high).value + HexNibble(low).value]
  {
    var longer := value + [high, low];
    if value == [] {
      HexPair(high, low, []);
      assert longer == [high, low] + [];
    } else {
      var rest := value[2..];
      assert forall i | 0 <= i < |rest| :: rest[i] == value[i + 2];
      assert value == [value[0], value[1]] + rest;
      HexBytesAppend(rest, high, low);
      HexPair(value[0], value[1], rest);
      HexPair(value[0], value[1], rest + [high, low]);
      assert longer == [value[0], value[1]] + (rest + [high, low]);
    }
  }

  function HexDigits(b: seq<byte>): (s: string) {
    if b == [] then [] else [HEX[b[0] / 16], HEX[b[0] % 16]] + HexDigits(b[1..])
  }

  lemma HexDigitNibble(n: nat)
    requires n < 16
    ensures HexNibble(HEX[n]) == Some(n)
  {
    assert n in {0, 1, 2, 3, 4, 5, 6, 7, 8, 9, 10, 11, 12, 13, 14, 15};
  }

  /** Every body that a sender writes as lower-case hex is decoded to the same bytes. */
  lemma {:induction false} HexRoundTrip(b: seq<byte>)
    ensures IsHex(HexDigits(b)) && HexBytes(HexDigits(b)) == b
  {
    hide HexNibble, IsHex, HexDigits, HexBytes;
    if b == [] {
      NoDigits();
    } else {
      HexRoundTrip(b[1..]);
      DigitsOfByte(b[0]);
      HexPair(HEX[b[0] / 16], HEX[b[0] % 16], HexDigits(b[1..]));
      FirstDigits(b);
      assert b == [b[0]] + b[1..];
    }
  }

  lemma NoDigits()
    ensures IsHex(HexDigits([])) && HexBytes(HexDigits([])) == []
  {
  }

  lemma FirstDigits(b: seq<byte>)
    requires b != []
    ensures HexDigits(b) == [HEX[b[0] / 16], HEX[b[0] % 16]] + HexDigits(b[1..])
  {
  }

  lemma DigitsOfByte(x: byte)
    ensures HexNibble(HEX[x / 16]).Some? && HexNibble(HEX[x % 16]).Some?
    ensures 16 * HexNibble(HEX[x / 16]).value + HexNibble(HEX[x % 16]).value == x
  {
    HexDigitNibble(x / 16);
    HexDigitNibble(x % 16);
  }

  lemma HexPair(high: char, low: char, rest: string)
    requires HexNibble(high).Some? && HexNibble(low).Some? && IsHex(rest)
    ensures IsHex([high, low] + rest)
    ensures HexBytes([high, low] + rest) == [16 * HexNibble(high).value + HexNibble(low).value] + HexBytes(rest)
  {
    var s := [high, low] + rest;
    assert s[2..] == rest;
    assert forall i | 2 <= i < |s| :: s[i] == rest[i - 2];
  }

  // ---------------------------------------------------------------------------------------------
  // Little-endian writes in place

  /** `body` with `patch` over the bytes at `offset`. */
  function Overwrite(body: seq<byte>, offset: nat, patch: seq<byte>): (r: seq<byte>)
    requires offset + |patch| <= |body|
    ensures |r| == |body|
  {
    body[..offset] + patch + body[offset + |patch|..]
  }

  lemma DivDiv(a: nat, b: nat, c: nat)
    requires b > 0 && c > 0
    ensures b * c > 0 && (a / b) / c == a / (b * c)
  {
    MultipleAtLeast(b, c);
    var q := (a / b) / c;
    var r := a % b + b * ((a / b) % c);
    assert a == q * (b * c) + r by {
      assert a == b * (a / b) + a % b;
      assert a / b == c * q + (a / b) % c;
      assert b * (c * q) == q * (b * c);
      assert b * (c * q + (a / b) % c) == b * (c * q) + b * ((a / b) % c);
    }
    assert 0 <= r < b * c by {
      assert (a / b) % c <= c - 1;
      MonotoneMul(b, (a / b) % c, c - 1);
      assert b * (c - 1) == b * c - b;
    }
    QuotientUnique(a, b * c, q, r);
  }

  lemma MonotoneMul(b: nat, x: nat, y: nat)
    requires x <= y
    ensures b * x <= b * y
  {
    assert b * y == b * x + b * (y - x);
  }

  lemma QuotientUnique(n: int, d: int, q: int, r: int)
    requires d > 0 && 0 <= r < d && n == q * d + r
    ensures n / d == q
  {
    RemainderUnique(n, d, q, r);
    var k := n / d - q;
    assert k * d == 0 by {
      assert n == (n / d) * d + n % d;
      assert k * d == (n / d) * d - q * d;
    }
    if k > 0 {
      MultipleAtLeast(k, d);
    } else if k < 0 {
      MultipleAtLeast(-k, d);
    }
  }

  lemma {:induction false} LittleEndianByte(value: nat, width: nat, i: nat)
    requires i < width
    ensures LittleEndian(value, width)[i] == (value / Power256(i)) % 256
  {
    if i > 0 {
      LittleEndianByte(value / 256, width - 1, i - 1);
      DivDiv(value, 256, Power256(i - 1));
    }
  }

  method WriteLittleEndian(body: seq<byte>, offset: nat, value: nat, width: nat) returns (output: seq<byte>)
    requires offset + width <= |body|
    ensures output == Overwrite(body, offset, LittleEndian(value, width))
  {
    output := body;
    var shift := 1;
    for index := 0 to width
      invariant |output| == |body| && shift == Power256(index)
      invariant forall k | 0 <= k < |body| ::
        output[k] == if offset <= k < offset + index then LittleEndian(value, width)[k - offset] else body[k]
    {
      LittleEndianByte(value, width, index);
      output := output[offset + index := (value / shift) % 256];
      shift := shift * 256;
    }
  }

  // ---------------------------------------------------------------------------------------------
  // Materialisation, step by step

  function Width(kind: PatchKind): nat
    requires !kind.Ascii?
  {
    if kind.U32? then 4 else 8
  }

  /** The bytes of the template that a patch replaces. */
  function Extent(p: Patch): nat {
    match p.kind case U32 => 4 case I64 => 8 case Ascii => 2 + p.originalSize
  }

  /** The number that a field holds, as the bits to be written. */
  function NumberOf(kind: PatchKind, value: string): Option<nat>
    requires !kind.Ascii?
  {
    if kind.U32? then ParseUint32(value)
    else
      var n := ParseInt64(value);
      if n.Some? then Some(TwosComplement(n.value)) else None
  }

  /** The bytes that take their place; `None` when the field cannot be encoded. */
  function Encoded(p: Patch, fields: seq<string>): (r: Option<seq<byte>>)
    ensures r.Some? && !p.kind.Ascii? ==> |r.value| == Extent(p)
  {
    if p.field >= |fields| then None
    else
      var value := fields[p.field];
      if p.kind.Ascii? then
        if |value| <= UINT16_MAX then Some(LittleEndian(|value|, 2) + BytesOf(value)) else None
      else
        var n := NumberOf(p.kind, value);
        if n.Some? then Some(LittleEndian(n.value, Width(p.kind))) else None
  }

  predicate Encodable(p: Patch, fields: seq<string>) {
    Encoded(p, fields).Some?
  }

  /** The first loop: numbers are written in place, strings are kept for later. */
  function Numbers(body: seq<byte>, ps: seq<Patch>, fields: seq<string>): Option<seq<byte>>
    decreases |ps|
  {
    if ps == [] then Some(body)
    else if ps[0].field >= |fields| then None
    else if ps[0].kind.Ascii? then Numbers(body, ps[1..], fields)
    else if ps[0].offset + Width(ps[0].kind) > |body| || Encoded(ps[0], fields).None? then None
    else Numbers(Overwrite(body, ps[0].offset, Encoded(ps[0], fields).value), ps[1..], fields)
  }

  function Strings(ps: seq<Patch>): seq<Patch> {
    if ps == [] then []
    else if ps[0].kind.Ascii? then [ps[0]] + Strings(ps[1..])
    else Strings(ps[1..])
  }

  lemma {:induction false} StringsMembers(ps: seq<Patch>)
    ensures forall p :: p in Strings(ps) <==> p in ps && p.kind.Ascii?
  {
    if ps != [] {
      StringsMembers(ps[1..]);
      assert ps == [ps[0]] + ps[1..];
    }
  }

  /** One string in place of the captured one; the body may change its length. */
  function Splice(body: seq<byte>, p: Patch, fields: seq<string>): Option<seq<byte>>
    requires p.field < |fields| && p.kind.Ascii?
  {
    if Encodable(p, fields) && p.offset + 2 + p.originalSize <= |body|
    then Some(body[..p.offset] + Encoded(p, fields).value + body[p.offset + 2 + p.originalSize..])
    else None
  }

  /** The second loop. */
  function Spliced(body: seq<byte>, ps: seq<Patch>, fields: seq<string>): Option<seq<byte>>
    requires forall p | p in ps :: p.field < |fields| && p.kind.Ascii?
    decreases |ps|
  {
    if ps == [] then Some(body)
    else
      var next := Splice(body, ps[0], fields);
      if next.None? then None else Spliced(next.value, ps[1..], fields)
  }

  predicate DescendingOffsets(ps: seq<Patch>) {
    forall i, j | 0 <= i < j < |ps| :: ps[i].offset >= ps[j].offset
  }

  function InsertDescending(p: Patch, ps: seq<Patch>): (r: seq<Patch>)
    requires DescendingOffsets(ps)
    ensures DescendingOffsets(r) && |r| == |ps| + 1
    ensures forall q :: q in r <==> q == p || q in ps
  {
    if ps == [] || p.offset >= ps[0].offset then [p] + ps
    else
      var rest := InsertDescending(p, ps[1..]);
      assert ps == [ps[0]] + ps[1..];
      assert forall q | q in rest :: q.offset <= ps[0].offset;
      [ps[0]] + rest
  }

  /** `std::sort` by descending offset; its order among equal offsets does not matter for disjoint patches. */
  function Descending(ps: seq<Patch>): (r: seq<Patch>)
    ensures DescendingOffsets(r) && |r| == |ps|
    ensures forall q :: q in r <==> q in ps
  {
    if ps == [] then []
    else
      assert ps == [ps[0]] + ps[1..];
      InsertDescending(ps[0], Descending(ps[1..]))
  }

  predicate FieldsPresent(ps: seq<Patch>, fields: seq<string>) {
    forall i | 0 <= i < |ps| :: ps[i].field < |fields|
  }

  lemma {:induction false} NumbersNeedFields(body: seq<byte>, ps: seq<Patch>, fields: seq<string>)
    requires Numbers(body, ps, fields).Some?
    ensures FieldsPresent(ps, fields)
    decreases |ps|
  {
    if ps != [] {
      var body' := if ps[0].kind.Ascii? then body else Overwrite(body, ps[0].offset, Encoded(ps[0], fields).value);
      NumbersNeedFields(body', ps[1..], fields);
      assert ps == [ps[0]] + ps[1..];
    }
  }

  function PatchedTemplate(d: Definition, fields: seq<string>): Option<seq<byte>> {
    var body := Numbers(d.template, d.patches, fields);
    if body.None? then None
    else
      NumbersNeedFields(d.template, d.patches, fields);
      StringsMembers(d.patches);
      Spliced(body.value, Descending(Strings(d.patches)), fields)
  }

  function Materialised(d: Definition, fields: seq<string>): Option<seq<byte>> {
    if d.hexField >= 0 then
      if d.hexField < |fields| && fields[d.hexField] != [] && IsHex(fields[d.hexField])
      then Some(HexBytes(fields[d.hexField])) else None
    else PatchedTemplate(d, fields)
  }

  method Materialize(d: Definition, fields: seq<string>) returns (result: Option<seq<byte>>)
    ensures result == Materialised(d, fields)
  {
    if d.hexField >= 0 {
      if d.hexField >= |fields| {
        return None;
      }
      result := DecodeHex(fields[d.hexField]);
      return;
    }
    var written, strings := WriteNumbers(d.template, d.patches, fields);
    if written.None? {
      return None;
    }
    NumbersNeedFields(d.template, d.patches, fields);
    StringsMembers(d.patches);
    result := SpliceStrings(written.value, Descending(strings), fields);
  }

  method WriteNumbers(template: seq<byte>, patches: seq<Patch>, fields: seq<string>)
    returns (written: Option<seq<byte>>, strings: seq<Patch>)
    ensures written == Numbers(template, patches, fields)
    ensures written.Some? ==> strings == Strings(patches)
  {
    var body := template;
    strings := [];
    for i := 0 to |patches|
      invariant strings + Strings(patches[i..]) == Strings(patches)
      invariant Numbers(body, patches[i..], fields) == Numbers(template, patches, fields)
    {
      var p := patches[i];
      ghost var rest := patches[i + 1..];
      FirstPatch(body, patches[i..], p, rest, fields);
      if p.field >= |fields| {
        return None, [];
      }
      if p.kind.Ascii? {
        strings := strings + [p];
        continue;
      }
      var width := Width(p.kind);
      if p.offset > |body| || width > |body| - p.offset {
        return None, [];
      }
      var parsed := NumberOf(p.kind, fields[p.field]);
      if parsed.None? {
        return None, [];
      }
      body := WriteLittleEndian(body, p.offset, parsed.value, width);
    }
    written := Some(body);
  }

  lemma FirstPatch(body: seq<byte>, ps: seq<Patch>, p: Patch, rest: seq<Patch>, fields: seq<string>)
    requires ps != [] && p == ps[0] && rest == ps[1..]
    ensures Strings(ps) == if p.kind.Ascii? then [p] + Strings(rest) else Strings(rest)
    ensures Numbers(body, ps, fields)
            == if p.field >= |fields| then None
               else if p.kind.Ascii? then Numbers(body, rest, fields)
               else if p.offset + Width(p.kind) > |body| || NumberOf(p.kind, fields[p.field]).None? then None
               else Numbers(Overwrite(body, p.offset, LittleEndian(NumberOf(p.kind, fields[p.field]).value, Width(p.kind))),
                            rest, fields)
  {
    if p.field < |fields| && !p.kind.Ascii? && NumberOf(p.kind, fields[p.field]).Some? {
      var bytes := LittleEndian(NumberOf(p.kind, fields[p.field]).value, Width(p.kind));
      assert Encoded(p, fields) == Some(bytes);
    }
  }

  method SpliceStrings(written: seq<byte>, order: seq<Patch>, fields: seq<string>) returns (result: Option<seq<byte>>)
    requires forall p | p in order :: p.field < |fields| && p.kind.Ascii?
    ensures result == Spliced(written, order, fields)
  {
    var body := written;
    for i := 0 to |order|
      invariant Spliced(body, order[i..], fields) == Spliced(written, order, fields)
    {
      var p := order[i];
      assert order[i..][1..] == order[i + 1..];
      var value := fields[p.field];
      if |value| > UINT16_MAX || p.offset > |body| || |body| - p.offset < 2
         || p.originalSize > |body| - p.offset - 2 {
        return None;
      }
      LengthPrefix(|value|);
      var replacement: seq<byte> := [|value| % 256, |value| / 256] + BytesOf(value);
      body := body[..p.offset] + replacement + body[p.offset + 2 + p.originalSize..];
    }
    return Some(body);
  }

  lemma LengthPrefix(n: nat)
    requires n <= UINT16_MAX
    ensures LittleEndian(n, 2) == [n % 256, n / 256]
  {
    assert LittleEndian(n / 256, 1) == [(n / 256) % 256] + LittleEndian(n / 256 / 256, 0);
  }
}
