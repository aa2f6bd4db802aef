/** Accepting a semantic target for a captured action, and when an accepted target can be materialised. */
module CaptureParser {
  import opened Basics
  import opened TabProtocol
  import opened ActionRegistry
  import opened CaptureAction
  import opened CaptureSubstitution

  datatype Verdict = Accepted | Refused(detail: string)

  predicate FieldNeedsInt64(d: Definition, index: nat) {
    exists i :: 0 <= i < |d.patches| && d.patches[i].field == index && d.patches[i].kind.I64?
  }

  /** Why the field at `index` is refused; `None` when it is fine. */
  function FieldError(d: Definition, index: nat, value: string): Option<string>
    requires index < |d.parameters|
  {
    var parameter := d.parameters[index];
    if value == "" then (if parameter.required then Some("missing_capture_target_field") else None)
    else if parameter.kind.Uint32?
            && (ParseUint32(value).None? || !(parameter.minimum <= ParseUint32(value).value <= parameter.maximum))
    then Some("capture_uint32_out_of_range")
    else if parameter.kind.Boolean? && value != "0" && value != "1" then Some("capture_boolean_invalid")
    else if parameter.kind.Text? && (|value| > parameter.maximumLength || !IsPrintableAscii(value))
    then Some("capture_string_invalid")
    else if FieldNeedsInt64(d, index) && ParseInt64(value).None? then Some("capture_int64_invalid")
    else None
  }

  predicate FieldsFine(d: Definition, fields: seq<string>, upTo: nat)
    requires upTo <= |fields| == |d.parameters|
  {
    forall i | 0 <= i < upTo :: FieldError(d, i, fields[i]).None?
  }

  predicate BodyFine(d: Definition, fields: seq<string>) {
    d.hexField >= 0 ==>
      && d.hexField < |fields| && fields[d.hexField] != [] && IsHex(fields[d.hexField])
      && d.family <= HexBytes(fields[d.hexField])
  }

  predicate Acceptable(d: Definition, fields: seq<string>) {
    |fields| == |d.parameters| && FieldsFine(d, fields, |fields|) && BodyFine(d, fields)
  }

  /** The parser accepts exactly the acceptable targets, and otherwise reports the first thing that is wrong. */
  method ParseCaptureAction(d: Definition, fields: seq<string>) returns (verdict: Verdict)
    ensures verdict.Accepted? <==> Acceptable(d, fields)
    ensures forall k | 0 <= k < |fields| && |fields| == |d.parameters| && FieldsFine(d, fields, k)
                       && FieldError(d, k, fields[k]).Some? ::
              verdict == Refused(FieldError(d, k, fields[k]).value)
    ensures |fields| != |d.parameters| ==> verdict == Refused("invalid_capture_target_field_count")
    ensures |fields| == |d.parameters| && FieldsFine(d, fields, |fields|) && !BodyFine(d, fields) ==>
              verdict == Refused(if d.hexField >= |fields| then "capture_body_field_missing"
                                 else "capture_command_family_mismatch")
  {
    if |fields| != |d.parameters| {
      return Refused("invalid_capture_target_field_count");
    }
    for index := 0 to |fields|
      invariant FieldsFine(d, fields, index)
    {
      var error := FieldError(d, index, fields[index]);
      if error.Some? {
        return Refused(error.value);
      }
    }
    if d.hexField >= 0 {
      if d.hexField >= |fields| {
        return Refused("capture_body_field_missing");
      }
      var decoded := DecodeHex(fields[d.hexField]);
      if decoded.None? || !(d.family <= decoded.value) {
        return Refused("capture_command_family_mismatch");
      }
    }
    return Accepted;
  }

  // ---------------------------------------------------------------------------------------------
  // Accepted targets and materialisation

  /** A definition whose patches fit the template and whose parameters fit the patches. */
  predicate Reviewed(d: Definition) {
    d.hexField < 0 ==>
      && PatchesFit(d)
      && forall i | 0 <= i < |d.patches| ::
           && d.patches[i].field < |d.parameters|
           && var parameter := d.parameters[d.patches[i].field];
              && (d.patches[i].kind.U32? ==> !parameter.kind.Text?)
              && (d.patches[i].kind.Ascii? && parameter.kind.Text? ==> parameter.maximumLength <= UINT16_MAX)
  }

  lemma AcceptedFieldEncodes(d: Definition, fields: seq<string>, i: nat)
    requires d.hexField < 0 && Reviewed(d) && Acceptable(d, fields) && i < |d.patches|
    ensures Encodable(d.patches[i], fields)
            <==> d.patches[i].kind.Ascii? || fields[d.patches[i].field] != ""
  {
    var p := d.patches[i];
    var value := fields[p.field];
    assert FieldError(d, p.field, value).None?;
    if value == "" {
    } else if p.kind.I64? {
      assert FieldNeedsInt64(d, p.field);
    } else if p.kind.U32? && d.parameters[p.field].kind.Boolean? {
      BooleanIsNumber(value);
    }
  }

  lemma BooleanIsNumber(value: string)
    requires value == "0" || value == "1"
    ensures ParseUint32(value).Some?
  {
    assert value[..0] == "" && DigitsValue(value[..0]) == 0;
    assert DigitsValue(value) == value[0] as int - 48;
  }

  /**
   * An accepted target of a patched template materialises exactly when every field that is written as a number
   * is present; the parser lets an optional one be empty.
   */
  lemma AcceptedTargetMaterialises(d: Definition, fields: seq<string>)
    requires d.hexField < 0 && Reviewed(d) && Acceptable(d, fields)
    ensures Materialised(d, fields).Some?
            <==> forall i | 0 <= i < |d.patches| && !d.patches[i].kind.Ascii? :: fields[d.patches[i].field] != ""
  {
    MaterialiseIsSubstitution(d, fields);
    forall i | 0 <= i < |d.patches|
      ensures Encodable(d.patches[i], fields) <==> d.patches[i].kind.Ascii? || fields[d.patches[i].field] != ""
    {
      AcceptedFieldEncodes(d, fields, i);
    }
  }

  /** With the adapter for whole bodies an accepted target always materialises, with the expected family. */
  lemma AcceptedBodyMaterialises(d: Definition, fields: seq<string>)
    requires d.hexField >= 0 && Acceptable(d, fields)
    ensures Materialised(d, fields).Some? && d.family <= Materialised(d, fields).value
  {
  }

  /** The body that Prepare hands to the game starts with the expected family. */
  lemma AcceptedTargetKeepsFamily(d: Definition, fields: seq<string>)
    requires d.hexField < 0 && Reviewed(d) && Acceptable(d, fields)
    requires forall i | 0 <= i < |d.patches| && !d.patches[i].kind.Ascii? :: fields[d.patches[i].field] != ""
    requires d.family <= d.template && forall i | 0 <= i < |d.patches| :: d.patches[i].offset >= |d.family|
    ensures Materialised(d, fields).Some? && d.family <= Materialised(d, fields).value
  {
    forall i | 0 <= i < |d.patches|
      ensures Encodable(d.patches[i], fields)
    {
      AcceptedFieldEncodes(d, fields, i);
    }
    FamilyIsKept(d, fields);
  }

  /**
   * An optional number left empty: accepted by the parser, refused by Materialize. Definitions may declare optional
   * parameters; none that is generated today does.
   */
  lemma EmptyOptionalNumber()
    ensures var parameter := Parameter("n", Uint32, false, "n", 0, 9, 0);
            var d := Definition([parameter], [0, 0, 0, 0], [], [Patch(0, U32, 0, 4)], -1);
            Reviewed(d) && Acceptable(d, [""]) && Materialised(d, [""]).None?
  {
    var parameter := Parameter("n", Uint32, false, "n", 0, 9, 0);
    var d := Definition([parameter], [0, 0, 0, 0], [], [Patch(0, U32, 0, 4)], -1);
    assert FieldError(d, 0, "").None?;
    assert Reviewed(d) && Acceptable(d, [""]);
    AcceptedTargetMaterialises(d, [""]);
    assert !d.patches[0].kind.Ascii? && [""][d.patches[0].field] == "";
  }
}
