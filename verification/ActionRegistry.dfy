/** The registry of native actions: JSON escaping, the tool manifest and the catalogue check. */
module ActionRegistry {
  import opened Basics
  import opened JsonText
  import opened TabProtocol

  /** The escaping loop of the manifest. */
  method JsonEscape(value: string) returns (escaped: string)
    ensures escaped == Escaped(value)
  {
    escaped := "";
    for i := 0 to |value|
      invariant escaped + Escaped(value[i..]) == Escaped(value)
    {
      assert value[i..][1..] == value[i + 1..];
      escaped := escaped + EscapeChar(value[i]);
    }
  }

  // ---------------------------------------------------------------------------------------------
  // Descriptors

  datatype ParameterType = Uint32 | Text | Boolean

  datatype Parameter = Parameter(
    name: string, kind: ParameterType, required: bool, description: string,
    minimum: nat, maximum: nat, maximumLength: nat)

  /** `parses` and `probes` say whether the two function pointers of the descriptor are set. */
  datatype Descriptor = Descriptor(
    actionType: string, version: nat, applicationId: string, description: string, riskClass: string,
    verificationState: string, parameters: seq<Parameter>, parses: bool, probes: bool)

  function TypeName(kind: ParameterType): string {
    match kind case Uint32 => "uint32" case Text => "string" case Boolean => "boolean"
  }

  // ---------------------------------------------------------------------------------------------
  // The order of the catalogue

  predicate TextLess(s: string, t: string) {
    if t == [] then false
    else if s == [] then true
    else s[0] < t[0] || (s[0] == t[0] && TextLess(s[1..], t[1..]))
  }

  lemma {:induction false} TextLessTrichotomy(s: string, t: string)
    ensures TextLess(s, t) || s == t || TextLess(t, s)
    ensures !(TextLess(s, t) && TextLess(t, s)) && !TextLess(s, s)
  {
    if s != [] && t != [] {
      TextLessTrichotomy(s[1..], t[1..]);
      TextLessTrichotomy(s[1..], s[1..]);
      assert s == [s[0]] + s[1..] && t == [t[0]] + t[1..];
    } else if s != [] {
      TextLessTrichotomy(s[1..], s[1..]);
    }
  }

  lemma {:induction false} TextLessTransitive(s: string, t: string, u: string)
    requires TextLess(s, t) && TextLess(t, u)
    ensures TextLess(s, u)
  {
    if s != [] && s[0] == t[0] && t[0] == u[0] {
      TextLessTransitive(s[1..], t[1..], u[1..]);
    }
  }

  predicate Before(a: Descriptor, b: Descriptor) {
    if a.actionType != b.actionType then TextLess(a.actionType, b.actionType) else a.version < b.version
  }

  predicate SameKey(a: Descriptor, b: Descriptor) {
    a.actionType == b.actionType && a.version == b.version
  }

  lemma BeforeIsStrictWeak(a: Descriptor, b: Descriptor, c: Descriptor)
    ensures !(Before(a, b) && Before(b, a))
    ensures Before(a, b) || Before(b, a) || SameKey(a, b)
    ensures !Before(b, a) && !Before(c, b) ==> !Before(c, a)
  {
    TextLessTrichotomy(a.actionType, b.actionType);
    TextLessTrichotomy(b.actionType, c.actionType);
    TextLessTrichotomy(a.actionType, c.actionType);
    if TextLess(c.actionType, a.actionType) && TextLess(a.actionType, b.actionType) {
      TextLessTransitive(c.actionType, a.actionType, b.actionType);
    }
    if TextLess(b.actionType, c.actionType) && TextLess(c.actionType, a.actionType) {
      TextLessTransitive(b.actionType, c.actionType, a.actionType);
    }
  }

  predicate Ordered(ds: seq<Descriptor>) {
    forall i, j | 0 <= i < j < |ds| :: !Before(ds[j], ds[i])
  }

  lemma OrderedCons(x: Descriptor, ds: seq<Descriptor>)
    requires Ordered(ds) && forall y | y in ds :: !Before(y, x)
    ensures Ordered([x] + ds)
  {
    var all := [x] + ds;
    forall i, j | 0 <= i < j < |all| ensures !Before(all[j], all[i]) {
      assert all[j] == ds[j - 1] && ds[j - 1] in ds;
      assert i > 0 ==> all[i] == ds[i - 1];
    }
  }

  lemma NoneBefore(d: Descriptor, ds: seq<Descriptor>)
    requires Ordered(ds) && ds != [] && !Before(ds[0], d)
    ensures forall y | y in ds :: !Before(y, d)
  {
    forall y | y in ds ensures !Before(y, d) {
      var j :| 0 <= j < |ds| && ds[j] == y;
      BeforeIsStrictWeak(d, ds[0], ds[j]);
      BeforeIsStrictWeak(d, ds[0], ds[0]);
    }
  }

  lemma FirstStaysFirst(d: Descriptor, ds: seq<Descriptor>, r: seq<Descriptor>)
    requires Ordered(ds) && ds != [] && Before(ds[0], d) && multiset(r) == multiset(ds[1..]) + multiset{d}
    ensures forall y | y in r :: !Before(y, ds[0])
  {
    BeforeIsStrictWeak(ds[0], d, d);
    forall y | y in r ensures !Before(y, ds[0]) {
      assert y in multiset(r);
      assert y == d || y in ds[1..];
    }
  }

  function Insert(d: Descriptor, ds: seq<Descriptor>): (r: seq<Descriptor>)
    requires Ordered(ds)
    ensures Ordered(r) && multiset(r) == multiset(ds) + multiset{d}
  {
    if ds == [] then [d]
    else if !Before(ds[0], d) then
      NoneBefore(d, ds);
      OrderedCons(d, ds);
      [d] + ds
    else
      assert ds == [ds[0]] + ds[1..];
      var r := Insert(d, ds[1..]);
      FirstStaysFirst(d, ds, r);
      OrderedCons(ds[0], r);
      [ds[0]] + r
  }

  /** What `std::sort` leaves of the registered descriptors, up to the order of equal keys. */
  function Catalogue(registered: seq<Descriptor>): (r: seq<Descriptor>)
    ensures Ordered(r) && multiset(r) == multiset(registered)
  {
    if registered == [] then []
    else
      assert registered == [registered[0]] + registered[1..];
      Insert(registered[0], Catalogue(registered[1..]))
  }

  /** The first registered descriptor of an action, whatever its version. */
  function FindActionDescriptor(registered: seq<Descriptor>, actionType: string): (found: Option<Descriptor>)
    ensures found.Some? ==> found.value in registered && found.value.actionType == actionType
    ensures found.None? ==> forall d | d in registered :: d.actionType != actionType
  {
    if registered == [] then None
    else if registered[0].actionType == actionType then Some(registered[0])
    else FindActionDescriptor(registered[1..], actionType)
  }

  // ---------------------------------------------------------------------------------------------
  // Validation

  predicate WellFormed(d: Descriptor) {
    && d.version != 0 && d.parses && d.probes
    && IsSemanticToken(d.actionType, 64) && IsSemanticToken(d.applicationId, 64)
    && IsSemanticToken(d.riskClass, 64) && IsSemanticToken(d.verificationState, 64)
  }

  predicate ParameterWellFormed(p: Parameter) {
    IsSemanticToken(p.name, 64) && p.description != []
  }

  predicate Sound(d: Descriptor) {
    WellFormed(d) && forall i | 0 <= i < |d.parameters| :: ParameterWellFormed(d.parameters[i])
  }

  /** All registered descriptors are sound, and no two of them share a type and version. */
  ghost predicate SoundRegistry(registered: seq<Descriptor>) {
    && registered != []
    && (forall d | d in registered :: Sound(d))
    && (forall d, e | multiset{d, e} <= multiset(registered) :: !SameKey(d, e))
  }

  /** What is wrong with the descriptor at a place of the catalogue; nothing is the empty text. */
  function FaultAt(ds: seq<Descriptor>, i: nat): string
    requires i < |ds|
  {
    if !WellFormed(ds[i]) then "invalid_action_descriptor"
    else if i > 0 && SameKey(ds[i - 1], ds[i]) then "duplicate_action_descriptor"
    else if !Sound(ds[i]) then "invalid_action_parameter_descriptor"
    else ""
  }

  method ValidateActionDescriptors(registered: seq<Descriptor>) returns (valid: bool, error: string)
    ensures valid <==> SoundRegistry(registered)
    ensures valid <==> error == ""
    ensures registered == [] ==> error == "no_registered_actions"
    ensures var ds := Catalogue(registered);
            forall i | 0 <= i < |ds| && FaultAt(ds, i) != "" && (forall j | 0 <= j < i :: FaultAt(ds, j) == "") ::
              error == FaultAt(ds, i)
  {
    hide FaultAt, Sound, SoundRegistry, SameKey;
    var ds := Catalogue(registered);
    SameLength(registered, ds);
    if |ds| == 0 {
      EmptyRegistry(registered);
      return false, "no_registered_actions";
    }
    for index := 0 to |ds|
      invariant forall i | 0 <= i < index :: FaultAt(ds, i) == ""
    {
      error := CheckDescriptor(ds, index);
      if error != "" {
        FaultyRegistry(registered, ds, index);
        return false, error;
      }
    }
    FaultlessRegistry(registered, ds);
    return true, "";
  }

  /** The body of the loop over the catalogue. */
  method CheckDescriptor(ds: seq<Descriptor>, index: nat) returns (error: string)
    requires index < |ds|
    ensures error == FaultAt(ds, index)
  {
    if !WellFormed(ds[index]) {
      return "invalid_action_descriptor";
    }
    if index != 0 && ds[index - 1].actionType == ds[index].actionType && ds[index - 1].version == ds[index].version {
      return "duplicate_action_descriptor";
    }
    for k := 0 to |ds[index].parameters|
      invariant forall i | 0 <= i < k :: ParameterWellFormed(ds[index].parameters[i])
    {
      if !IsSemanticToken(ds[index].parameters[k].name, 64) || ds[index].parameters[k].description == [] {
        assert !ParameterWellFormed(ds[index].parameters[k]);
        return "invalid_action_parameter_descriptor";
      }
    }
    return "";
  }

  lemma SameLength(registered: seq<Descriptor>, ds: seq<Descriptor>)
    requires multiset(ds) == multiset(registered)
    ensures |ds| == |registered|
  {
    assert |multiset(ds)| == |multiset(registered)|;
  }

  lemma EmptyRegistry(registered: seq<Descriptor>)
    requires registered == []
    ensures !SoundRegistry(registered)
  {
  }

  lemma FaultyRegistry(registered: seq<Descriptor>, ds: seq<Descriptor>, i: nat)
    requires multiset(ds) == multiset(registered) && i < |ds| && FaultAt(ds, i) != ""
    ensures !SoundRegistry(registered)
  {
    hide SoundRegistry;
    if i > 0 && SameKey(ds[i - 1], ds[i]) {
      DuplicateRegistry(registered, ds, i);
    } else {
      UnsoundRegistry(registered, ds, i);
    }
  }

  lemma FaultlessRegistry(registered: seq<Descriptor>, ds: seq<Descriptor>)
    requires multiset(ds) == multiset(registered) && Ordered(ds) && ds != []
    requires forall i | 0 <= i < |ds| :: FaultAt(ds, i) == ""
    ensures SoundRegistry(registered)
  {
    hide SoundRegistry;
    forall i | 0 <= i < |ds| ensures Sound(ds[i]) && (i > 0 ==> !SameKey(ds[i - 1], ds[i])) {
      assert FaultAt(ds, i) == "";
    }
    ValidRegistry(registered, ds);
  }

  lemma UnsoundRegistry(registered: seq<Descriptor>, ds: seq<Descriptor>, i: nat)
    requires multiset(ds) == multiset(registered) && i < |ds| && !Sound(ds[i])
    ensures !SoundRegistry(registered)
  {
    assert ds[i] in multiset(ds);
    assert ds[i] in multiset(registered);
    assert ds[i] in registered;
  }

  lemma PairInSequence(ds: seq<Descriptor>, i: nat, j: nat)
    requires i < j < |ds|
    ensures multiset{ds[i], ds[j]} <= multiset(ds)
  {
    assert ds == ds[..i] + [ds[i]] + ds[i + 1..j] + [ds[j]] + ds[j + 1..];
  }

  lemma DuplicateRegistry(registered: seq<Descriptor>, ds: seq<Descriptor>, i: nat)
    requires multiset(ds) == multiset(registered) && 0 < i < |ds| && SameKey(ds[i - 1], ds[i])
    ensures !SoundRegistry(registered)
  {
    PairInSequence(ds, i - 1, i);
  }

  /** In an ordered catalogue, equal keys could only be neighbours. */
  lemma ValidRegistry(registered: seq<Descriptor>, ds: seq<Descriptor>)
    requires multiset(ds) == multiset(registered) && Ordered(ds) && ds != []
    requires forall i | 0 <= i < |ds| :: Sound(ds[i])
    requires forall i | 0 < i < |ds| :: !SameKey(ds[i - 1], ds[i])
    ensures SoundRegistry(registered)
  {
    assert ds[0] in multiset(registered);
    forall d | d in registered
      ensures Sound(d)
    {
      assert d in multiset(registered);
      assert d in multiset(ds);
      assert d in ds;
    }
    forall d, e | multiset{d, e} <= multiset(registered)
      ensures !SameKey(d, e)
    {
      var i, j := PairPositions(ds, d, e);
      var lo, hi := if i < j then i else j, if i < j then j else i;
      NeighboursSuffice(ds, lo, hi);
    }
  }

  lemma NeighboursSuffice(ds: seq<Descriptor>, lo: nat, hi: nat)
    requires Ordered(ds) && lo < hi < |ds|
    requires forall i | 0 < i < |ds| :: !SameKey(ds[i - 1], ds[i])
    ensures !SameKey(ds[lo], ds[hi])
  {
    var next := lo + 1;
    assert !SameKey(ds[next - 1], ds[next]);
    if next < hi {
      BeforeIsStrictWeak(ds[lo], ds[next], ds[hi]);
      assert !Before(ds[next], ds[lo]) && !Before(ds[hi], ds[next]);
    }
  }

  // What remains of a registry without its i-th descriptor.
  lemma WithoutOne(ds: seq<Descriptor>, i: nat)
    requires i < |ds|
    ensures multiset(ds) == multiset(ds[..i] + ds[i + 1..]) + multiset{ds[i]}
  {
    assert ds == ds[..i] + [ds[i]] + ds[i + 1..];
  }

  lemma PairPositions(ds: seq<Descriptor>, d: Descriptor, e: Descriptor) returns (i: nat, j: nat)
    requires multiset{d, e} <= multiset(ds)
    ensures i < |ds| && j < |ds| && i != j && ds[i] == d && ds[j] == e
  {
    var m := multiset(ds);
    assert multiset{d, e} == multiset{d} + multiset{e};
    assert d in m by { assert multiset{d, e}[d] >= 1; }
    i :| 0 <= i < |ds| && ds[i] == d;
    var rest := ds[..i] + ds[i + 1..];
    WithoutOne(ds, i);
    assert multiset(rest)[e] >= 1 by { assert m[e] >= multiset{d, e}[e]; }
    var k :| 0 <= k < |rest| && rest[k] == e;
    j := if k < i then k else k + 1;
  }

  // ---------------------------------------------------------------------------------------------
  // The tool manifest

  datatype Profile = Profile(platformId: string, gameVersion: string, buildId: string)

  function ParameterJson(p: Parameter): Json {
    Obj([JsonMember("name", Str(p.name)), JsonMember("type", Str(TypeName(p.kind))), JsonMember("required", Flag(p.required)),
         JsonMember("description", Str(p.description))]
        + (match p.kind
           case Uint32 => [JsonMember("minimum", Num(p.minimum)), JsonMember("maximum", Num(p.maximum))]
           case Text => [JsonMember("maximum_length", Num(p.maximumLength))]
           case Boolean => []))
  }

  function ToolJson(d: Descriptor): Json {
    Obj([JsonMember("action_type", Str(d.actionType)), JsonMember("action_version", Num(d.version)),
         JsonMember("application_id", Str(if d.applicationId == [] then "etc" else d.applicationId)),
         JsonMember("description", Str(d.description)), JsonMember("risk_class", Str(d.riskClass)),
         JsonMember("verification_state", Str(d.verificationState)),
         JsonMember("parameters", Arr(seq(|d.parameters|, i requires 0 <= i < |d.parameters| => ParameterJson(d.parameters[i]))))])
  }

  function ToolItems(ds: seq<Descriptor>, supported: Descriptor -> bool): seq<Json> {
    if ds == [] then []
    else (if supported(ds[0]) then [ToolJson(ds[0])] else []) + ToolItems(ds[1..], supported)
  }

  function ManifestJson(profile: Profile, registered: seq<Descriptor>, supported: Descriptor -> bool): Json {
    Obj([JsonMember("schema_version", Str("iag.native_tool_manifest.v1")), JsonMember("platform", Str(profile.platformId)),
         JsonMember("game_version", Str(profile.gameVersion)), JsonMember("build_id", Str(profile.buildId)),
         JsonMember("tools", Arr(ToolItems(Catalogue(registered), supported)))])
  }

  /** The loop over the catalogue: a comma before every supported tool but the first. */
  method WriteTools(registered: seq<Descriptor>, supported: Descriptor -> bool) returns (output: string)
    ensures output == WriteItems(ToolItems(Catalogue(registered), supported))
  {
    var ds := Catalogue(registered);
    output := "";
    var firstTool := true;
    for i := 0 to |ds|
      invariant output == WriteItems(ToolItems(ds[..i], supported))
      invariant firstTool <==> ToolItems(ds[..i], supported) == []
    {
      assert ds[..i + 1] == ds[..i] + [ds[i]];
      ToolItemsAppend(ds[..i], ds[i], supported);
      ghost var before := ToolItems(ds[..i], supported);
      if supported(ds[i]) {
        assert ToolItems(ds[..i + 1], supported) == before + [ToolJson(ds[i])];
        WriteItemsAppend(before, ToolJson(ds[i]));
        if !firstTool {
          output := output + ",";
        }
        firstTool := false;
        output := output + Write(ToolJson(ds[i]));
      } else {
        assert ToolItems(ds[..i + 1], supported) == before;
      }
    }
    assert ds[..|ds|] == ds;
  }

  lemma {:induction false} ToolItemsAppend(ds: seq<Descriptor>, d: Descriptor, supported: Descriptor -> bool)
    ensures ToolItems(ds + [d], supported) == ToolItems(ds, supported) + if supported(d) then [ToolJson(d)] else []
  {
    if ds == [] {
      assert ds + [d] == [d];
    } else {
      ToolItemsAppend(ds[1..], d, supported);
      assert (ds + [d])[1..] == ds[1..] + [d];
    }
  }

  lemma {:induction false} SupportedIsListed(ds: seq<Descriptor>, d: Descriptor, supported: Descriptor -> bool)
    requires d in ds && supported(d)
    ensures ToolJson(d) in ToolItems(ds, supported)
  {
    if ds[0] != d {
      assert d in ds[1..];
      SupportedIsListed(ds[1..], d, supported);
    }
  }

  /** Whatever the descriptors say, the manifest can travel in one field of one line. */
  lemma ManifestIsOneField(profile: Profile, registered: seq<Descriptor>, supported: Descriptor -> bool)
    ensures Clean(Write(ManifestJson(profile, registered, supported)))
  {
    var json := ManifestJson(profile, registered, supported);
    WriteHasNoControl(json);
    NoControlIsClean(Write(json));
  }

  lemma NoControlIsClean(s: string)
    requires NoControl(s)
    ensures Clean(s)
  {
  }
}
