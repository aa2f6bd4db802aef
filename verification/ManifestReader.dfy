/** A reader of the tool manifest, and what it finds there: every supported tool with all its parameters. */
module ManifestReader {
  import opened Basics
  import opened JsonText
  import opened ActionRegistry
  import JsonReader

  // ---------------------------------------------------------------------------------------------
  // What a client wants to know

  datatype Limits = Between(minimum: int, maximum: int) | AtMost(length: int) | Either

  datatype ToolParameter = ToolParameter(name: string, required: bool, description: string, limits: Limits)

  datatype Tool = Tool(
    actionType: string, version: int, applicationId: string, description: string, riskClass: string,
    verificationState: string, parameters: seq<ToolParameter>)

  datatype ToolManifest = ToolManifest(platform: string, gameVersion: string, buildId: string, tools: seq<Tool>)

  // ---------------------------------------------------------------------------------------------
  // The reader

  function TextAt(members: seq<JsonMember>, i: nat, key: string): Option<string> {
    if i < |members| && members[i].key == key && members[i].value.Str? then Some(members[i].value.text) else None
  }

  function NumberAt(members: seq<JsonMember>, i: nat, key: string): Option<int> {
    if i < |members| && members[i].key == key && members[i].value.Num? then Some(members[i].value.n) else None
  }

  function FlagAt(members: seq<JsonMember>, i: nat, key: string): Option<bool> {
    if i < |members| && members[i].key == key && members[i].value.Flag? then Some(members[i].value.b) else None
  }

  function ItemsAt(members: seq<JsonMember>, i: nat, key: string): Option<seq<Json>> {
    if i < |members| && members[i].key == key && members[i].value.Arr? then Some(members[i].value.items) else None
  }

  function ReadLimits(members: seq<JsonMember>, kind: string): Option<Limits> {
    if kind == "uint32" then
      var low, high := NumberAt(members, 4, "minimum"), NumberAt(members, 5, "maximum");
      if |members| != 6 || low.None? || high.None? then None else Some(Between(low.value, high.value))
    else if kind == "string" then
      var most := NumberAt(members, 4, "maximum_length");
      if |members| != 5 || most.None? then None else Some(AtMost(most.value))
    else if kind == "boolean" && |members| == 4 then Some(Either)
    else None
  }

  function ReadParameter(json: Json): Option<ToolParameter> {
    if !json.Obj? then None
    else
      var m := json.members;
      var name, kind, required, description :=
        TextAt(m, 0, "name"), TextAt(m, 1, "type"), FlagAt(m, 2, "required"), TextAt(m, 3, "description");
      if name.None? || kind.None? || required.None? || description.None? then None
      else
        var limits := ReadLimits(m, kind.value);
        if limits.None? then None
        else Some(ToolParameter(name.value, required.value, description.value, limits.value))
  }

  function ReadAll<T>(items: seq<Json>, read: Json -> Option<T>): Option<seq<T>> {
    if items == [] then Some([])
    else
      var first, rest := read(items[0]), ReadAll(items[1..], read);
      if first.None? || rest.None? then None else Some([first.value] + rest.value)
  }

  function ReadTool(json: Json): Option<Tool> {
    if !json.Obj? || |json.members| != 7 then None
    else
      var m := json.members;
      var action, version, application, description :=
        TextAt(m, 0, "action_type"), NumberAt(m, 1, "action_version"), TextAt(m, 2, "application_id"),
        TextAt(m, 3, "description");
      var risk, state, items := TextAt(m, 4, "risk_class"), TextAt(m, 5, "verification_state"), ItemsAt(m, 6, "parameters");
      if action.None? || version.None? || application.None? || description.None? || risk.None? || state.None? || items.None?
      then None
      else
        var parameters := ReadAll(items.value, ReadParameter);
        if parameters.None? then None
        else
          Some(Tool(
            action.value, version.value, application.value, description.value, risk.value, state.value, parameters.value))
  }

  function ReadManifest(json: Json): Option<ToolManifest> {
    if !json.Obj? || |json.members| != 5 || TextAt(json.members, 0, "schema_version") != Some("iag.native_tool_manifest.v1")
    then None
    else
      var m := json.members;
      var platform, version, build, items :=
        TextAt(m, 1, "platform"), TextAt(m, 2, "game_version"), TextAt(m, 3, "build_id"), ItemsAt(m, 4, "tools");
      if platform.None? || version.None? || build.None? || items.None? then None
      else
        var tools := ReadAll(items.value, ReadTool);
        if tools.None? then None else Some(ToolManifest(platform.value, version.value, build.value, tools.value))
  }

  // ---------------------------------------------------------------------------------------------
  // What it should find

  function LimitsOf(p: Parameter): Limits {
    match p.kind
    case Uint32 => Between(p.minimum, p.maximum)
    case Text => AtMost(p.maximumLength)
    case Boolean => Either
  }

  function ParameterOf(p: Parameter): ToolParameter {
    ToolParameter(p.name, p.required, p.description, LimitsOf(p))
  }

  function ParametersOf(ps: seq<Parameter>): seq<ToolParameter> {
    seq(|ps|, i requires 0 <= i < |ps| => ParameterOf(ps[i]))
  }

  /** A tool without an application belongs to "etc". */
  function ToolOf(d: Descriptor): Tool {
    Tool(d.actionType, d.version, if d.applicationId == "" then "etc" else d.applicationId, d.description, d.riskClass,
         d.verificationState, ParametersOf(d.parameters))
  }

  function SupportedTools(ds: seq<Descriptor>, supported: Descriptor -> bool): seq<Tool> {
    if ds == [] then []
    else
      var rest := SupportedTools(ds[1..], supported);
      if supported(ds[0]) then [ToolOf(ds[0])] + rest else rest
  }

  // ---------------------------------------------------------------------------------------------
  // Round trip

  lemma ParameterReadsBack(p: Parameter)
    ensures ReadParameter(ParameterJson(p)) == Some(ParameterOf(p))
  {
    match p.kind
    case Uint32 => NumberParameterReadsBack(p);
    case Text => TextParameterReadsBack(p);
    case Boolean => FlagParameterReadsBack(p);
  }

  function Front(p: Parameter, kind: string): seq<JsonMember> {
    [JsonMember("name", Str(p.name)), JsonMember("type", Str(kind)), JsonMember("required", Flag(p.required)),
     JsonMember("description", Str(p.description))]
  }

  lemma NumberParameterReadsBack(p: Parameter)
    requires p.kind.Uint32?
    ensures ReadParameter(ParameterJson(p)) == Some(ParameterOf(p))
  {
    var m := Front(p, "uint32") + [JsonMember("minimum", Num(p.minimum)), JsonMember("maximum", Num(p.maximum))];
    assert ParameterJson(p) == Obj(m);
    assert ReadLimits(m, "uint32") == Some(Between(p.minimum, p.maximum));
  }

  lemma TextParameterReadsBack(p: Parameter)
    requires p.kind.Text?
    ensures ReadParameter(ParameterJson(p)) == Some(ParameterOf(p))
  {
    var m := Front(p, "string") + [JsonMember("maximum_length", Num(p.maximumLength))];
    assert ParameterJson(p) == Obj(m);
    OtherKinds();
    assert ReadLimits(m, "string") == Some(AtMost(p.maximumLength));
  }

  lemma FlagParameterReadsBack(p: Parameter)
    requires p.kind.Boolean?
    ensures ReadParameter(ParameterJson(p)) == Some(ParameterOf(p))
  {
    var m := Front(p, "boolean") + [];
    assert ParameterJson(p) == Obj(m);
    OtherKinds();
    assert ReadLimits(m, "boolean") == Some(Either);
  }

  lemma OtherKinds()
    ensures "string" != "uint32" && "boolean" != "uint32" && "boolean" != "string"
  {
    assert |"string"| == |"uint32"| == 6 && "string"[0] != "uint32"[0];
  }

  lemma {:induction false} ParametersReadBack(ps: seq<Parameter>, items: seq<Json>)
    requires |items| == |ps| && forall i | 0 <= i < |ps| :: items[i] == ParameterJson(ps[i])
    ensures ReadAll(items, ReadParameter) == Some(ParametersOf(ps))
  {
    hide ParameterJson, ReadParameter, ParameterOf;
    if ps != [] {
      ParameterReadsBack(ps[0]);
      ParametersReadBack(ps[1..], items[1..]);
      assert ParametersOf(ps) == [ParameterOf(ps[0])] + ParametersOf(ps[1..]);
    }
  }

  lemma ToolReadsBack(d: Descriptor)
    ensures ReadTool(ToolJson(d)) == Some(ToolOf(d))
  {
    hide ReadAll, ParameterJson, ReadParameter;
    var items := seq(|d.parameters|, i requires 0 <= i < |d.parameters| => ParameterJson(d.parameters[i]));
    ParametersReadBack(d.parameters, items);
    assert ToolJson(d).members[6].value == Arr(items);
  }

  lemma {:induction false} ToolsReadBack(ds: seq<Descriptor>, supported: Descriptor -> bool)
    ensures ReadAll(ToolItems(ds, supported), ReadTool) == Some(SupportedTools(ds, supported))
  {
    hide ReadTool, ToolJson, ToolOf;
    if ds != [] {
      ToolReadsBack(ds[0]);
      ToolsReadBack(ds[1..], supported);
      var rest := ToolItems(ds[1..], supported);
      assert ([ToolJson(ds[0])] + rest)[1..] == rest && [] + rest == rest;
    }
  }

  /**
   * Whoever reads the manifest finds the profile and exactly the supported tools, in order of type and version, each
   * with everything that its descriptor says of it and of its parameters.
   */
  lemma ManifestReadsBack(profile: Profile, registered: seq<Descriptor>, supported: Descriptor -> bool)
    ensures var parsed := JsonReader.Parse(Write(ManifestJson(profile, registered, supported)));
            && parsed.Some?
            && ReadManifest(parsed.value)
               == Some(ToolManifest(
                    profile.platformId, profile.gameVersion, profile.buildId,
                    SupportedTools(Catalogue(registered), supported)))
  {
    hide ReadAll, ReadTool, ToolItems, Catalogue, Write;
    JsonReader.RoundTrip(ManifestJson(profile, registered, supported));
    ToolsReadBack(Catalogue(registered), supported);
  }

  /** A supported descriptor is listed as often as it is registered, and no other tool is listed. */
  lemma {:induction false} ListedIff(ds: seq<Descriptor>, supported: Descriptor -> bool, tool: Tool)
    ensures tool in SupportedTools(ds, supported) <==> exists d :: d in ds && supported(d) && ToolOf(d) == tool
  {
    hide ToolOf;
    if ds != [] {
      ListedIff(ds[1..], supported, tool);
      assert forall d :: d in ds <==> d == ds[0] || d in ds[1..];
    }
  }
}
