/** module-python/lib/substanceconnector/framework/features/meshimport.py:
    the mesh-import enums and the three message schemas. A schema object is
    its class and the attributes its constructor managed to set. */
module PyMeshImport {
  import opened Common
  import opened PyJson
  import opened PyJsonSchema
  import opened PyCallbacks

  /** A Python Enum: its members' names and values, in definition order. */
  datatype PyEnum = PyEnum(members: seq<(string, int)>)

  /** `[e.name for e in E]`. */
  function Names(e: PyEnum): (r: seq<string>)
    ensures |r| == |e.members| && forall i :: 0 <= i < |r| ==> r[i] == e.members[i].0
  {
    seq(|e.members|, i requires 0 <= i < |e.members| => e.members[i].0)
  }

  /** `[e.value for e in E]`, as JSON. */
  function Values(e: PyEnum): (r: seq<Json>)
    ensures |r| == |e.members| && forall i :: 0 <= i < |r| ==> r[i] == JNum(e.members[i].1)
  {
    seq(|e.members|, i requires 0 <= i < |e.members| => JNum(e.members[i].1))
  }

  const FileFormat := PyEnum([("fbx", 0), ("glb", 1), ("gltf", 2), ("igs", 3), ("jt", 4), ("obj", 5),
                              ("step", 6), ("stl", 7), ("stp", 8), ("usd", 9), ("usda", 10),
                              ("usdz", 11), ("usdc", 12)])
  const ColorFormat := PyEnum([("NoColorFormat", 0), ("Vertex", 1), ("Texture", 2)])
  const ColorEncoding := PyEnum([("Linear", 0), ("SRGB", 1)])
  const AxisConvention := PyEnum([("ForceYUp_XRight_mZForward", 0), ("ForceZUp_XRight_YForward", 1)])
  const Unit := PyEnum([("Millimeters", 0), ("Centimeters", 1), ("Meters", 2), ("Kilometers", 3),
                        ("Inches", 4), ("Feet", 5), ("Yards", 6), ("Miles", 7)])
  const ExportTopology := PyEnum([("Triangles", 0), ("Quads", 1)])

  /** `E[v].name`: the lookup is by exact member name, so only a string
      that is one of the names succeeds, and gives that name back; anything
      else raises (KeyError, or TypeError for a list or dict). A member's
      value is no key: a number always raises. */
  function EnumName(v: Json, e: PyEnum): (r: Option<Json>)
    ensures r.Some? <==> v.JStr? && exists i :: 0 <= i < |e.members| && e.members[i].0 == v.s
    ensures r.Some? ==> r.value == v
    ensures v.JNum? ==> r.None?
  {
    if v.JStr? && (exists i :: 0 <= i < |e.members| && e.members[i].0 == v.s) then
      var i :| 0 <= i < |e.members| && e.members[i].0 == v.s;
      assert Names(e)[i] == v.s;
      Some(v)
    else if v.JStr? && v.s in Names(e) then Some(v) else None
  }

  /** `[E[x].name for x in v]`: a list is looked up element by element, a
      string character by character; an empty dict gives the empty list;
      anything else raises. What it gives is a list of member names, the
      list itself when it was given one, one name per character of a
      string. */
  function EnumNames(v: Json, e: PyEnum): (r: Option<Json>)
    ensures r.Some? ==> r.value.JArr? && forall i :: 0 <= i < |r.value.items| ==> EnumName(r.value.items[i], e) == Some(r.value.items[i])
    ensures v.JArr? ==> (r.Some? <==> forall i :: 0 <= i < |v.items| ==> EnumName(v.items[i], e).Some?)
    ensures v.JArr? && r.Some? ==> r == Some(v)
    ensures v.JStr? && r.Some? ==> |r.value.items| == |v.s|
    ensures v.JNull? || v.JBool? || v.JNum? ==> r.None?
  {
    match v
    case JArr(items) =>
      if forall i :: 0 <= i < |items| ==> EnumName(items[i], e).Some? then Some(v) else None
    case JStr(s) =>
      if forall i :: 0 <= i < |s| ==> [s[i]] in Names(e)
      then Some(JArr(seq(|s|, i requires 0 <= i < |s| => JStr([s[i]])))) else None
    case JObj(fields) => if fields == map[] then Some(JArr([])) else None
    case _ => None
  }

  /** One assignment of the MeshImportMessageSchema constructor. */
  datatype Rule =
    | Copy(key: string)                   // self.k = json_object.get(k)
    | NameOf(key: string, e: PyEnum)      // self.k = E[json_object.get(k)].name
    | NamesOf(key: string, e: PyEnum)     // if json_object.get(k) != None: self.k = [E[x].name for x in ...]

  /** What one assignment does: set the attribute, skip it, or raise. */
  datatype Step = Set(value: Json) | Skip | Abort

  function ApplyRule(j: Json, r: Rule): Step {
    match r
    case Copy(key) => Set(Get(j, key, JNull))
    case NameOf(key, e) =>
      var v := EnumName(Get(j, key, JNull), e);
      if v.Some? then Set(v.value) else Abort
    case NamesOf(key, e) =>
      var raw := Get(j, key, JNull);
      if raw == JNull then Skip
      else
        var v := EnumNames(raw, e);
        if v.Some? then Set(v.value) else Abort
  }

  /** The assignments in order; the first that raises ends the `try`,
      leaving the later attributes unset. */
  function BuildFrom(j: Json, rules: seq<Rule>, acc: map<string, Json>): map<string, Json>
    decreases |rules|
  {
    if rules == [] then acc
    else
      match ApplyRule(j, rules[0])
      case Abort => acc
      case Skip => BuildFrom(j, rules[1..], acc)
      case Set(v) => BuildFrom(j, rules[1..], acc[rules[0].key := v])
  }

  /** The attributes of MeshImportMessageSchema.__init__, in order. */
  const MeshImportRules: seq<Rule> := [
    Copy("assetName"), Copy("assetUuid"), NamesOf("supportedFormats", FileFormat),
    NameOf("colorFormat", ColorFormat), NameOf("colorEncoding", ColorEncoding),
    Copy("allowNegativeTransforms"), Copy("allowInstances"), Copy("flattenHierarchy"),
    NameOf("axisConvention", AxisConvention), NameOf("unit", Unit), NameOf("topology", ExportTopology),
    Copy("requestUv"), Copy("enableUdims")]

  /** The attributes MeshImportMessageSchema(json_object) ends with: none
      when the argument is not a dict (the first `.get` raises). */
  function MeshImportAttributes(j: Json): (r: map<string, Json>)
    ensures !j.JObj? ==> r == map[]
    ensures j.JObj? ==> "assetName" in r && r["assetName"] == Get(j, "assetName", JNull)
    ensures j.JObj? ==> "assetUuid" in r && r["assetUuid"] == Get(j, "assetUuid", JNull)
  {
    if j.JObj? then
      MeshImportRulesShape();
      StoredIff(j, MeshImportRules, map[], 0);
      StoredIff(j, MeshImportRules, map[], 1);
      BuildFrom(j, MeshImportRules, map[])
    else map[]
  }

  /** MESH_IMPORT_SCHEMA as written: colorEncoding's "enum" lists the
      members' values, 0 and 1. */
  function MeshImportSchemaWith(colorEncodingEnum: seq<Json>): ObjectSchema {
    ObjectSchema(map[
      "assetName" := StringOf(None),
      "assetUuid" := StringOf(None),
      "supportedFormats" := ArrayOf(StringOf(Some(Strings(Names(FileFormat))))),
      "colorFormat" := StringOf(Some(Strings(Names(ColorFormat)))),
      "colorEncoding" := StringOf(Some(colorEncodingEnum)),
      "allowNegativeTransforms" := BooleanProp,
      "allowInstances" := BooleanProp,
      "flattenHierarchy" := BooleanProp,
      "axisConvention" := StringOf(Some(Strings(Names(AxisConvention)))),
      "unit" := StringOf(Some(Strings(Names(Unit)))),
      "topology" := StringOf(Some(Strings(Names(ExportTopology)))),
      "requestUv" := BooleanProp,
      "enableUdims" := BooleanProp], ["assetName"])
  }

  const MeshImportSchema := MeshImportSchemaWith(Values(ColorEncoding))

  /** The schema with colorEncoding's "enum" listing the names, as every
      other enum property does. */
  const MeshImportSchemaCorrected := MeshImportSchemaWith(Strings(Names(ColorEncoding)))

  /** MeshImportMessageSchema.is_valid. */
  predicate MeshImportValid(o: SchemaObject) {
    Validate(ObjectJson(o), MeshImportSchema)
  }

  /** is_valid against the corrected schema. */
  predicate MeshImportValidCorrected(o: SchemaObject) {
    Validate(ObjectJson(o), MeshImportSchemaCorrected)
  }

  /** MeshImportMessageSchema.from_string, given what json.loads returns
      (None when it raises). */
  function MeshImportFromString(decoded: Option<Json>): (r: Result<SchemaObject, PyException>)
    ensures decoded.None? <==> r == Err(JsonDecodeError)
    ensures decoded.Some? ==> r.Ok? && r.value.cls == MeshImportClass
  {
    if decoded.None? then Err(JsonDecodeError)
    else Ok(SchemaObject(MeshImportClass, MeshImportAttributes(decoded.value)))
  }

  /** MeshConfigRequestSchema.__init__: assetName (None when missing) and
      assetUuid ("" when missing); outside any `try`, so an argument that is
      not a dict raises AttributeError. */
  function NewMeshConfigRequest(jsonObject: Json): (r: Result<SchemaObject, PyException>)
    ensures !jsonObject.JObj? <==> r == Err(AttributeError)
    ensures r.Ok? ==> r.value.cls == MeshConfigRequestClass && r.value.attributes.Keys == {"assetName", "assetUuid"}
    ensures r.Ok? ==>
      r.value.attributes["assetName"] == Get(jsonObject, "assetName", JNull)
      && r.value.attributes["assetUuid"] == Get(jsonObject, "assetUuid", JStr(""))
  {
    if !jsonObject.JObj? then Err(AttributeError)
    else Ok(SchemaObject(MeshConfigRequestClass,
      map["assetName" := Get(jsonObject, "assetName", JNull),
          "assetUuid" := Get(jsonObject, "assetUuid", JStr(""))]))
  }

  /** MESH_CONFIG_REQUEST_SCHEMA. */
  const MeshConfigRequestSchema := ObjectSchema(map["assetName" := StringOf(None), "assetUuid" := StringOf(None)], ["assetName"])

  /** MeshConfigRequestSchema.from_string as written: it builds a
      MeshImportMessageSchema, so it never gives its own class. */
  function MeshConfigFromString(decoded: Option<Json>): (r: Result<SchemaObject, PyException>)
    ensures decoded.None? <==> r == Err(JsonDecodeError)
    ensures decoded.Some? ==> r.Ok? && r.value.cls == MeshImportClass
    ensures r.Ok? ==> r.value.cls != MeshConfigRequestClass
  {
    MeshImportFromString(decoded)
  }

  /** MeshConfigRequestSchema.from_string building its own class. */
  function MeshConfigFromStringCorrected(decoded: Option<Json>): (r: Result<SchemaObject, PyException>)
    ensures r.Err? ==> r == Err(JsonDecodeError) || r == Err(AttributeError)
    ensures r.Ok? ==> r.value.cls == MeshConfigRequestClass
  {
    if decoded.None? then Err(JsonDecodeError) else NewMeshConfigRequest(decoded.value)
  }

  /** The attributes the asset schemas' constructors set: path (None when
      missing), name ("" when missing), uuid from the "id" member, replaced
      by a fresh uuid4 string when that is missing or "", the type with its
      class's default, and take_file_ownership (False when missing). */
  function AssetAttributes(j: Json, defaultType: string, freshUuid: string): map<string, Json> {
    var id := Get(j, "id", JStr(""));
    map["path" := Get(j, "path", JNull),
        "name" := Get(j, "name", JStr("")),
        "uuid" := if id == JStr("") then JStr(freshUuid) else id,
        "type" := Get(j, "type", JStr(defaultType)),
        "take_file_ownership" := Get(j, "take_file_ownership", JBool(false))]
  }

  /** The members the asset constructors copy under their own names when
      present. */
  const AssetCopiedKeys: set<string> := {"path", "name", "type", "take_file_ownership"}

  /** SEND_ASSET_SCHEMA. */
  const AssetSchema := ObjectSchema(map[
    "path" := StringOf(None), "name" := StringOf(None), "uuid" := StringOf(None),
    "type" := StringOf(None), "take_file_ownership" := BooleanProp], ["path", "type", "uuid"])

  /** SendAssetMessageSchema's type default. */
  const SendAssetDefaultType := "mesh"

  /** The constructor of an asset schema class (SendAssetMessageSchema
      here, SBSARImportMessageSchema in sbsarimport.py); `freshUuid` is
      `str(uuid.uuid4())`. Outside any `try`: an argument that is not a dict
      raises. */
  function NewAssetMessage(jsonObject: Json, cls: SchemaClass, defaultType: string, freshUuid: string)
    : (r: Result<SchemaObject, PyException>)
    ensures !jsonObject.JObj? <==> r == Err(AttributeError)
    ensures r.Ok? ==>
      r.value.cls == cls
      && r.value.attributes.Keys == {"path", "name", "uuid", "type", "take_file_ownership"}
    ensures r.Ok? && freshUuid != "" ==> r.value.attributes["uuid"] != JStr("")
    ensures r.Ok? && !HasKey(jsonObject, "type") ==> r.value.attributes["type"] == JStr(defaultType)
    ensures r.Ok? && !HasKey(jsonObject, "name") ==> r.value.attributes["name"] == JStr("")
    ensures r.Ok? && !HasKey(jsonObject, "take_file_ownership") ==> r.value.attributes["take_file_ownership"] == JBool(false)
    ensures r.Ok? && !HasKey(jsonObject, "path") ==> r.value.attributes["path"] == JNull
    ensures r.Ok? && (!HasKey(jsonObject, "id") || jsonObject.fields["id"] == JStr("")) ==>
      r.value.attributes["uuid"] == JStr(freshUuid)
    ensures r.Ok? && HasKey(jsonObject, "id") && jsonObject.fields["id"] != JStr("") ==>
      r.value.attributes["uuid"] == jsonObject.fields["id"]
    ensures r.Ok? ==> forall key :: key in AssetCopiedKeys && HasKey(jsonObject, key) ==>
      r.value.attributes[key] == jsonObject.fields[key]
  {
    if !jsonObject.JObj? then Err(AttributeError)
    else Ok(SchemaObject(cls, AssetAttributes(jsonObject, defaultType, freshUuid)))
  }

  /** The asset classes' from_string as written: after json.loads and four
      `.get` calls it passes four arguments to the one-argument
      constructor, so it always raises. */
  function AssetFromString(decoded: Option<Json>): (r: Result<SchemaObject, PyException>)
    ensures r.Err?
  {
    if decoded.None? then Err(JsonDecodeError)
    else if !decoded.value.JObj? then Err(AttributeError)
    else Err(TypeError)
  }

  /** from_string passing the decoded dict to the constructor. */
  function AssetFromStringCorrected(decoded: Option<Json>, cls: SchemaClass, defaultType: string, freshUuid: string)
    : Result<SchemaObject, PyException>
  {
    if decoded.None? then Err(JsonDecodeError) else NewAssetMessage(decoded.value, cls, defaultType, freshUuid)
  }

  // ---------------------------------------------------------------------
  // The `try` block as a fold over the rule table.

  predicate DistinctKeys(rules: seq<Rule>) {
    forall a, b :: 0 <= a < b < |rules| ==> rules[a].key != rules[b].key
  }

  /** No key of the rules is already set. */
  predicate FreshKeys(rules: seq<Rule>, acc: map<string, Json>) {
    forall i :: 0 <= i < |rules| ==> rules[i].key !in acc
  }

  /** Every list-valued assignment is directly followed by an enum
      lookup. */
  predicate NamesOfFollowed(rules: seq<Rule>) {
    forall i :: 0 <= i < |rules| && rules[i].NamesOf? ==> i + 1 < |rules| && rules[i + 1].NameOf?
  }

  lemma MeshImportRulesShape()
    ensures DistinctKeys(MeshImportRules) && NamesOfFollowed(MeshImportRules)
  {
  }

  /** A key no rule names keeps its state through the build. */
  lemma {:induction false} KeyUntouched(j: Json, rules: seq<Rule>, acc: map<string, Json>, key: string)
    requires forall i :: 0 <= i < |rules| ==> rules[i].key != key
    ensures key in BuildFrom(j, rules, acc) <==> key in acc
    ensures key in acc ==> BuildFrom(j, rules, acc)[key] == acc[key]
    decreases |rules|
  {
    if rules != [] {
      forall i | 0 <= i < |rules[1..]|
        ensures rules[1..][i].key != key
      {
        assert rules[1..][i] == rules[i + 1];
      }
      match ApplyRule(j, rules[0])
      case Abort =>
      case Skip => KeyUntouched(j, rules[1..], acc, key);
      case Set(v) => KeyUntouched(j, rules[1..], acc[rules[0].key := v], key);
    }
  }

  /** The `try` semantics: an attribute is set exactly when its own
      assignment stores a value and no earlier assignment raised, and then
      it holds that value. */
  lemma {:induction false} StoredIff(j: Json, rules: seq<Rule>, acc: map<string, Json>, i: nat)
    requires DistinctKeys(rules) && FreshKeys(rules, acc) && i < |rules|
    ensures rules[i].key in BuildFrom(j, rules, acc) <==>
      ApplyRule(j, rules[i]).Set? && forall m :: 0 <= m < i ==> !ApplyRule(j, rules[m]).Abort?
    ensures rules[i].key in BuildFrom(j, rules, acc) ==>
      BuildFrom(j, rules, acc)[rules[i].key] == ApplyRule(j, rules[i]).value
    decreases |rules|
  {
    var rest := rules[1..];
    assert forall m :: 0 <= m < |rest| ==> rest[m] == rules[m + 1];
    if i == 0 {
      match ApplyRule(j, rules[0])
      case Abort =>
      case Skip => KeyUntouched(j, rest, acc, rules[0].key);
      case Set(v) => KeyUntouched(j, rest, acc[rules[0].key := v], rules[0].key);
    } else {
      match ApplyRule(j, rules[0])
      case Abort =>
      case Skip => StoredIff(j, rest, acc, i - 1);
      case Set(v) => StoredIff(j, rest, acc[rules[0].key := v], i - 1);
    }
  }

  /** A value an assignment stored is stored again when the assignment
      reads it back. */
  lemma StepIdempotent(j: Json, j': Json, r: Rule)
    requires ApplyRule(j, r).Set? && HasKey(j', r.key) && j'.fields[r.key] == ApplyRule(j, r).value
    ensures ApplyRule(j', r) == ApplyRule(j, r)
  {
  }

  /** Reading back what a build stored rebuilds it. */
  lemma {:induction false} Replay(j: Json, rules: seq<Rule>, acc: map<string, Json>)
    requires DistinctKeys(rules) && FreshKeys(rules, acc) && NamesOfFollowed(rules)
    ensures BuildFrom(JObj(BuildFrom(j, rules, acc)), rules, acc) == BuildFrom(j, rules, acc)
    decreases |rules|
  {
    if rules != [] {
      var r := rules[0];
      var rest := rules[1..];
      assert forall m :: 0 <= m < |rest| ==> rest[m] == rules[m + 1];
      assert forall m :: 0 <= m < |rest| ==> rest[m].key != r.key;
      var f := BuildFrom(j, rules, acc);
      match ApplyRule(j, r)
      case Abort =>
        assert f == acc;
        if r.NamesOf? {
          assert ApplyRule(JObj(f), r) == Skip;
          assert ApplyRule(JObj(f), rest[0]) == Abort;
        }
      case Skip =>
        KeyUntouched(j, rest, acc, r.key);
        Replay(j, rest, acc);
      case Set(v) =>
        KeyUntouched(j, rest, acc[r.key := v], r.key);
        StepIdempotent(j, JObj(f), r);
        Replay(j, rest, acc[r.key := v]);
    }
  }

  // ---------------------------------------------------------------------
  // Properties of MeshImportMessageSchema.

  /** to_json and from_string round-trip: the JSON of an object made from a
      dict makes the same object again. */
  lemma MeshImportRoundTrip(j: Json)
    requires j.JObj?
    ensures var o := SchemaObject(MeshImportClass, MeshImportAttributes(j));
      MeshImportFromString(Some(ObjectJson(o))) == Ok(o)
  {
    MeshImportRulesShape();
    Replay(j, MeshImportRules, map[]);
  }

  /** An enum attribute is set only when its lookup succeeded, to a name of
      its enum (a list of names for supportedFormats), so it satisfies its
      property in the corrected schema. */
  lemma NameConforms(v: Json, e: PyEnum)
    requires EnumName(v, e).Some?
    ensures Satisfies(EnumName(v, e).value, StringOf(Some(Strings(Names(e)))))
    ensures EnumName(v, e).value.JStr?
  {
    var i :| 0 <= i < |Names(e)| && Names(e)[i] == v.s;
    assert Strings(Names(e))[i] == v;
  }

  lemma NamesConform(v: Json, e: PyEnum)
    requires EnumNames(v, e).Some?
    ensures Satisfies(EnumNames(v, e).value, ArrayOf(StringOf(Some(Strings(Names(e))))))
  {
    var w := EnumNames(v, e).value;
    forall i | 0 <= i < |w.items|
      ensures Satisfies(w.items[i], StringOf(Some(Strings(Names(e)))))
    {
      NameConforms(w.items[i], e);
    }
  }

  /** The property the corrected schema gives an enum attribute: a member
      name, or a list of member names. */
  function EnumProperty(r: Rule): PropSchema {
    match r
    case NamesOf(_, e) => ArrayOf(StringOf(Some(Strings(Names(e)))))
    case NameOf(_, e) => StringOf(Some(Strings(Names(e))))
    case Copy(_) => StringOf(None)
  }

  /** What an attribute the constructor set holds: a plain copy of the
      request's member, or an enum value of its property's form. */
  lemma StoredRuleValue(j: Json, i: nat)
    requires j.JObj? && i < |MeshImportRules| && MeshImportRules[i].key in MeshImportAttributes(j)
    ensures var r := MeshImportRules[i];
      r.Copy? ==> MeshImportAttributes(j)[r.key] == Get(j, r.key, JNull)
    ensures var r := MeshImportRules[i];
      !r.Copy? ==> Satisfies(MeshImportAttributes(j)[r.key], EnumProperty(r))
  {
    var r := MeshImportRules[i];
    MeshImportRulesShape();
    StoredIff(j, MeshImportRules, map[], i);
    if r.NameOf? {
      NameConforms(Get(j, r.key, JNull), r.e);
    } else if r.NamesOf? {
      NamesConform(Get(j, r.key, JNull), r.e);
    }
  }

  /** A request whose plain members are all present with their types. */
  predicate WellTyped(j: Json) {
    j.JObj?
    && HasKey(j, "assetName") && j.fields["assetName"].JStr?
    && HasKey(j, "assetUuid") && j.fields["assetUuid"].JStr?
    && forall k :: k in BooleanKeys ==> HasKey(j, k) && j.fields[k].JBool?
  }

  const BooleanKeys: seq<string> := ["allowNegativeTransforms", "allowInstances", "flattenHierarchy", "requestUv", "enableUdims"]

  /** Where each property of the schema is assigned. */
  function RuleIndex(k: string): (i: nat)
    requires k in MeshImportSchemaCorrected.properties
    ensures i < |MeshImportRules| && MeshImportRules[i].key == k
  {
    if k == "assetName" then 0 else if k == "assetUuid" then 1 else if k == "supportedFormats" then 2
    else if k == "colorFormat" then 3 else if k == "colorEncoding" then 4
    else if k == "allowNegativeTransforms" then 5 else if k == "allowInstances" then 6
    else if k == "flattenHierarchy" then 7 else if k == "axisConvention" then 8
    else if k == "unit" then 9 else if k == "topology" then 10 else if k == "requestUv" then 11 else 12
  }

  /** The property the schema gives a plainly copied attribute. */
  function CopyProperty(k: string): PropSchema {
    if k in ["assetName", "assetUuid"] then StringOf(None) else BooleanProp
  }

  /** The corrected schema describes every attribute the constructor
      assigns, with the form that assignment gives it. */
  lemma CorrectedSchemaFollowsRules(i: nat)
    requires i < |MeshImportRules|
    ensures var r := MeshImportRules[i];
      r.key in MeshImportSchemaCorrected.properties
      && MeshImportSchemaCorrected.properties[r.key] == (if r.Copy? then CopyProperty(r.key) else EnumProperty(r))
      && (r.Copy? ==> r.key in ["assetName", "assetUuid"] || r.key in BooleanKeys)
  {
    assert i in {0, 1, 2, 3, 4, 5, 6, 7, 8, 9, 10, 11, 12};
  }

  /** Corrected, every object built from a well-typed request is valid,
      however far its assignments got: each enum attribute it holds is a
      member name. */
  lemma WellTypedValidCorrected(j: Json)
    requires WellTyped(j)
    ensures MeshImportValidCorrected(SchemaObject(MeshImportClass, MeshImportAttributes(j)))
  {
    var a := MeshImportAttributes(j);
    var props := MeshImportSchemaCorrected.properties;
    forall k | k in props && k in a
      ensures Satisfies(a[k], props[k])
    {
      var i := RuleIndex(k);
      StoredRuleValue(j, i);
      CorrectedSchemaFollowsRules(i);
    }
  }

  /** As written, an object whose colorEncoding was set is never valid: the
      constructor stores a member name and the schema allows only the
      values 0 and 1. */
  lemma ColorEncodingNeverValid(j: Json)
    requires "colorEncoding" in MeshImportAttributes(j)
    ensures !MeshImportValid(SchemaObject(MeshImportClass, MeshImportAttributes(j)))
  {
    MeshImportRulesShape();
    StoredIff(j, MeshImportRules, map[], 4);
    NameConforms(Get(j, "colorEncoding", JNull), ColorEncoding);
    var a := MeshImportAttributes(j);
    assert !Satisfies(a["colorEncoding"], MeshImportSchema.properties["colorEncoding"]);
  }

  /** A complete request, with every member a caller sends. */
  const CompleteRequest: Json := JObj(map[
    "assetName" := JStr("chair"), "assetUuid" := JStr("c0ffee"),
    "supportedFormats" := JArr([JStr("fbx"), JStr("obj")]),
    "colorFormat" := JStr("Vertex"), "colorEncoding" := JStr("SRGB"),
    "allowNegativeTransforms" := JBool(false), "allowInstances" := JBool(true),
    "flattenHierarchy" := JBool(false), "axisConvention" := JStr("ForceYUp_XRight_mZForward"),
    "unit" := JStr("Centimeters"), "topology" := JStr("Triangles"),
    "requestUv" := JBool(true), "enableUdims" := JBool(false)])

  /** The complete request is invalid as written and valid with the
      corrected schema. */
  lemma CompleteRequestRejected()
    ensures var o := SchemaObject(MeshImportClass, MeshImportAttributes(CompleteRequest));
      !MeshImportValid(o) && MeshImportValidCorrected(o)
  {
    CompleteRequestSetsColorEncoding();
    ColorEncodingNeverValid(CompleteRequest);
    CompleteRequestWellTyped();
    WellTypedValidCorrected(CompleteRequest);
  }

  lemma CompleteRequestWellTyped()
    ensures WellTyped(CompleteRequest)
  {
    var f := CompleteRequest.fields;
    assert f["allowNegativeTransforms"].JBool? && f["allowInstances"].JBool? && f["flattenHierarchy"].JBool?;
    assert f["requestUv"].JBool? && f["enableUdims"].JBool?;
  }

  /** The complete request gets as far as colorEncoding. */
  lemma CompleteRequestSetsColorEncoding()
    ensures "colorEncoding" in MeshImportAttributes(CompleteRequest)
  {
    CompleteRequestFormats();
    CompleteRequestColors();
    MeshImportRulesShape();
    StoredIff(CompleteRequest, MeshImportRules, map[], 4);
  }

  lemma CompleteRequestFormats()
    ensures ApplyRule(CompleteRequest, MeshImportRules[2]).Set?
  {
    assert Get(CompleteRequest, "supportedFormats", JNull) == JArr([JStr("fbx"), JStr("obj")]);
    assert "fbx" == Names(FileFormat)[0] && "obj" == Names(FileFormat)[5];
  }

  lemma CompleteRequestColors()
    ensures ApplyRule(CompleteRequest, MeshImportRules[3]).Set?
    ensures ApplyRule(CompleteRequest, MeshImportRules[4]).Set?
  {
    assert Get(CompleteRequest, "colorFormat", JNull) == JStr("Vertex");
    assert "Vertex" == Names(ColorFormat)[1];
    assert Get(CompleteRequest, "colorEncoding", JNull) == JStr("SRGB");
    assert "SRGB" == Names(ColorEncoding)[1];
  }

  /** A missing assetName or assetUuid is stored as None, which fails its
      string property: neither schema accepts such an object. */
  lemma MissingNameInvalid(j: Json)
    requires j.JObj? && ("assetName" !in j.fields || "assetUuid" !in j.fields)
    ensures var o := SchemaObject(MeshImportClass, MeshImportAttributes(j));
      !MeshImportValid(o) && !MeshImportValidCorrected(o)
  {
    var a := MeshImportAttributes(j);
    var key := if "assetName" !in j.fields then "assetName" else "assetUuid";
    NullFails(a, MeshImportSchema, key);
    NullFails(a, MeshImportSchemaCorrected, key);
  }

  // ---------------------------------------------------------------------
  // Properties of MeshConfigRequestSchema and SendAssetMessageSchema.

  /** As written, reading back a config request gives a mesh-import
      object: not the class that was written. */
  lemma MeshConfigFromStringWrongClass(j: Json)
    requires NewMeshConfigRequest(j).Ok?
    ensures var o := NewMeshConfigRequest(j).value;
      MeshConfigFromString(Some(ObjectJson(o))).Ok?
      && MeshConfigFromString(Some(ObjectJson(o))).value.cls != o.cls
  {
  }

  /** Corrected, reading back a config request gives the same object. */
  lemma MeshConfigRoundTrip(j: Json)
    requires NewMeshConfigRequest(j).Ok?
    ensures var o := NewMeshConfigRequest(j).value;
      MeshConfigFromStringCorrected(Some(ObjectJson(o))) == Ok(o)
  {
    var o := NewMeshConfigRequest(j).value;
    assert NewMeshConfigRequest(ObjectJson(o)).value.attributes == o.attributes;
  }

  /** A config request is valid exactly when its assetName is a string and
      its assetUuid, if sent, is a string too. */
  lemma MeshConfigValidIff(j: Json)
    requires NewMeshConfigRequest(j).Ok?
    ensures Validate(ObjectJson(NewMeshConfigRequest(j).value), MeshConfigRequestSchema) <==>
      Get(j, "assetName", JNull).JStr? && Get(j, "assetUuid", JStr("")).JStr?
  {
    var a := NewMeshConfigRequest(j).value.attributes;
    if Validate(JObj(a), MeshConfigRequestSchema) {
      assert Satisfies(a["assetName"], StringOf(None));
      assert Satisfies(a["assetUuid"], StringOf(None));
    }
  }

  /** An asset schema object is valid exactly when its path, name, uuid
      and type are strings and take_file_ownership is a boolean; so a
      missing path (None) always fails. */
  lemma AssetValidIff(j: Json, defaultType: string, freshUuid: string)
    ensures var a := AssetAttributes(j, defaultType, freshUuid);
      Validate(JObj(a), AssetSchema) <==>
        a["path"].JStr? && a["name"].JStr? && a["uuid"].JStr? && a["type"].JStr? && a["take_file_ownership"].JBool?
    ensures !HasKey(j, "path") ==> !Validate(JObj(AssetAttributes(j, defaultType, freshUuid)), AssetSchema)
  {
    var a := AssetAttributes(j, defaultType, freshUuid);
    if Validate(JObj(a), AssetSchema) {
      assert Satisfies(a["path"], StringOf(None));
      assert Satisfies(a["name"], StringOf(None));
      assert Satisfies(a["uuid"], StringOf(None));
      assert Satisfies(a["type"], StringOf(None));
      assert Satisfies(a["take_file_ownership"], BooleanProp);
    }
  }

  /** As written, from_string never returns an object, whatever the dict
      holds; corrected, it returns the object the constructor makes. */
  lemma AssetFromStringFails(j: Json, cls: SchemaClass, defaultType: string, freshUuid: string)
    requires j.JObj?
    ensures AssetFromString(Some(j)) == Err(TypeError)
    ensures AssetFromStringCorrected(Some(j), cls, defaultType, freshUuid) == NewAssetMessage(j, cls, defaultType, freshUuid)
    ensures AssetFromStringCorrected(Some(j), cls, defaultType, freshUuid).Ok?
  {
  }

  /** Corrected, reading back an asset object keeps its class, path, name,
      type and ownership flag; the uuid, written as "uuid" but read from
      "id", is replaced by a fresh one. */
  lemma AssetReadBack(j: Json, cls: SchemaClass, defaultType: string, freshUuid: string, freshUuid': string)
    requires j.JObj?
    ensures var o := NewAssetMessage(j, cls, defaultType, freshUuid).value;
      var o' := AssetFromStringCorrected(Some(ObjectJson(o)), cls, defaultType, freshUuid').value;
      && o'.cls == o.cls
      && (forall key :: key in o.attributes && key != "uuid" ==> o'.attributes[key] == o.attributes[key])
      && o'.attributes["uuid"] == JStr(freshUuid')
  {
  }
}
