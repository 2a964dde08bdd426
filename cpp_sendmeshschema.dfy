/** module-cpp/src/framework/schemas/sendmeshschema.cpp: mesh_export_schema,
    the C++ form of the mesh import request (an asset name and twelve
    optional settings, five of them enumerations written by name), and
    send_mesh_config_request_schema, the request that precedes it. */
module CppSendMeshSchema {
  import opened Common
  import opened PyJson
  import opened CppJson

  // ---------------------------------------------------------------------
  // The enumerator names

  /** ColorEncodingStrings, in enumerator order. */
  const ColorEncodingStrings: seq<string> := ["Linear", "SRGB"]
  /** ColorFormatStrings: the first enumerator is written "None". */
  const ColorFormatStrings: seq<string> := ["None", "Vertex", "Texture"]
  /** FileFormatStrings, fbx = 0 to usdc = 12. */
  const FileFormatStrings: seq<string> :=
    ["fbx", "glb", "gltf", "igs", "jt", "obj", "step", "stl", "stp", "usd", "usda", "usdz", "usdc"]
  const AxisConventionStrings: seq<string> := ["ForceYUp_XRight_mZForward", "ForceZUp_XRight_YForward"]
  const UnitStrings: seq<string> :=
    ["Millimeters", "Centimeters", "Meters", "Kilometers", "Inches", "Feet", "Yards", "Miles"]
  const ExportTopologyStrings: seq<string> := ["Triangles", "Quads"]

  /** `Strings[e]` on a non-const std::map: the name of an enumerator, or
      the empty string the map inserts for a value it does not hold. An
      enumerator is held by its underlying value. */
  function Name(table: seq<string>, e: nat): (r: string)
    ensures e < |table| ==> r == table[e]
    ensures e >= |table| ==> r == ""
  {
    if e < |table| then table[e] else ""
  }

  /** getKeyFromValue: the first enumerator, in key order, whose name is
      `value`; with none, the code dereferences end(). */
  function FindKey(table: seq<string>, value: string): (r: Result<nat, Fault>)
    ensures r.Ok? ==> r.value < |table| && table[r.value] == value
    ensures r.Ok? ==> forall j :: 0 <= j < r.value ==> table[j] != value
    ensures r.Err? <==> value !in table
    ensures r.Err? ==> r.error == Undefined
    decreases |table|
  {
    if table == [] then Err(Undefined)
    else if table[0] == value then Ok(0)
    else
      match FindKey(table[1..], value)
      case Err(e) => Err(e)
      case Ok(i) => Ok(i + 1)
  }

  predicate Distinct(table: seq<string>) {
    forall i, j :: 0 <= i < j < |table| ==> table[i] != table[j]
  }

  /** With distinct names, looking up an enumerator's name gives the
      enumerator back. */
  lemma FindKeyOfName(table: seq<string>, e: nat)
    requires Distinct(table) && e < |table|
    ensures FindKey(table, table[e]) == Ok(e)
  {
    var r := FindKey(table, table[e]);
    assert table[e] in table;
    assert table[r.value] == table[e];
  }

  /** Each table's names are distinct, so reading an enumerator's name
      gives the enumerator back. */
  lemma FileFormatsDistinct()
    ensures Distinct(FileFormatStrings)
  {
  }

  lemma FileFormatNameRead(e: nat)
    requires e < |FileFormatStrings|
    ensures FindKey(FileFormatStrings, FileFormatStrings[e]) == Ok(e)
  {
    FileFormatsDistinct();
    FindKeyOfName(FileFormatStrings, e);
  }

  lemma ColorFormatsDistinct()
    ensures Distinct(ColorFormatStrings)
  {
  }

  lemma ColorFormatNameRead(e: nat)
    requires e < |ColorFormatStrings|
    ensures FindKey(ColorFormatStrings, ColorFormatStrings[e]) == Ok(e)
  {
    ColorFormatsDistinct();
    FindKeyOfName(ColorFormatStrings, e);
  }

  lemma ColorEncodingsDistinct()
    ensures Distinct(ColorEncodingStrings)
  {
  }

  lemma ColorEncodingNameRead(e: nat)
    requires e < |ColorEncodingStrings|
    ensures FindKey(ColorEncodingStrings, ColorEncodingStrings[e]) == Ok(e)
  {
    ColorEncodingsDistinct();
    FindKeyOfName(ColorEncodingStrings, e);
  }

  lemma AxisConventionsDistinct()
    ensures Distinct(AxisConventionStrings)
  {
  }

  lemma AxisConventionNameRead(e: nat)
    requires e < |AxisConventionStrings|
    ensures FindKey(AxisConventionStrings, AxisConventionStrings[e]) == Ok(e)
  {
    AxisConventionsDistinct();
    FindKeyOfName(AxisConventionStrings, e);
  }

  lemma UnitsDistinct()
    ensures Distinct(UnitStrings)
  {
  }

  lemma UnitNameRead(e: nat)
    requires e < |UnitStrings|
    ensures FindKey(UnitStrings, UnitStrings[e]) == Ok(e)
  {
    UnitsDistinct();
    FindKeyOfName(UnitStrings, e);
  }

  lemma TopologysDistinct()
    ensures Distinct(ExportTopologyStrings)
  {
  }

  lemma TopologyNameRead(e: nat)
    requires e < |ExportTopologyStrings|
    ensures FindKey(ExportTopologyStrings, ExportTopologyStrings[e]) == Ok(e)
  {
    TopologysDistinct();
    FindKeyOfName(ExportTopologyStrings, e);
  }

  /** No file format has the empty name. */
  lemma FileFormatNameNonEmpty(e: nat)
    requires e < |FileFormatStrings|
    ensures |FileFormatStrings[e]| > 0
  {
  }

  // ---------------------------------------------------------------------
  // The schema

  datatype MeshExportSchema = MeshExportSchema(
    assetName: string,
    assetUuid: Option<string>,
    supportedFormats: Option<seq<nat>>,
    colorFormat: Option<nat>,
    colorEncoding: Option<nat>,
    allowNegativeTransforms: Option<bool>,
    allowInstances: Option<bool>,
    flattenHierarchy: Option<bool>,
    axisConvention: Option<nat>,
    unit: Option<nat>,
    topology: Option<nat>,
    requestUv: Option<bool>,
    enableUdims: Option<bool>)

  /** A default-constructed schema: no name, every option empty. */
  const EmptySchema := MeshExportSchema("", None, None, None, None, None, None, None, None, None, None, None, None)

  /** Every enumeration member holds one of its enumerators. */
  predicate Enumerated(s: MeshExportSchema) {
    && (s.supportedFormats.Some? ==> forall i :: 0 <= i < |s.supportedFormats.value| ==> s.supportedFormats.value[i] < |FileFormatStrings|)
    && (s.colorFormat.Some? ==> s.colorFormat.value < |ColorFormatStrings|)
    && (s.colorEncoding.Some? ==> s.colorEncoding.value < |ColorEncodingStrings|)
    && (s.axisConvention.Some? ==> s.axisConvention.value < |AxisConventionStrings|)
    && (s.unit.Some? ==> s.unit.value < |UnitStrings|)
    && (s.topology.Some? ==> s.topology.value < |ExportTopologyStrings|)
  }

  /** The optional members, each under its JSON key. */
  datatype Field = AssetUuid | SupportedFormats | ColorFormat | ColorEncoding | AllowNegativeTransforms
    | AllowInstances | FlattenHierarchy | AxisConvention | Unit | Topology | EnableUdims | RequestUv

  function KeyOf(f: Field): string {
    match f
    case AssetUuid => "assetUuid"
    case SupportedFormats => "supportedFormats"
    case ColorFormat => "colorFormat"
    case ColorEncoding => "colorEncoding"
    case AllowNegativeTransforms => "allowNegativeTransforms"
    case AllowInstances => "allowInstances"
    case FlattenHierarchy => "flattenHierarchy"
    case AxisConvention => "axisConvention"
    case Unit => "unit"
    case Topology => "topology"
    case EnableUdims => "enableUdims"
    case RequestUv => "requestUv"
  }

  /** The member a key names, if any. */
  function FieldOfKey(k: string): Option<Field> {
    if k == "assetUuid" then Some(AssetUuid)
    else if k == "supportedFormats" then Some(SupportedFormats)
    else if k == "colorFormat" then Some(ColorFormat)
    else if k == "colorEncoding" then Some(ColorEncoding)
    else if k == "allowNegativeTransforms" then Some(AllowNegativeTransforms)
    else if k == "allowInstances" then Some(AllowInstances)
    else if k == "flattenHierarchy" then Some(FlattenHierarchy)
    else if k == "axisConvention" then Some(AxisConvention)
    else if k == "unit" then Some(Unit)
    else if k == "topology" then Some(Topology)
    else if k == "enableUdims" then Some(EnableUdims)
    else if k == "requestUv" then Some(RequestUv)
    else None
  }

  /** FieldOfKey undoes KeyOf, so no two members share a key, and none
      uses "assetName". */
  lemma KeyOfInverse(f: Field)
    ensures FieldOfKey(KeyOf(f)) == Some(f)
  {
  }

  lemma KeyNotName(f: Field)
    ensures KeyOf(f) != "assetName"
  {
  }

  lemma KeysDistinct(f: Field, g: Field)
    ensures KeyOf(f) == KeyOf(g) ==> f == g
  {
    KeyOfInverse(f);
    KeyOfInverse(g);
  }

  // ---------------------------------------------------------------------
  // Serialize

  /** The names Serialize's loop appends for a list of enumerators. */
  function Names(table: seq<string>, es: seq<nat>): (r: seq<Json>)
    ensures |r| == |es| && forall i :: 0 <= i < |es| ==> r[i] == JStr(Name(table, es[i]))
  {
    seq(|es|, i requires 0 <= i < |es| => JStr(Name(table, es[i])))
  }

  /** What Serialize writes for a member, if anything: nothing for an empty
      option, and nothing for an empty format list, which the loop never
      appends to. */
  function FieldJson(s: MeshExportSchema, f: Field): Option<Json> {
    match f
    case AssetUuid => if s.assetUuid.Some? then Some(JStr(s.assetUuid.value)) else None
    case SupportedFormats =>
      if s.supportedFormats.Some? && |s.supportedFormats.value| > 0
      then Some(JArr(Names(FileFormatStrings, s.supportedFormats.value))) else None
    case ColorFormat => if s.colorFormat.Some? then Some(JStr(Name(ColorFormatStrings, s.colorFormat.value))) else None
    case ColorEncoding => if s.colorEncoding.Some? then Some(JStr(Name(ColorEncodingStrings, s.colorEncoding.value))) else None
    case AllowNegativeTransforms => if s.allowNegativeTransforms.Some? then Some(JBool(s.allowNegativeTransforms.value)) else None
    case AllowInstances => if s.allowInstances.Some? then Some(JBool(s.allowInstances.value)) else None
    case FlattenHierarchy => if s.flattenHierarchy.Some? then Some(JBool(s.flattenHierarchy.value)) else None
    case AxisConvention => if s.axisConvention.Some? then Some(JStr(Name(AxisConventionStrings, s.axisConvention.value))) else None
    case Unit => if s.unit.Some? then Some(JStr(Name(UnitStrings, s.unit.value))) else None
    case Topology => if s.topology.Some? then Some(JStr(Name(ExportTopologyStrings, s.topology.value))) else None
    case EnableUdims => if s.enableUdims.Some? then Some(JBool(s.enableUdims.value)) else None
    case RequestUv => if s.requestUv.Some? then Some(JBool(s.requestUv.value)) else None
  }

  /** The member's key set to its value when Serialize writes one. */
  function Write(m: map<string, Json>, s: MeshExportSchema, f: Field): map<string, Json> {
    var v := FieldJson(s, f);
    if v.Some? then m[KeyOf(f) := v.value] else m
  }

  /** A key's value in an object, if it has one. */
  function Lookup(m: map<string, Json>, k: string): (r: Option<Json>)
    ensures r.Some? <==> k in m
    ensures r.Some? ==> r.value == m[k]
  {
    if k in m then Some(m[k]) else None
  }

  /** One write, seen from a member's key: only the member written
      changes it, and only when it writes something. */
  lemma WriteLookup(m: map<string, Json>, s: MeshExportSchema, g: Field, f: Field)
    ensures Lookup(Write(m, s, g), KeyOf(f))
      == if g == f then Pick(FieldJson(s, f), Lookup(m, KeyOf(f))) else Lookup(m, KeyOf(f))
  {
    KeysDistinct(f, g);
  }

  /** The order Serialize visits the members in. */
  const SerializeOrder: seq<Field> := [AssetUuid, SupportedFormats, ColorFormat, ColorEncoding, AllowNegativeTransforms,
    AllowInstances, FlattenHierarchy, AxisConvention, Unit, Topology, EnableUdims, RequestUv]

  /** The members from position i of SerializeOrder on, written in turn. */
  function WriteFrom(m: map<string, Json>, s: MeshExportSchema, i: nat): map<string, Json>
    decreases |SerializeOrder| - i
  {
    if i >= |SerializeOrder| then m else WriteFrom(Write(m, s, SerializeOrder[i]), s, i + 1)
  }

  /** The object Serialize fills, starting from an empty Json::Value: the
      name, then the members in order. */
  function Serialized(s: MeshExportSchema): map<string, Json> {
    WriteFrom(map["assetName" := JStr(s.assetName)], s, 0)
  }

  /** Where a member stands in SerializeOrder. */
  function Position(f: Field): nat {
    match f
    case AssetUuid => 0 case SupportedFormats => 1 case ColorFormat => 2 case ColorEncoding => 3
    case AllowNegativeTransforms => 4 case AllowInstances => 5 case FlattenHierarchy => 6
    case AxisConvention => 7 case Unit => 8 case Topology => 9 case EnableUdims => 10 case RequestUv => 11
  }

  /** SerializeOrder lists every member once. */
  lemma PositionOf(f: Field)
    ensures Position(f) < |SerializeOrder| && SerializeOrder[Position(f)] == f
  {
  }

  lemma PositionAt(i: nat)
    requires i < |SerializeOrder|
    ensures Position(SerializeOrder[i]) == i
  {
  }

  /** After writing the members from position i on, a member's key holds
      what it wrote if it stands at i or later and wrote something, and
      otherwise what it held before. */
  lemma {:induction false} WriteFromLookup(m: map<string, Json>, s: MeshExportSchema, i: nat, f: Field)
    ensures Lookup(WriteFrom(m, s, i), KeyOf(f))
      == if Position(f) >= i then Pick(FieldJson(s, f), Lookup(m, KeyOf(f))) else Lookup(m, KeyOf(f))
    decreases |SerializeOrder| - i
  {
    PositionOf(f);
    if i < |SerializeOrder| {
      var g := SerializeOrder[i];
      WriteLookup(m, s, g, f);
      PositionAt(i);
      WriteFromLookup(Write(m, s, g), s, i + 1, f);
    }
  }

  /** A key no member uses is left as it was. */
  lemma {:induction false} WriteFromOther(m: map<string, Json>, s: MeshExportSchema, i: nat, k: string)
    requires forall f: Field :: KeyOf(f) != k
    ensures var w := WriteFrom(m, s, i); (k in w <==> k in m) && (k in m ==> w[k] == m[k])
    decreases |SerializeOrder| - i
  {
    if i < |SerializeOrder| {
      WriteFromOther(Write(m, s, SerializeOrder[i]), s, i + 1, k);
    }
  }

  /** Serialize always writes assetName. */
  lemma SerializedName(s: MeshExportSchema)
    ensures "assetName" in Serialized(s) && Serialized(s)["assetName"] == JStr(s.assetName)
  {
    forall f: Field ensures KeyOf(f) != "assetName" {
      KeyNotName(f);
    }
    WriteFromOther(map["assetName" := JStr(s.assetName)], s, 0, "assetName");
  }

  /** Serialize writes each optional member exactly when it is present (a
      format list only when it is not empty), as FieldJson gives it. */
  lemma SerializedMembers(s: MeshExportSchema, f: Field)
    ensures KeyOf(f) in Serialized(s) <==> FieldJson(s, f).Some?
    ensures KeyOf(f) in Serialized(s) ==> Serialized(s)[KeyOf(f)] == FieldJson(s, f).value
  {
    KeyNotName(f);
    WriteFromLookup(map["assetName" := JStr(s.assetName)], s, 0, f);
    assert Lookup(Serialized(s), KeyOf(f)) == FieldJson(s, f);
  }

  /** The loop of Serialize: each format's name appended in list order. */
  method AppendNames(table: seq<string>, formats: seq<nat>) returns (items: seq<Json>)
    ensures items == Names(table, formats)
  {
    items := [];
    var i := 0;
    while i < |formats|
      invariant 0 <= i <= |formats| && |items| == i
      invariant forall k :: 0 <= k < i ==> items[k] == JStr(Name(table, formats[k]))
    {
      items := items + [JStr(Name(table, formats[i]))];
      i := i + 1;
    }
  }

  /** mesh_export_schema::Serialize into an empty Json::Value: each member
      in turn; the formats through the loop, which writes nothing for an
      empty list. */
  method Serialize(s: MeshExportSchema) returns (root: map<string, Json>)
    ensures root == Serialized(s)
  {
    root := map["assetName" := JStr(s.assetName)];
    assert WriteFrom(root, s, 0) == Serialized(s);
    root := Write(root, s, AssetUuid);
    assert WriteFrom(root, s, 1) == Serialized(s);
    ghost var before := root;
    if s.supportedFormats.Some? {
      var items := AppendNames(FileFormatStrings, s.supportedFormats.value);
      if |items| > 0 {
        root := root["supportedFormats" := JArr(items)];
      }
    }
    assert root == Write(before, s, SupportedFormats);
    assert WriteFrom(root, s, 2) == Serialized(s);
    root := Write(root, s, ColorFormat);
    assert WriteFrom(root, s, 3) == Serialized(s);
    root := Write(root, s, ColorEncoding);
    assert WriteFrom(root, s, 4) == Serialized(s);
    root := Write(root, s, AllowNegativeTransforms);
    assert WriteFrom(root, s, 5) == Serialized(s);
    root := Write(root, s, AllowInstances);
    assert WriteFrom(root, s, 6) == Serialized(s);
    root := Write(root, s, FlattenHierarchy);
    assert WriteFrom(root, s, 7) == Serialized(s);
    root := Write(root, s, AxisConvention);
    assert WriteFrom(root, s, 8) == Serialized(s);
    root := Write(root, s, Unit);
    assert WriteFrom(root, s, 9) == Serialized(s);
    root := Write(root, s, Topology);
    assert WriteFrom(root, s, 10) == Serialized(s);
    root := Write(root, s, EnableUdims);
    assert WriteFrom(root, s, 11) == Serialized(s);
    root := Write(root, s, RequestUv);
    assert WriteFrom(root, s, 12) == Serialized(s);
  }

  // ---------------------------------------------------------------------
  // Deserialize

  /** The format loop: each element through asString (which throws for a
      list or an object) and getKeyFromValue on `table`, emplaced in turn;
      the formats read before a failure stay in the member. */
  function ReadNames(table: seq<string>, items: seq<Json>): (r: (seq<nat>, Option<Fault>))
    ensures r.1.None? ==> |r.0| == |items|
    ensures forall i :: 0 <= i < |r.0| ==> r.0[i] < |table|
    ensures r.1.Some? ==> r.1.value in {LogicError, Undefined}
    decreases |items|
  {
    if items == [] then ([], None)
    else
      var front := ReadNames(table, items[..|items| - 1]);
      if front.1.Some? then front
      else
        match AsString(items[|items| - 1])
        case Err(e) => (front.0, Some(e))
        case Ok(text) =>
          match FindKey(table, text)
          case Err(e) => (front.0, Some(e))
          case Ok(k) => (front.0 + [k], None)
  }

  /** What the formats block does to the optional supportedFormats: leaves
      it as it was, resets it to nullopt, or assigns it a list. */
  datatype FormatsEffect = Kept | Reset | Assigned(formats: seq<nat>)

  /** The effect on supportedFormats and the fault that ended the block. */
  type FormatsRead = (FormatsEffect, Option<Fault>)

  /** The formats block as written. `*formats_array.begin()` is dereferenced
      before anything is checked: for an array it is the first element, for
      an object the value of its first member in key order, and for an empty
      array or object, or any other value, begin() is end() and the
      dereference is undefined. A first value whose text is empty skips the
      block. Otherwise `supportedFormats = {}` resets the optional to
      nullopt (the empty braces select the move assignment from an empty
      optional), and the loop, whose bound `end().index()` is read in the
      most favourable way as a number, makes its first pass. For an array
      that pass reads the first element, whose name ends in undefined
      behaviour when it is no file format and otherwise reaches
      `supportedFormats.value()`, which throws std::bad_optional_access; for
      an object the first `formats_array[index]` already throws, since an
      object cannot be indexed by a number. So no list is ever assigned,
      and the member is reset only on the way to a fault. */
  function ReadFormatsAsWritten(v: Json): (r: FormatsRead)
    ensures !r.0.Assigned?
    ensures r.1.None? ==> r.0 == Kept
    ensures !(v.JArr? && v.items != []) && !(v.JObj? && v.fields.Keys != {}) ==> r == (Kept, Some(Undefined))
    ensures r.1 == Some(BadOptionalAccess) ==> v.JArr? && r.0 == Reset
    ensures v.JArr? && v.items != [] && v.items[0].JStr? && v.items[0].s in FileFormatStrings ==>
      r == (Reset, Some(BadOptionalAccess))
  {
    if v.JArr? && v.items != [] then
      match AsString(v.items[0])
      case Err(e) => (Kept, Some(e))
      case Ok(first) =>
        if |first| == 0 then (Kept, None)
        else
          match FindKey(FileFormatStrings, first)
          case Err(e) => (Reset, Some(e))
          case Ok(_) => (Reset, Some(BadOptionalAccess))
    else if v.JObj? && v.fields.Keys != {} then
      match AsString(v.fields[FirstKey(v.fields.Keys)])
      case Err(e) => (Kept, Some(e))
      case Ok(first) => if |first| == 0 then (Kept, None) else (Reset, Some(LogicError))
    else (Kept, Some(Undefined))
  }

  /** The formats block as evidently intended: an empty array, or anything
      but an array, leaves the member alone; otherwise the member is given
      an empty list (`supportedFormats.emplace()`) and the loop visits each
      element once. */
  function ReadFormats(v: Json): (r: FormatsRead)
    ensures r.0 != Reset
    ensures r.0.Assigned? <==> v.JArr? && v.items != [] && AsString(v.items[0]).Ok? && |AsString(v.items[0]).value| > 0
    ensures r.0.Assigned? ==> forall i :: 0 <= i < |r.0.formats| ==> r.0.formats[i] < |FileFormatStrings|
    ensures r.0.Assigned? && r.1.None? ==> |r.0.formats| == |v.items|
    ensures r.1 != Some(BadOptionalAccess)
  {
    if !v.JArr? || v.items == [] then (Kept, None)
    else
      match AsString(v.items[0])
      case Err(e) => (Kept, Some(e))
      case Ok(first) =>
        if |first| == 0 then (Kept, None)
        else
          var read := ReadNames(FileFormatStrings, v.items);
          (Assigned(read.0), read.1)
  }

  /** An enumeration member: asString, then getKeyFromValue. */
  function ReadEnum(v: Json, table: seq<string>): (r: Result<nat, Fault>)
    ensures r.Ok? ==> r.value < |table| && AsString(v) == Ok(table[r.value])
    ensures r.Err? ==> r.error in {LogicError, Undefined}
  {
    match AsString(v)
    case Err(e) => Err(e)
    case Ok(text) => FindKey(table, text)
  }

  /** One `if (root.isMember(key))` block: the member is assigned only when
      the key is present. `asWritten` selects the formats block. */
  function ReadField(x: MeshExportSchema, root: Json, f: Field, asWritten: bool): (r: (MeshExportSchema, Option<Fault>))
    ensures r.0.assetName == x.assetName
    ensures Enumerated(x) ==> Enumerated(r.0)
    ensures asWritten ==> r.0.supportedFormats == x.supportedFormats || r.0.supportedFormats.None?
    ensures asWritten && r.1.None? ==> r.0.supportedFormats == x.supportedFormats
    ensures !asWritten ==> r.1 != Some(BadOptionalAccess)
    ensures root.JNull? ==> r == (x, None)
  {
    match IsMember(root, KeyOf(f))
    case Err(e) => (x, Some(e))
    case Ok(present) =>
      if !present then (x, None) else ReadValue(x, root.fields[KeyOf(f)], f, asWritten)
  }

  /** The body of a block: the member's value read and converted, and the
      member assigned when that succeeds. */
  function ReadValue(x: MeshExportSchema, v: Json, f: Field, asWritten: bool): (r: (MeshExportSchema, Option<Fault>))
    ensures r.0.assetName == x.assetName
    ensures Enumerated(x) ==> Enumerated(r.0)
    ensures asWritten ==> r.0.supportedFormats == x.supportedFormats || r.0.supportedFormats.None?
    ensures asWritten && r.1.None? ==> r.0.supportedFormats == x.supportedFormats
    ensures !asWritten ==> r.1 != Some(BadOptionalAccess)
  {
    match f
    case AssetUuid =>
      (match AsString(v) case Err(e) => (x, Some(e)) case Ok(t) => (x.(assetUuid := Some(t)), None))
    case SupportedFormats =>
      var read := if asWritten then ReadFormatsAsWritten(v) else ReadFormats(v);
      (match read.0
       case Kept => x
       case Reset => x.(supportedFormats := None)
       case Assigned(l) => x.(supportedFormats := Some(l)), read.1)
    case ColorFormat =>
      (match ReadEnum(v, ColorFormatStrings) case Err(e) => (x, Some(e)) case Ok(k) => (x.(colorFormat := Some(k)), None))
    case ColorEncoding =>
      (match ReadEnum(v, ColorEncodingStrings) case Err(e) => (x, Some(e)) case Ok(k) => (x.(colorEncoding := Some(k)), None))
    case AllowNegativeTransforms =>
      (match AsBool(v) case Err(e) => (x, Some(e)) case Ok(b) => (x.(allowNegativeTransforms := Some(b)), None))
    case AllowInstances =>
      (match AsBool(v) case Err(e) => (x, Some(e)) case Ok(b) => (x.(allowInstances := Some(b)), None))
    case FlattenHierarchy =>
      (match AsBool(v) case Err(e) => (x, Some(e)) case Ok(b) => (x.(flattenHierarchy := Some(b)), None))
    case AxisConvention =>
      (match ReadEnum(v, AxisConventionStrings) case Err(e) => (x, Some(e)) case Ok(k) => (x.(axisConvention := Some(k)), None))
    case Unit =>
      (match ReadEnum(v, UnitStrings) case Err(e) => (x, Some(e)) case Ok(k) => (x.(unit := Some(k)), None))
    case Topology =>
      (match ReadEnum(v, ExportTopologyStrings) case Err(e) => (x, Some(e)) case Ok(k) => (x.(topology := Some(k)), None))
    case EnableUdims =>
      (match AsBool(v) case Err(e) => (x, Some(e)) case Ok(b) => (x.(enableUdims := Some(b)), None))
    case RequestUv =>
      (match AsBool(v) case Err(e) => (x, Some(e)) case Ok(b) => (x.(requestUv := Some(b)), None))
  }

  /** The order Deserialize reads the members in. */
  const DeserializeOrder: seq<Field> := [AssetUuid, SupportedFormats, ColorFormat, ColorEncoding, AllowInstances,
    FlattenHierarchy, AllowNegativeTransforms, Unit, AxisConvention, Topology, EnableUdims, RequestUv]

  /** The blocks from position i of DeserializeOrder on, up to the first
      one that fails. */
  function ReadFrom(x: MeshExportSchema, root: Json, i: nat, asWritten: bool): (r: (MeshExportSchema, Option<Fault>))
    ensures r.0.assetName == x.assetName
    ensures Enumerated(x) ==> Enumerated(r.0)
    ensures asWritten ==> r.0.supportedFormats == x.supportedFormats || r.0.supportedFormats.None?
    ensures asWritten && r.1.None? ==> r.0.supportedFormats == x.supportedFormats
    ensures !asWritten ==> r.1 != Some(BadOptionalAccess)
    ensures root.JNull? ==> r == (x, None)
    decreases |DeserializeOrder| - i
  {
    if i >= |DeserializeOrder| then (x, None)
    else
      var r := ReadField(x, root, DeserializeOrder[i], asWritten);
      if r.1.Some? then r else ReadFrom(r.0, root, i + 1, asWritten)
  }

  /** The name, read with get and asString, then the optional blocks. */
  function DeserializeWith(x: MeshExportSchema, root: Json, asWritten: bool): (r: (MeshExportSchema, Option<Fault>))
    ensures !(root.JNull? || root.JObj?) ==> r == (x, Some(LogicError))
    ensures root.JNull? ==> r == (x.(assetName := ""), None)
    ensures TextOrMissing(root, "assetName") ==> r.0.assetName == TextAt(root, "assetName")
    ensures ContainerAt(root, "assetName") ==> r == (x, Some(LogicError))
    ensures Enumerated(x) ==> Enumerated(r.0)
    ensures asWritten ==> r.0.supportedFormats == x.supportedFormats || r.0.supportedFormats.None?
    ensures asWritten && r.1.None? ==> r.0.supportedFormats == x.supportedFormats
    ensures !asWritten ==> r.1 != Some(BadOptionalAccess)
  {
    match ReadString(root, "assetName")
    case Err(e) => (x, Some(e))
    case Ok(name) => ReadFrom(x.(assetName := name), root, 0, asWritten)
  }

  /** Deserialize(const Json::Value&) as written: the name is read first
      and kept, and the supported formats are either left alone or, only on
      the way to a fault, reset to nullopt. */
  function DeserializeAsWritten(x: MeshExportSchema, root: Json): (r: (MeshExportSchema, Option<Fault>))
    ensures !(root.JNull? || root.JObj?) ==> r == (x, Some(LogicError))
    ensures TextOrMissing(root, "assetName") ==> r.0.assetName == TextAt(root, "assetName")
    ensures r.0.supportedFormats == x.supportedFormats || r.0.supportedFormats.None?
    ensures r.1.None? ==> r.0.supportedFormats == x.supportedFormats
  {
    DeserializeWith(x, root, true)
  }

  /** Deserialize(const Json::Value&) with the formats block corrected:
      it never reaches an empty optional, and every enumeration member it
      assigns holds one of its enumerators. */
  function Deserialize(x: MeshExportSchema, root: Json): (r: (MeshExportSchema, Option<Fault>))
    ensures !(root.JNull? || root.JObj?) ==> r == (x, Some(LogicError))
    ensures TextOrMissing(root, "assetName") ==> r.0.assetName == TextAt(root, "assetName")
    ensures r.1 != Some(BadOptionalAccess)
    ensures Enumerated(x) ==> Enumerated(r.0)
  {
    DeserializeWith(x, root, false)
  }

  /** Deserialize(const std::string&), which calls Deserialize(const
      Json::Value&) as written: nothing happens when the text does not
      parse. `parsed` is what the reader makes of it. */
  function DeserializeText(x: MeshExportSchema, parsed: Option<Json>): (MeshExportSchema, Option<Fault>) {
    if parsed.None? then (x, None) else DeserializeAsWritten(x, parsed.value)
  }

  // ---------------------------------------------------------------------
  // Properties

  /** A block whose key is missing changes nothing. */
  lemma AbsentFieldUntouched(x: MeshExportSchema, m: map<string, Json>, f: Field, asWritten: bool)
    requires KeyOf(f) !in m
    ensures ReadField(x, JObj(m), f, asWritten) == (x, None)
  {
  }

  /** A block that fails ends the reading with what it left. */
  lemma ReadFromStops(x: MeshExportSchema, root: Json, i: nat, asWritten: bool)
    requires i < |DeserializeOrder| && ReadField(x, root, DeserializeOrder[i], asWritten).1.Some?
    ensures ReadFrom(x, root, i, asWritten) == ReadField(x, root, DeserializeOrder[i], asWritten)
  {
  }

  /** A block that succeeds hands its schema to the next one. */
  lemma ReadFromSteps(x: MeshExportSchema, root: Json, i: nat, asWritten: bool)
    requires i < |DeserializeOrder| && ReadField(x, root, DeserializeOrder[i], asWritten).1.None?
    ensures ReadFrom(x, root, i, asWritten) == ReadFrom(ReadField(x, root, DeserializeOrder[i], asWritten).0, root, i + 1, asWritten)
  {
  }

  /** Blocks whose keys are all missing change nothing. */
  lemma {:induction false} AbsentFromUntouched(x: MeshExportSchema, m: map<string, Json>, i: nat, asWritten: bool)
    requires forall j :: i <= j < |DeserializeOrder| ==> KeyOf(DeserializeOrder[j]) !in m
    ensures ReadFrom(x, JObj(m), i, asWritten) == (x, None)
    decreases |DeserializeOrder| - i
  {
    if i < |DeserializeOrder| {
      AbsentFieldUntouched(x, m, DeserializeOrder[i], asWritten);
      AbsentFromUntouched(x, m, i + 1, asWritten);
    }
  }

  /** An object with nothing but a name sets the name and leaves every
      optional member as it was. */
  lemma OnlyNamePresent(x: MeshExportSchema, name: string)
    ensures Deserialize(x, JObj(map["assetName" := JStr(name)])) == (x.(assetName := name), None)
  {
    var m := map["assetName" := JStr(name)];
    forall j | 0 <= j < |DeserializeOrder| ensures KeyOf(DeserializeOrder[j]) !in m {
      KeyNotName(DeserializeOrder[j]);
    }
    AbsentFromUntouched(x.(assetName := name), m, 0, false);
  }

  /** Names written from a table of distinct names read back as the same
      enumerators. */
  lemma {:induction false} NamesRoundTrip(table: seq<string>, es: seq<nat>)
    requires Distinct(table)
    requires forall i :: 0 <= i < |es| ==> es[i] < |table|
    ensures ReadNames(table, Names(table, es)) == (es, None)
    decreases |es|
  {
    if es != [] {
      var n := |es| - 1;
      assert Names(table, es)[..n] == Names(table, es[..n]);
      NamesRoundTrip(table, es[..n]);
      FindKeyOfName(table, es[n]);
      assert es == es[..n] + [es[n]];
    }
  }

  /** The format names written by Serialize read back as the same
      formats. */
  lemma FormatsRoundTrip(formats: seq<nat>)
    requires forall i :: 0 <= i < |formats| ==> formats[i] < |FileFormatStrings|
    ensures ReadNames(FileFormatStrings, Names(FileFormatStrings, formats)) == (formats, None)
  {
    FileFormatsDistinct();
    NamesRoundTrip(FileFormatStrings, formats);
  }

  /** `a` when it holds something, else `b`. */
  function Pick<T>(a: Option<T>, b: Option<T>): Option<T> {
    if a.Some? then a else b
  }

  /** A format list when it holds something, else `b`. */
  function PickFormats(a: Option<seq<nat>>, b: Option<seq<nat>>): Option<seq<nat>> {
    if a.Some? && |a.value| > 0 then a else b
  }

  /** What Deserialize(Serialize(s)) makes of a schema x: the name and
      every member s writes come from s; the others (empty options, and a
      format list that is empty) stay as they were in x. */
  function Merged(x: MeshExportSchema, s: MeshExportSchema): MeshExportSchema {
    MeshExportSchema(
      s.assetName,
      Pick(s.assetUuid, x.assetUuid),
      PickFormats(s.supportedFormats, x.supportedFormats),
      Pick(s.colorFormat, x.colorFormat),
      Pick(s.colorEncoding, x.colorEncoding),
      Pick(s.allowNegativeTransforms, x.allowNegativeTransforms),
      Pick(s.allowInstances, x.allowInstances),
      Pick(s.flattenHierarchy, x.flattenHierarchy),
      Pick(s.axisConvention, x.axisConvention),
      Pick(s.unit, x.unit),
      Pick(s.topology, x.topology),
      Pick(s.requestUv, x.requestUv),
      Pick(s.enableUdims, x.enableUdims))
  }

  /** The member f of s placed into x, when s writes it. */
  function Put(x: MeshExportSchema, s: MeshExportSchema, f: Field): MeshExportSchema {
    match f
    case AssetUuid => x.(assetUuid := Pick(s.assetUuid, x.assetUuid))
    case SupportedFormats => x.(supportedFormats := PickFormats(s.supportedFormats, x.supportedFormats))
    case ColorFormat => x.(colorFormat := Pick(s.colorFormat, x.colorFormat))
    case ColorEncoding => x.(colorEncoding := Pick(s.colorEncoding, x.colorEncoding))
    case AllowNegativeTransforms => x.(allowNegativeTransforms := Pick(s.allowNegativeTransforms, x.allowNegativeTransforms))
    case AllowInstances => x.(allowInstances := Pick(s.allowInstances, x.allowInstances))
    case FlattenHierarchy => x.(flattenHierarchy := Pick(s.flattenHierarchy, x.flattenHierarchy))
    case AxisConvention => x.(axisConvention := Pick(s.axisConvention, x.axisConvention))
    case Unit => x.(unit := Pick(s.unit, x.unit))
    case Topology => x.(topology := Pick(s.topology, x.topology))
    case EnableUdims => x.(enableUdims := Pick(s.enableUdims, x.enableUdims))
    case RequestUv => x.(requestUv := Pick(s.requestUv, x.requestUv))
  }

  /** The members of s from position i of DeserializeOrder on, placed in
      turn. */
  function PutFrom(x: MeshExportSchema, s: MeshExportSchema, i: nat): MeshExportSchema
    decreases |DeserializeOrder| - i
  {
    if i >= |DeserializeOrder| then x else PutFrom(Put(x, s, DeserializeOrder[i]), s, i + 1)
  }

  /** Placing every member of s, in Deserialize's order, is Merged. */
  lemma PutFromMerged(x: MeshExportSchema, s: MeshExportSchema)
    ensures PutFrom(x.(assetName := s.assetName), s, 0) == Merged(x, s)
  {
    var y0 := x.(assetName := s.assetName);
    var y1 := Put(y0, s, AssetUuid);
    var y2 := Put(y1, s, SupportedFormats);
    var y3 := Put(y2, s, ColorFormat);
    var y4 := Put(y3, s, ColorEncoding);
    var y5 := Put(y4, s, AllowInstances);
    var y6 := Put(y5, s, FlattenHierarchy);
    var y7 := Put(y6, s, AllowNegativeTransforms);
    var y8 := Put(y7, s, Unit);
    var y9 := Put(y8, s, AxisConvention);
    var y10 := Put(y9, s, Topology);
    var y11 := Put(y10, s, EnableUdims);
    var y12 := Put(y11, s, RequestUv);
    assert PutFrom(y0, s, 0) == PutFrom(y1, s, 1);
    assert PutFrom(y1, s, 1) == PutFrom(y2, s, 2);
    assert PutFrom(y2, s, 2) == PutFrom(y3, s, 3);
    assert PutFrom(y3, s, 3) == PutFrom(y4, s, 4);
    assert PutFrom(y4, s, 4) == PutFrom(y5, s, 5);
    assert PutFrom(y5, s, 5) == PutFrom(y6, s, 6);
    assert PutFrom(y6, s, 6) == PutFrom(y7, s, 7);
    assert PutFrom(y7, s, 7) == PutFrom(y8, s, 8);
    assert PutFrom(y8, s, 8) == PutFrom(y9, s, 9);
    assert PutFrom(y9, s, 9) == PutFrom(y10, s, 10);
    assert PutFrom(y10, s, 10) == PutFrom(y11, s, 11);
    assert PutFrom(y11, s, 11) == y12;
  }

  /** The enumeration values read back what Serialize wrote. */
  lemma ReadEnumRoundTrip(x: MeshExportSchema, s: MeshExportSchema, f: Field)
    requires Enumerated(s) && FieldJson(s, f).Some?
    requires f in {ColorFormat, ColorEncoding, AxisConvention, Unit, Topology}
    ensures ReadValue(x, FieldJson(s, f).value, f, false) == (Put(x, s, f), None)
  {
    match f
    case ColorFormat => ColorFormatNameRead(s.colorFormat.value);
    case ColorEncoding => ColorEncodingNameRead(s.colorEncoding.value);
    case AxisConvention => AxisConventionNameRead(s.axisConvention.value);
    case Unit => UnitNameRead(s.unit.value);
    case Topology => TopologyNameRead(s.topology.value);
  }

  /** The format list reads back what Serialize wrote. */
  lemma ReadFormatsRoundTrip(x: MeshExportSchema, s: MeshExportSchema)
    requires Enumerated(s) && FieldJson(s, SupportedFormats).Some?
    ensures ReadValue(x, FieldJson(s, SupportedFormats).value, SupportedFormats, false) == (Put(x, s, SupportedFormats), None)
  {
    FormatsRoundTrip(s.supportedFormats.value);
    FileFormatNameNonEmpty(s.supportedFormats.value[0]);
  }

  /** The uuid and the flags read back what Serialize wrote. */
  lemma ReadPlainRoundTrip(x: MeshExportSchema, s: MeshExportSchema, f: Field)
    requires FieldJson(s, f).Some?
    requires f in {AssetUuid, AllowNegativeTransforms, AllowInstances, FlattenHierarchy, EnableUdims, RequestUv}
    ensures ReadValue(x, FieldJson(s, f).value, f, false) == (Put(x, s, f), None)
  {
  }

  /** Every value Serialize writes reads back as the member. */
  lemma ReadValueRoundTrip(x: MeshExportSchema, s: MeshExportSchema, f: Field)
    requires Enumerated(s) && FieldJson(s, f).Some?
    ensures ReadValue(x, FieldJson(s, f).value, f, false) == (Put(x, s, f), None)
  {
    if f == SupportedFormats {
      ReadFormatsRoundTrip(x, s);
    } else if f in {ColorFormat, ColorEncoding, AxisConvention, Unit, Topology} {
      ReadEnumRoundTrip(x, s, f);
    } else {
      ReadPlainRoundTrip(x, s, f);
    }
  }

  /** A member s does not write is left alone by Put. */
  lemma PutUnwritten(x: MeshExportSchema, s: MeshExportSchema, f: Field)
    requires FieldJson(s, f).None?
    ensures Put(x, s, f) == x
  {
  }

  /** Only the formats block depends on which version of it is read. */
  lemma ReadValueSameVersions(x: MeshExportSchema, v: Json, f: Field)
    requires f != SupportedFormats
    ensures ReadValue(x, v, f, true) == ReadValue(x, v, f, false)
  {
  }

  /** A block over an object holding exactly what Serialize writes for its
      member reads it back, and changes nothing when nothing is written.
      The formats block as written is defined on this only when Serialize
      writes no formats. */
  lemma ReadFieldOf(x: MeshExportSchema, s: MeshExportSchema, m: map<string, Json>, f: Field, asWritten: bool)
    requires Enumerated(s)
    requires asWritten ==> FieldJson(s, SupportedFormats).None?
    requires KeyOf(f) in m <==> FieldJson(s, f).Some?
    requires KeyOf(f) in m ==> m[KeyOf(f)] == FieldJson(s, f).value
    ensures ReadField(x, JObj(m), f, asWritten) == (Put(x, s, f), None)
  {
    if FieldJson(s, f).None? {
      AbsentFieldUntouched(x, m, f, asWritten);
      PutUnwritten(x, s, f);
    } else {
      ReadValueRoundTrip(x, s, f);
      if asWritten {
        ReadValueSameVersions(x, FieldJson(s, f).value, f);
      }
    }
  }

  /** Each block reads back what Serialize wrote for its member. */
  lemma ReadFieldRoundTrip(x: MeshExportSchema, s: MeshExportSchema, f: Field, asWritten: bool)
    requires Enumerated(s)
    requires asWritten ==> FieldJson(s, SupportedFormats).None?
    ensures ReadField(x, JObj(Serialized(s)), f, asWritten) == (Put(x, s, f), None)
  {
    SerializedMembers(s, f);
    ReadFieldOf(x, s, Serialized(s), f, asWritten);
  }

  lemma {:induction false} ReadFromRoundTrip(x: MeshExportSchema, s: MeshExportSchema, i: nat, asWritten: bool)
    requires Enumerated(s)
    requires asWritten ==> FieldJson(s, SupportedFormats).None?
    ensures ReadFrom(x, JObj(Serialized(s)), i, asWritten) == (PutFrom(x, s, i), None)
    decreases |DeserializeOrder| - i
  {
    if i < |DeserializeOrder| {
      ReadFieldRoundTrip(x, s, DeserializeOrder[i], asWritten);
      ReadFromRoundTrip(Put(x, s, DeserializeOrder[i]), s, i + 1, asWritten);
    }
  }

  /** Deserialize(Serialize(s)) restores the name, the uuid, the formats,
      the enumerations and the flags of s, over any previous schema x;
      only what s does not write keeps x's value. */
  lemma SerializeRoundTrip(x: MeshExportSchema, s: MeshExportSchema)
    requires Enumerated(s)
    ensures Deserialize(x, JObj(Serialized(s))) == (Merged(x, s), None)
  {
    SerializedName(s);
    ReadFromRoundTrip(x.(assetName := s.assetName), s, 0, false);
    PutFromMerged(x, s);
  }

  /** The same round trip for Deserialize as written, on the schemas it is
      defined for: those that write no formats, because they hold none or
      an empty list. */
  lemma SerializeRoundTripAsWritten(x: MeshExportSchema, s: MeshExportSchema)
    requires Enumerated(s)
    requires s.supportedFormats.None? || |s.supportedFormats.value| == 0
    ensures DeserializeAsWritten(x, JObj(Serialized(s))) == (Merged(x, s), None)
    ensures DeserializeText(x, Some(JObj(Serialized(s)))) == (Merged(x, s), None)
  {
    SerializedName(s);
    ReadFromRoundTrip(x.(assetName := s.assetName), s, 0, true);
    PutFromMerged(x, s);
  }

  /** As written, the round trip of a schema that holds a non-empty format
      list throws std::bad_optional_access in the formats block: the name
      and the uuid are read back, the formats are left reset to nullopt, and
      no later member is read. */
  lemma SerializeFormatsThrowAsWritten(x: MeshExportSchema, s: MeshExportSchema)
    requires Enumerated(s)
    requires s.supportedFormats.Some? && |s.supportedFormats.value| > 0
    ensures DeserializeAsWritten(x, JObj(Serialized(s))) ==
      (x.(assetName := s.assetName, assetUuid := Pick(s.assetUuid, x.assetUuid), supportedFormats := None),
       Some(BadOptionalAccess))
  {
    var root := JObj(Serialized(s));
    var y := x.(assetName := s.assetName);
    SerializedName(s);
    ReadFieldRoundTrip(y, s, AssetUuid, false);
    if KeyOf(AssetUuid) in Serialized(s) {
      ReadValueSameVersions(y, Serialized(s)[KeyOf(AssetUuid)], AssetUuid);
    }
    ReadFromSteps(y, root, 0, true);
    var z := Put(y, s, AssetUuid);
    SerializedMembers(s, SupportedFormats);
    var names := Names(FileFormatStrings, s.supportedFormats.value);
    FileFormatNameRead(s.supportedFormats.value[0]);
    ArrayFormatsAsWritten(names);
    assert ReadField(z, root, SupportedFormats, true) == (z.(supportedFormats := None), Some(BadOptionalAccess));
    ReadFromStops(z, root, 1, true);
  }

  /** Into a default-constructed schema, the round trip gives s back
      unless s holds an empty format list, which comes back absent. */
  lemma SerializeRoundTripEmpty(s: MeshExportSchema)
    requires Enumerated(s)
    requires s.supportedFormats.Some? ==> |s.supportedFormats.value| > 0
    ensures Deserialize(EmptySchema, JObj(Serialized(s))) == (s, None)
  {
    SerializeRoundTrip(EmptySchema, s);
  }

  /** An enumeration given by a name not in its table makes getKeyFromValue
      dereference end(); the name, read before it, is kept. */
  lemma UnknownEnumUndefined(x: MeshExportSchema, name: string, format: string)
    requires format !in ColorFormatStrings
    ensures var root := JObj(map["assetName" := JStr(name), "colorFormat" := JStr(format)]);
      Deserialize(x, root) == (x.(assetName := name), Some(Undefined))
  {
    var m := map["assetName" := JStr(name), "colorFormat" := JStr(format)];
    var y := x.(assetName := name);
    AbsentFieldUntouched(y, m, AssetUuid, false);
    AbsentFieldUntouched(y, m, SupportedFormats, false);
    assert ReadField(y, JObj(m), ColorFormat, false) == (y, Some(Undefined));
    ReadFromSteps(y, JObj(m), 0, false);
    ReadFromSteps(y, JObj(m), 1, false);
    ReadFromStops(y, JObj(m), 2, false);
  }

  lemma EmptyNameUnknown()
    ensures "" !in FileFormatStrings
  {
    forall e | 0 <= e < |FileFormatStrings| ensures FileFormatStrings[e] != "" {
      FileFormatNameNonEmpty(e);
    }
  }

  /** A non-empty array given as the formats is read through its first
      element: a list or an object there throws, a value whose text is
      empty skips the block, a name that is no file format ends in
      undefined behaviour after the reset, and a file format's name resets
      the member and reaches `value()` on the empty optional. */
  lemma ArrayFormatsAsWritten(items: seq<Json>)
    requires items != []
    ensures var first := items[0];
      && ((first.JArr? || first.JObj?) ==> ReadFormatsAsWritten(JArr(items)) == (Kept, Some(LogicError)))
      && ((first.JNull? || first == JStr("")) ==> ReadFormatsAsWritten(JArr(items)) == (Kept, None))
      && (first.JStr? && first.s != "" && first.s !in FileFormatStrings ==>
            ReadFormatsAsWritten(JArr(items)) == (Reset, Some(Undefined)))
      && (first.JStr? && first.s in FileFormatStrings ==>
            ReadFormatsAsWritten(JArr(items)) == (Reset, Some(BadOptionalAccess)))
  {
    if items[0].JStr? && items[0].s in FileFormatStrings {
      EmptyNameUnknown();
    }
  }

  /** An object given as the formats is read through the value of its first
      member in key order: an array or an object there throws, a value
      whose text is empty skips the block, and any other value resets the
      member to nullopt before the first pass throws. */
  lemma ObjectFormatsAsWritten(m: map<string, Json>)
    requires m.Keys != {}
    ensures var first := m[FirstKey(m.Keys)];
      && ((first.JArr? || first.JObj?) ==> ReadFormatsAsWritten(JObj(m)) == (Kept, Some(LogicError)))
      && ((first.JNull? || first == JStr("")) ==> ReadFormatsAsWritten(JObj(m)) == (Kept, None))
      && ((first.JNum? || first.JBool? || (first.JStr? && first.s != "")) ==>
            ReadFormatsAsWritten(JObj(m)) == (Reset, Some(LogicError)))
  {
  }

  /** The keys of {"assetName": "a", "supportedFormats": {"k": ""},
      "colorFormat": "Vertex"}: no block after the colour format finds its
      key. */
  lemma ObjectFormatKeys(m: map<string, Json>)
    requires m.Keys == {"assetName", "supportedFormats", "colorFormat"}
    ensures KeyOf(AssetUuid) !in m
    ensures forall j :: 3 <= j < |DeserializeOrder| ==> KeyOf(DeserializeOrder[j]) !in m
  {
    forall j | 3 <= j < |DeserializeOrder| ensures KeyOf(DeserializeOrder[j]) !in m {
      var f := DeserializeOrder[j];
      KeyNotName(f);
      KeysDistinct(f, SupportedFormats);
      KeysDistinct(f, ColorFormat);
    }
  }

  /** The request with the name "a", the formats {"k": ""} and the colour
      format "Vertex". */
  predicate ObjectFormatObject(m: map<string, Json>) {
    m.Keys == {"assetName", "supportedFormats", "colorFormat"} && m["assetName"] == JStr("a")
    && m["supportedFormats"] == JObj(map["k" := JStr("")]) && m["colorFormat"] == JStr("Vertex")
  }

  lemma ObjectFormatSkippedIn(x: MeshExportSchema, m: map<string, Json>)
    requires ObjectFormatObject(m)
    ensures DeserializeAsWritten(x, JObj(m)) == (x.(assetName := "a", colorFormat := Some(1)), None)
  {
    var y := x.(assetName := "a");
    var z := y.(colorFormat := Some(1));
    ObjectFormatKeys(m);
    var formats := map["k" := JStr("")];
    assert "k" in formats.Keys;
    assert FirstKey(formats.Keys) == "k";
    assert ReadField(y, JObj(m), SupportedFormats, true) == (y, None);
    ColorFormatNameRead(1);
    assert ReadField(y, JObj(m), ColorFormat, true) == (z, None);
    AbsentFromUntouched(z, m, 3, true);
    UuidAbsentSkips(y, m, true);
    FormatsReadSteps(y, JObj(m), true);
    ReadFromSteps(y, JObj(m), 2, true);
  }

  /** As written, formats given as an object whose first value is "" are
      skipped with defined behaviour, and the members after them are read:
      the request reads the name "a" and the colour format Vertex. */
  lemma ObjectFormatRequestAsWritten(x: MeshExportSchema)
    ensures var root := JObj(map["assetName" := JStr("a"), "supportedFormats" := JObj(map["k" := JStr("")]),
                                 "colorFormat" := JStr("Vertex")]);
      DeserializeAsWritten(x, root) == (x.(assetName := "a", colorFormat := Some(1)), None)
  {
    ObjectFormatSkippedIn(x, map["assetName" := JStr("a"), "supportedFormats" := JObj(map["k" := JStr("")]),
                                 "colorFormat" := JStr("Vertex")]);
  }

  /** The corrected block reads every well-named list of formats back. */
  lemma FormatsReadCorrected(formats: seq<nat>)
    requires |formats| > 0 && forall i :: 0 <= i < |formats| ==> formats[i] < |FileFormatStrings|
    ensures ReadFormats(JArr(Names(FileFormatStrings, formats))) == (Assigned(formats), None)
  {
    FormatsRoundTrip(formats);
    FileFormatNameNonEmpty(formats[0]);
  }

  /** The fbx request as written: the reset leaves the optional empty, and
      the first pass throws std::bad_optional_access before it can emplace
      the fbx format. */
  lemma OneFormatAsWritten()
    ensures ReadFormatsAsWritten(JArr([JStr("fbx")])) == (Reset, Some(BadOptionalAccess))
  {
    FileFormatNameRead(0);
  }

  /** The keys of {"assetName": "a", "supportedFormats": ["fbx"]}: no
      block after the formats finds its key. */
  lemma OneFormatKeys(m: map<string, Json>)
    requires m.Keys == {"assetName", "supportedFormats"}
    ensures KeyOf(AssetUuid) !in m
    ensures forall j :: 2 <= j < |DeserializeOrder| ==> KeyOf(DeserializeOrder[j]) !in m
  {
    forall j | 2 <= j < |DeserializeOrder| ensures KeyOf(DeserializeOrder[j]) !in m {
      var f := DeserializeOrder[j];
      KeyNotName(f);
      KeysDistinct(f, SupportedFormats);
    }
  }

  /** An object holding the name "a" and the one format ["fbx"]. */
  predicate OneFormatObject(m: map<string, Json>) {
    m.Keys == {"assetName", "supportedFormats"} && m["assetName"] == JStr("a")
    && m["supportedFormats"] == JArr([JStr("fbx")])
  }

  /** With no uuid member, reading starts at the formats block. */
  lemma UuidAbsentSkips(y: MeshExportSchema, m: map<string, Json>, asWritten: bool)
    requires KeyOf(AssetUuid) !in m
    ensures ReadFrom(y, JObj(m), 0, asWritten) == ReadFrom(y, JObj(m), 1, asWritten)
  {
    AbsentFieldUntouched(y, m, AssetUuid, asWritten);
    ReadFromSteps(y, JObj(m), 0, asWritten);
  }

  /** A formats block that fails ends the reading. */
  lemma FormatsFaultStops(y: MeshExportSchema, root: Json, asWritten: bool)
    requires ReadField(y, root, SupportedFormats, asWritten).1.Some?
    ensures ReadFrom(y, root, 1, asWritten) == ReadField(y, root, SupportedFormats, asWritten)
  {
    assert DeserializeOrder[1] == SupportedFormats;
    ReadFromStops(y, root, 1, asWritten);
  }

  /** A formats block that succeeds hands its schema to the colour
      format block. */
  lemma FormatsReadSteps(y: MeshExportSchema, root: Json, asWritten: bool)
    requires ReadField(y, root, SupportedFormats, asWritten).1.None?
    ensures ReadFrom(y, root, 1, asWritten) == ReadFrom(ReadField(y, root, SupportedFormats, asWritten).0, root, 2, asWritten)
  {
    assert DeserializeOrder[1] == SupportedFormats;
    ReadFromSteps(y, root, 1, asWritten);
  }

  lemma OneFormatAsWrittenIn(x: MeshExportSchema, m: map<string, Json>)
    requires OneFormatObject(m)
    ensures DeserializeAsWritten(x, JObj(m)) == (x.(assetName := "a", supportedFormats := None), Some(BadOptionalAccess))
  {
    var y := x.(assetName := "a");
    OneFormatKeys(m);
    OneFormatAsWritten();
    assert ReadField(y, JObj(m), SupportedFormats, true) == (y.(supportedFormats := None), Some(BadOptionalAccess));
    UuidAbsentSkips(y, m, true);
    FormatsFaultStops(y, JObj(m), true);
  }

  /** The request {"assetName": "a", "supportedFormats": ["fbx"]} as
      written sets the name, leaves the formats reset to nullopt and throws
      std::bad_optional_access. */
  lemma OneFormatRequestAsWritten(x: MeshExportSchema)
    ensures var root := JObj(map["assetName" := JStr("a"), "supportedFormats" := JArr([JStr("fbx")])]);
      DeserializeAsWritten(x, root) == (x.(assetName := "a", supportedFormats := None), Some(BadOptionalAccess))
  {
    OneFormatAsWrittenIn(x, map["assetName" := JStr("a"), "supportedFormats" := JArr([JStr("fbx")])]);
  }

  lemma OneFormatCorrectedIn(x: MeshExportSchema, m: map<string, Json>)
    requires OneFormatObject(m)
    ensures Deserialize(x, JObj(m)) == (x.(assetName := "a", supportedFormats := Some([0])), None)
  {
    var y := x.(assetName := "a");
    var z := y.(supportedFormats := Some([0]));
    OneFormatKeys(m);
    assert Names(FileFormatStrings, [0]) == [JStr("fbx")];
    FormatsReadCorrected([0]);
    assert ReadField(y, JObj(m), SupportedFormats, false) == (z, None);
    AbsentFromUntouched(z, m, 2, false);
    UuidAbsentSkips(y, m, false);
    FormatsReadSteps(y, JObj(m), false);
  }

  /** Corrected, the same request reads the fbx format. */
  lemma OneFormatRequest(x: MeshExportSchema)
    ensures var root := JObj(map["assetName" := JStr("a"), "supportedFormats" := JArr([JStr("fbx")])]);
      Deserialize(x, root) == (x.(assetName := "a", supportedFormats := Some([0])), None)
  {
    OneFormatCorrectedIn(x, map["assetName" := JStr("a"), "supportedFormats" := JArr([JStr("fbx")])]);
  }

  /** Text that does not parse changes nothing. */
  lemma UnparsedKeeps(x: MeshExportSchema)
    ensures DeserializeText(x, None) == (x, None)
  {
  }

  // ---------------------------------------------------------------------
  // send_mesh_config_request_schema

  datatype MeshConfigRequest = MeshConfigRequest(assetName: string, assetUuid: Option<string>)

  /** Serialize: the name always, the uuid when present. */
  function ConfigSerialize(c: MeshConfigRequest): (m: map<string, Json>)
    ensures m.Keys == {"assetName"} + (if c.assetUuid.Some? then {"assetUuid"} else {})
    ensures m["assetName"] == JStr(c.assetName)
    ensures c.assetUuid.Some? ==> m["assetUuid"] == JStr(c.assetUuid.value)
  {
    var m := map["assetName" := JStr(c.assetName)];
    if c.assetUuid.Some? then m["assetUuid" := JStr(c.assetUuid.value)] else m
  }

  /** Deserialize(const Json::Value&): the name, then the uuid only when it
      is a member. It throws, a logic error that keeps the uuid, exactly
      when the root is neither null nor an object or either member holds a
      list or an object; a missing uuid leaves the old one. */
  function ConfigDeserialize(c: MeshConfigRequest, root: Json): (r: (MeshConfigRequest, Option<Fault>))
    ensures r.1.Some? <==> !(root.JNull? || root.JObj?) || ContainerAt(root, "assetName") || ContainerAt(root, "assetUuid")
    ensures r.1.Some? ==> r.1 == Some(LogicError) && r.0.assetUuid == c.assetUuid
    ensures TextOrMissing(root, "assetName") ==> r.0.assetName == TextAt(root, "assetName")
    ensures r.1.None? && root.JObj? && "assetUuid" in root.fields && root.fields["assetUuid"].JStr? ==>
      r.0.assetUuid == Some(root.fields["assetUuid"].s)
    ensures !(root.JObj? && "assetUuid" in root.fields) ==> r.0.assetUuid == c.assetUuid
  {
    match ReadString(root, "assetName")
    case Err(e) => (c, Some(e))
    case Ok(name) =>
      var c1 := c.(assetName := name);
      match IsMember(root, "assetUuid")
      case Err(e) => (c1, Some(e))
      case Ok(present) =>
        if !present then (c1, None)
        else
          match AsString(root.fields["assetUuid"])
          case Err(e) => (c1, Some(e))
          case Ok(u) => (c1.(assetUuid := Some(u)), None)
  }

  /** Deserialize(const std::string&): nothing happens when the text does
      not parse. */
  function ConfigDeserializeText(c: MeshConfigRequest, parsed: Option<Json>): (MeshConfigRequest, Option<Fault>) {
    if parsed.None? then (c, None) else ConfigDeserialize(c, parsed.value)
  }

  /** The config request round trip: the name and a present uuid come back;
      an absent uuid keeps the old one. */
  lemma ConfigRoundTrip(t: MeshConfigRequest, c: MeshConfigRequest)
    ensures ConfigDeserialize(t, JObj(ConfigSerialize(c))) == (MeshConfigRequest(c.assetName, Pick(c.assetUuid, t.assetUuid)), None)
    ensures ConfigDeserializeText(t, None) == (t, None)
  {
  }
}
