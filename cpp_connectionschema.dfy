/** module-cpp/src/framework/schemas/connectionschema.cpp: the C++ form of
    the connection descriptor, with the feature ids held as uuids and
    written in the text form of uuidToString. */
module CppConnectionSchema {
  import opened Common
  import opened PyJson
  import opened CppJson
  import CppUuid

  datatype ConnectionSchema = ConnectionSchema(
    displayName: string,
    idName: string,
    connectorVersion: string,
    availableFeatures: seq<Uuid>)

  /** Each id through `text`, as a JSON string. */
  function JsonTexts(features: seq<Uuid>, text: Uuid -> string): (r: seq<Json>)
    ensures |r| == |features| && forall i :: 0 <= i < |features| ==> r[i] == JStr(text(features[i]))
  {
    seq(|features|, i requires 0 <= i < |features| => JStr(text(features[i])))
  }

  /** The feature ids as uuidToString writes them. */
  function FeatureTexts(features: seq<Uuid>): seq<Json> {
    JsonTexts(features, CppUuid.UuidToString)
  }

  /** The `featureValue` Serialize builds: a Json::Value starts null and
      only an append turns it into an array, so no features give null. */
  function FeatureValue(features: seq<Uuid>): (v: Json)
    ensures v.JNull? <==> features == []
    ensures v.JArr? ==> v.items == FeatureTexts(features)
  {
    if features == [] then JNull else JArr(FeatureTexts(features))
  }

  /** What Serialize leaves in `root`: the three names and the features,
      over whatever it held. */
  function Serialized(root: map<string, Json>, s: ConnectionSchema): (r: map<string, Json>)
    ensures r.Keys == root.Keys + {"display_name", "id_name", "connector_version", "available_features"}
    ensures forall k :: k in root && k !in {"display_name", "id_name", "connector_version", "available_features"} ==> r[k] == root[k]
  {
    root["display_name" := JStr(s.displayName)]["id_name" := JStr(s.idName)]
        ["connector_version" := JStr(s.connectorVersion)]["available_features" := FeatureValue(s.availableFeatures)]
  }

  /** The loop of Serialize: one text appended per feature id, `text`
      being uuidToString. */
  method AppendTexts(features: seq<Uuid>, text: Uuid -> string) returns (items: seq<Json>)
    ensures items == JsonTexts(features, text)
  {
    items := [];
    var i := 0;
    while i < |features|
      invariant 0 <= i <= |features| && |items| == i
      invariant forall k :: 0 <= k < i ==> items[k] == JStr(text(features[k]))
    {
      items := items + [JStr(text(features[i]))];
      i := i + 1;
    }
  }

  /** `featureValue` after the loop: null until something is appended. */
  method FeatureArray(features: seq<Uuid>) returns (featureValue: Json)
    ensures featureValue == FeatureValue(features)
  {
    featureValue := JNull;
    if |features| > 0 {
      var items := AppendTexts(features, CppUuid.UuidToString);
      featureValue := JArr(items);
    }
  }

  /** Serialize: the names, then the feature array. */
  method Serialize(root: map<string, Json>, s: ConnectionSchema) returns (r: map<string, Json>)
    ensures r == Serialized(root, s)
  {
    r := root["display_name" := JStr(s.displayName)];
    r := r["id_name" := JStr(s.idName)];
    r := r["connector_version" := JStr(s.connectorVersion)];
    var featureValue := FeatureArray(s.availableFeatures);
    r := r["available_features" := featureValue];
  }

  /** The std::transform over the feature array: each element through
      asString, which throws for a list or an object, then uuidFromString. */
  function ReadFeatures(items: seq<Json>): (r: Result<seq<Uuid>, Fault>)
    ensures r.Ok? ==> |r.value| == |items|
    ensures r.Err? <==> exists i :: 0 <= i < |items| && (items[i].JArr? || items[i].JObj?)
    ensures r.Err? ==> r.error == LogicError
    decreases |items|
  {
    if items == [] then Ok([])
    else
      match AsString(items[0])
      case Err(f) => Err(f)
      case Ok(text) =>
        match ReadFeatures(items[1..])
        case Err(f) =>
          assert exists i :: 1 <= i < |items| && (items[i].JArr? || items[i].JObj?) by {
            var i :| 0 <= i < |items[1..]| && (items[1..][i].JArr? || items[1..][i].JObj?);
            assert items[i + 1] == items[1..][i];
          }
          Err(f)
        case Ok(rest) =>
          assert forall i :: 1 <= i < |items| ==> items[i] == items[1..][i - 1];
          Ok([CppUuid.FromStringSpec(text)] + rest)
  }

  /** The elements `root["available_features"]` iterates over: an array's
      items, an object's values in key order; a missing member reads as
      null, and null, a string, a number or a boolean has none. */
  function FeatureElements(root: Json): seq<Json> {
    if root.JObj? && "available_features" in root.fields then
      match root.fields["available_features"]
      case JArr(items) => items
      case JObj(fields) => ValuesInKeyOrder(fields)
      case _ => []
    else []
  }

  /** Deserialize(const Json::Value&): the three names read in order, then
      the features; the first access that throws ends it, keeping what was
      assigned before. It throws, always a logic error that leaves the
      features as they were, exactly when the root is neither null nor an
      object, a name holds a list or an object, or a feature element does;
      otherwise a name given as a string is that string, a missing one is
      "", and there is one id per feature element. */
  function Deserialize(s: ConnectionSchema, root: Json): (r: (ConnectionSchema, Option<Fault>))
    ensures r.1.Some? ==> r.1 == Some(LogicError) && r.0.availableFeatures == s.availableFeatures
    ensures r.1.None? <==>
      (root.JNull? || root.JObj?)
      && !ContainerAt(root, "display_name") && !ContainerAt(root, "id_name") && !ContainerAt(root, "connector_version")
      && forall i :: 0 <= i < |FeatureElements(root)| ==> !(FeatureElements(root)[i].JArr? || FeatureElements(root)[i].JObj?)
    ensures r.1.None? && TextOrMissing(root, "display_name") ==> r.0.displayName == TextAt(root, "display_name")
    ensures r.1.None? && TextOrMissing(root, "id_name") ==> r.0.idName == TextAt(root, "id_name")
    ensures r.1.None? && TextOrMissing(root, "connector_version") ==> r.0.connectorVersion == TextAt(root, "connector_version")
    ensures r.1.None? ==> |r.0.availableFeatures| == |FeatureElements(root)|
  {
    match ReadString(root, "display_name")
    case Err(f) => (s, Some(f))
    case Ok(displayName) =>
      var s1 := s.(displayName := displayName);
      match ReadString(root, "id_name")
      case Err(f) => (s1, Some(f))
      case Ok(idName) =>
        var s2 := s1.(idName := idName);
        match ReadString(root, "connector_version")
        case Err(f) => (s2, Some(f))
        case Ok(version) =>
          var s3 := s2.(connectorVersion := version);
          match ReadFeatures(FeatureElements(root))
          case Err(f) => (s3, Some(f))
          case Ok(features) => (s3.(availableFeatures := features), None)
  }

  /** Deserialize(const std::string&): nothing changes when the text does
      not parse. `parsed` is what the reader makes of it. */
  function DeserializeText(s: ConnectionSchema, parsed: Option<Json>): (ConnectionSchema, Option<Fault>) {
    if parsed.None? then (s, None) else Deserialize(s, parsed.value)
  }

  /** The features written by Serialize read back as the same ids. */
  lemma {:induction false} FeaturesRoundTrip(features: seq<Uuid>)
    ensures ReadFeatures(FeatureTexts(features)) == Ok(features)
    decreases |features|
  {
    if features != [] {
      var texts := FeatureTexts(features);
      var text := CppUuid.UuidToString(features[0]);
      assert texts[0] == JStr(text);
      assert texts[1..] == FeatureTexts(features[1..]);
      FeaturesRoundTrip(features[1..]);
      CppUuid.UuidStringRoundTrip(features[0]);
      assert AsString(texts[0]) == Ok(text);
      assert ReadFeatures(texts) == Ok([CppUuid.FromStringSpec(text)] + ReadFeatures(texts[1..]).value);
      assert features == [features[0]] + features[1..];
    }
  }

  /** Deserialize(Serialize(s)) gives every member back, the features
      through the uuid text round trip, over any previous contents. */
  lemma SerializeRoundTrip(t: ConnectionSchema, s: ConnectionSchema, root: map<string, Json>)
    ensures Deserialize(t, JObj(Serialized(root, s))) == (s, None)
  {
    var m := Serialized(root, s);
    assert m["display_name"] == JStr(s.displayName) && m["id_name"] == JStr(s.idName);
    assert m["connector_version"] == JStr(s.connectorVersion);
    assert m["available_features"] == FeatureValue(s.availableFeatures);
    assert FeatureElements(JObj(m)) == FeatureTexts(s.availableFeatures);
    FeaturesRoundTrip(s.availableFeatures);
  }

  /** An empty object resets the names to "" and the features to none. */
  lemma MissingMembersDefault(t: ConnectionSchema)
    ensures Deserialize(t, JObj(map[])) == (ConnectionSchema("", "", "", []), None)
  {
  }

  /** Text that does not parse changes nothing. */
  lemma UnparsedKeeps(t: ConnectionSchema)
    ensures DeserializeText(t, None) == (t, None)
  {
  }

  /** The object {"b": v2, "a": v1} is iterated as [v1, v2]. */
  lemma TwoValuesInKeyOrder(v1: Json, v2: Json)
    ensures ValuesInKeyOrder(map["b" := v2, "a" := v1]) == [v1, v2]
  {
    var m := map["b" := v2, "a" := v1];
    assert KeyBefore("a", "b");
    assert IsFirstKey("a", m.Keys);
    FirstKeyUnique(FirstKey(m.Keys), "a", m.Keys);
    var rest := m - {"a"};
    assert rest == map["b" := v2];
    assert IsFirstKey("b", rest.Keys);
    FirstKeyUnique(FirstKey(rest.Keys), "b", rest.Keys);
    assert rest - {"b"} == map[];
  }

  /** Features given as an object are read from its values in key order:
      {"b": text of u2, "a": text of u1} gives [u1, u2]. */
  lemma ObjectFeaturesInKeyOrder(t: ConnectionSchema, u1: Uuid, u2: Uuid)
    ensures var features := map["b" := JStr(CppUuid.UuidToString(u2)), "a" := JStr(CppUuid.UuidToString(u1))];
      Deserialize(t, JObj(map["available_features" := JObj(features)])) == (ConnectionSchema("", "", "", [u1, u2]), None)
  {
    var v1, v2 := JStr(CppUuid.UuidToString(u1)), JStr(CppUuid.UuidToString(u2));
    TwoValuesInKeyOrder(v1, v2);
    TwoTextsRead(u1, u2);
    var root := JObj(map["available_features" := JObj(map["b" := v2, "a" := v1])]);
    assert FeatureElements(root) == [v1, v2];
    assert ReadFeatures(FeatureElements(root)) == Ok([u1, u2]);
  }

  /** Two feature texts read back as their two ids, in order. */
  lemma TwoTextsRead(u1: Uuid, u2: Uuid)
    ensures ReadFeatures([JStr(CppUuid.UuidToString(u1)), JStr(CppUuid.UuidToString(u2))]) == Ok([u1, u2])
  {
    assert FeatureTexts([u1, u2]) == [JStr(CppUuid.UuidToString(u1)), JStr(CppUuid.UuidToString(u2))];
    FeaturesRoundTrip([u1, u2]);
  }

  /** A feature array holding a list throws once the names are read: the
      names are kept and the old features stay. */
  lemma BadFeatureKeepsNames(t: ConnectionSchema, name: string, id: string, version: string)
    ensures var root := JObj(map["display_name" := JStr(name), "id_name" := JStr(id), "connector_version" := JStr(version),
                                 "available_features" := JArr([JArr([])])]);
      Deserialize(t, root) == (t.(displayName := name, idName := id, connectorVersion := version), Some(LogicError))
  {
  }
}
