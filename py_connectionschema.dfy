/** module-python/lib/substanceconnector/framework/connectionschema.py: the
    descriptor each process sends to its peers when a connection opens. */
module PyConnectionSchema {
  import opened Common
  import opened PyJson
  import opened PyJsonSchema

  /** ConnectionSchema: its four attributes, stored as given. */
  datatype ConnectionSchema = ConnectionSchema(
    displayName: Json,
    idName: Json,
    connectorVersion: Json,
    availableFeatures: Json)

  const DisplayNameKey := "display_name"
  const IdNameKey := "id_name"
  const ConnectorVersionKey := "connector_version"
  const AvailableFeaturesKey := "available_features"

  /** to_json: the object's `__dict__`, that is, one member per attribute. */
  function ToJson(s: ConnectionSchema): (j: Json)
    ensures j.JObj? && j.fields.Keys == {DisplayNameKey, IdNameKey, ConnectorVersionKey, AvailableFeaturesKey}
  {
    JObj(map[DisplayNameKey := s.displayName, IdNameKey := s.idName,
             ConnectorVersionKey := s.connectorVersion, AvailableFeaturesKey := s.availableFeatures])
  }

  /** The construction in SystemApplication.recv_context: the four members
      of a decoded object, or nothing when the value is not an object or
      lacks one of them (the KeyError or TypeError raised there). Any
      other members are ignored. */
  function FromJson(j: Json): (r: Option<ConnectionSchema>)
    ensures r.Some? <==> j.JObj? && {DisplayNameKey, IdNameKey, ConnectorVersionKey, AvailableFeaturesKey} <= j.fields.Keys
    ensures r.Some? ==>
      && r.value.displayName == j.fields[DisplayNameKey] && r.value.idName == j.fields[IdNameKey]
      && r.value.connectorVersion == j.fields[ConnectorVersionKey] && r.value.availableFeatures == j.fields[AvailableFeaturesKey]
  {
    if HasKey(j, DisplayNameKey) && HasKey(j, IdNameKey) && HasKey(j, ConnectorVersionKey) && HasKey(j, AvailableFeaturesKey)
    then Some(ConnectionSchema(j.fields[DisplayNameKey], j.fields[IdNameKey],
                               j.fields[ConnectorVersionKey], j.fields[AvailableFeaturesKey]))
    else None
  }

  /** A schema sent with to_json is read back unchanged by the receiving
      side. */
  lemma SchemaJsonRoundTrip(s: ConnectionSchema)
    ensures FromJson(ToJson(s)) == Some(s)
  {
  }

  /** `SCHEMA`: an object whose four properties, where present, are
      strings. */
  const ConnectionSchemaDef := ObjectSchema(
    map[DisplayNameKey := StringOf(None), IdNameKey := StringOf(None),
        ConnectorVersionKey := StringOf(None), AvailableFeaturesKey := StringOf(None)], [])

  /** `SCHEMA` with `available_features` declared, as everywhere it is
      produced, an array of strings. */
  const ConnectionSchemaDefCorrected := ObjectSchema(
    map[DisplayNameKey := StringOf(None), IdNameKey := StringOf(None),
        ConnectorVersionKey := StringOf(None), AvailableFeaturesKey := ArrayOf(StringOf(None))], [])

  /** is_valid as written; to_json always writes all four members, so it
      holds exactly when all four attributes, the features included, are
      strings. */
  predicate IsValid(s: ConnectionSchema)
    ensures IsValid(s) <==> s.displayName.JStr? && s.idName.JStr? && s.connectorVersion.JStr? && s.availableFeatures.JStr?
  {
    Validate(ToJson(s), ConnectionSchemaDef)
  }

  /** is_valid against the corrected schema: the three names are strings
      and the features an array of strings. */
  predicate IsValidCorrected(s: ConnectionSchema)
    ensures IsValidCorrected(s) <==>
      && s.displayName.JStr? && s.idName.JStr? && s.connectorVersion.JStr?
      && s.availableFeatures.JArr? && forall i :: 0 <= i < |s.availableFeatures.items| ==> s.availableFeatures.items[i].JStr?
  {
    Validate(ToJson(s), ConnectionSchemaDefCorrected)
  }

  /** A schema whose features are a list of strings, as
      ConnectorInstance.get_connection_context builds, never passes is_valid
      as written, and passes the corrected check once its three names are
      strings. */
  lemma FeatureListRejected(name: string, version: string, features: seq<string>)
    ensures var s := ConnectionSchema(JStr(name), JStr(name), JStr(version), JArr(Strings(features)));
            !IsValid(s) && IsValidCorrected(s)
  {
    var s := ConnectionSchema(JStr(name), JStr(name), JStr(version), JArr(Strings(features)));
    assert !Satisfies(ToJson(s).fields[AvailableFeaturesKey], ConnectionSchemaDef.properties[AvailableFeaturesKey]);
  }
}
