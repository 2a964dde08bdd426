/** module-python/lib/substanceconnector/framework/features/sbsarimport.py:
    the SBSAR import message schema and the application that sends and
    receives it. */
module PySbsarImport {
  import opened Common
  import opened PyJson
  import opened PyJsonSchema
  import opened PyCallbacks
  import opened PyMessage
  import opened PyTrampoline
  import opened PyApplication
  import opened PyMeshImport
  import opened PyInstance

  /** _IMPORT_SBSAR_UUID, 91e3dfbc-80b8-4b1a-92d5-63ec09ac641a. */
  const ImportSbsarUuid: MessageType := 0x91e3dfbc_80b8_4b1a_92d5_63ec09ac641a
  /** _UPDATE_SBSAR_UUID, 1643e0bf-7344-4314-9cbf-6107e30e5ed7. */
  const UpdateSbsarUuid: MessageType := 0x1643e0bf_7344_4314_9cbf_6107e30e5ed7

  /** recv_import_sbsar, as the callable registered for it. */
  const RecvImportSbsarFn: PyCallable := Function(4)

  /** SBSARImportApplication as an application class: its own pair ahead
      of BaseApplication's (empty) list, and the import type as its only
      feature. */
  const SbsarImportApplicationClass: Application :=
    Application(2, [(ImportSbsarUuid, RecvImportSbsarFn)] + BaseApplication.callbackList, Some([ImportSbsarUuid]))

  /** SBSARImportMessageSchema's type default. */
  const SbsarDefaultType := "material"

  /** SBSARIMPORTSCHEMA: the same members, types and required list as
      SEND_ASSET_SCHEMA. */
  const SbsarImportSchema: ObjectSchema := AssetSchema

  /** SBSARImportMessageSchema(json_object): a non-dict raises, and
      otherwise the object has the five attributes, its type "material"
      when the request names none. */
  function NewSbsarImport(jsonObject: Json, freshUuid: string): (r: Result<SchemaObject, PyException>)
    ensures !jsonObject.JObj? <==> r == Err(AttributeError)
    ensures r.Ok? ==>
      && r.value.cls == SbsarImportClass
      && r.value.attributes.Keys == {"path", "name", "uuid", "type", "take_file_ownership"}
    ensures r.Ok? && !HasKey(jsonObject, "type") ==> r.value.attributes["type"] == JStr(SbsarDefaultType)
    ensures r.Ok? && HasKey(jsonObject, "path") ==> r.value.attributes["path"] == jsonObject.fields["path"]
    ensures r.Ok? && !HasKey(jsonObject, "path") ==> r.value.attributes["path"] == JNull
  {
    NewAssetMessage(jsonObject, SbsarImportClass, SbsarDefaultType, freshUuid)
  }

  /** SBSARImportMessageSchema.is_valid. */
  predicate SbsarValid(o: SchemaObject) {
    Validate(ObjectJson(o), SbsarImportSchema)
  }

  /** recv_import_sbsar: json.loads of the message, which raises on text
      that is not JSON; the result is only printed. */
  function RecvImportSbsar(decoded: Option<Json>): (raised: Option<PyException>)
    ensures raised.Some? <==> decoded.None?
  {
    if decoded.None? then Some(JsonDecodeError) else None
  }

  /** What send_import_sbsar returns or raises. `isFile` is what
      os.path.isfile answers for the path; a path that is not a string or a
      number (None, a list, a dict) makes it raise TypeError. An object of
      any other class gives False; True is returned exactly for a valid
      SBSAR object whose path is a file. */
  function SendOutcome(arg: SchemaObject, isFile: bool): (r: Result<bool, PyException>)
    ensures arg.cls != SbsarImportClass ==> r == Ok(false)
    ensures r == Ok(true) <==> arg.cls == SbsarImportClass && "path" in arg.attributes && isFile && SbsarValid(arg)
    ensures r.Err? <==>
      && arg.cls == SbsarImportClass
      && ("path" !in arg.attributes || arg.attributes["path"].JNull? || arg.attributes["path"].JArr? || arg.attributes["path"].JObj?)
    ensures r.Err? ==> r.error in {AttributeError, TypeError}
  {
    if arg.cls != SbsarImportClass then Ok(false)
    else if "path" !in arg.attributes then Err(AttributeError)
    else
      var path := arg.attributes["path"];
      if path.JNull? || path.JArr? || path.JObj? then
        assert !Satisfies(path, SbsarImportSchema.properties["path"]);
        Err(TypeError)
      else if !isFile then Ok(false)
      else if !SbsarValid(arg) then Ok(false)
      else Ok(true)
  }

  /** send_import_sbsar: checks the class, the file and the schema, in that
      order, and only then writes the object's JSON with the import type. */
  method SendImportSbsar(context: int, arg: SchemaObject, isFile: bool, instance: ConnectorInstance)
    returns (r: Result<bool, PyException>)
    modifies instance
    ensures r == SendOutcome(arg, isFile)
    ensures r == Ok(true) ==>
      instance.events == old(instance.events) + [NativeWrite(context, PyUuidUtils.ToIntegers(ImportSbsarUuid), Serialized(ObjectJson(arg)))]
    ensures r != Ok(true) ==> instance.events == old(instance.events)
    ensures instance.state == old(instance.state) && instance.applicationName == old(instance.applicationName)
    ensures instance.featureLevel == old(instance.featureLevel) && instance.openContext == old(instance.openContext)
  {
    if arg.cls != SbsarImportClass {
      return Ok(false);
    }
    if "path" !in arg.attributes {
      return Err(AttributeError);
    }
    var path := arg.attributes["path"];
    if path.JNull? || path.JArr? || path.JObj? {
      return Err(TypeError);
    }
    if !isFile {
      return Ok(false);
    }
    if !SbsarValid(arg) {
      return Ok(false);
    }
    instance.WriteMessage(context, ImportSbsarUuid, Serialized(ObjectJson(arg)));
    r := Ok(true);
  }

  /** send_import_sbsar_string: from_string raises before anything is
      sent. */
  function SendImportSbsarString(decoded: Option<Json>): (r: Result<bool, PyException>)
    ensures r.Err?
  {
    match AssetFromString(decoded)
    case Err(e) => Err(e)
    case Ok(_) => Err(TypeError)
  }

  /** For an object made from a dict the send succeeds exactly when the
      path is a file and the members have their types; a request without a
      path raises TypeError in os.path.isfile, before validation. */
  lemma SendConstructed(j: Json, freshUuid: string, isFile: bool)
    requires j.JObj?
    ensures var o := NewSbsarImport(j, freshUuid).value;
      var a := o.attributes;
      SendOutcome(o, isFile) == Ok(true) <==>
        isFile && a["path"].JStr? && a["name"].JStr? && a["uuid"].JStr? && a["type"].JStr? && a["take_file_ownership"].JBool?
    ensures !HasKey(j, "path") ==> SendOutcome(NewSbsarImport(j, freshUuid).value, isFile) == Err(TypeError)
  {
    var o := NewSbsarImport(j, freshUuid).value;
    AssetValidIff(j, SbsarDefaultType, freshUuid);
  }

  /** After SBSARImportApplication's pre_init the default trampoline hands
      an import message to recv_import_sbsar; the update type is never
      registered and reaches nothing. */
  lemma SbsarRouting(context: int, message: string)
    ensures var callbacks := Registered(map[], SbsarImportApplicationClass.callbackList);
      && Dispatch(DefaultTrampoline, context, ImportSbsarUuid, message, callbacks)
         == [Invocation(RecvImportSbsarFn, context, ImportSbsarUuid, message)]
      && Dispatch(DefaultTrampoline, context, UpdateSbsarUuid, message, callbacks) == []
  {
    var list := SbsarImportApplicationClass.callbackList;
    RegisteredLastWins(map[], list, 0);
    RegisteredUntouched(map[], list);
  }
}
