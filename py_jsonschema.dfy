/** The part of JSON Schema the framework's schemas use, as jsonschema
    checks it, and the Python objects those schemas describe: an object is
    its class and its `__dict__`, and to_json writes the `__dict__`. */
module PyJsonSchema {
  import opened Common
  import opened PyJson

  /** The schema of one property. */
  datatype PropSchema =
    | StringOf(allowed: Option<seq<Json>>)   // {"type": "string"}, with "enum" when allowed is present
    | BooleanProp                            // {"type": "boolean"}
    | ArrayOf(item: PropSchema)              // {"type": "array", "items": ...}

  /** {"type": "object", "properties": ..., "required": ...}; other
      members are allowed. */
  datatype ObjectSchema = ObjectSchema(properties: map<string, PropSchema>, required: seq<string>)

  /** Whether a value has the type, and is one of the listed values, that
      the property schema asks for. */
  predicate Satisfies(v: Json, p: PropSchema)
    decreases p
  {
    match p
    case StringOf(allowed) => v.JStr? && (allowed.None? || v in allowed.value)
    case BooleanProp => v.JBool?
    case ArrayOf(item) => v.JArr? && forall i :: 0 <= i < |v.items| ==> Satisfies(v.items[i], item)
  }

  /** jsonschema.validate succeeds: an object holding every required
      member, whose members that the schema describes satisfy it. */
  predicate Validate(j: Json, s: ObjectSchema) {
    j.JObj?
    && (forall i :: 0 <= i < |s.required| ==> s.required[i] in j.fields)
    && forall k :: k in s.properties && k in j.fields ==> Satisfies(j.fields[k], s.properties[k])
  }

  /** `json_object.get(key, default)` on a dict. */
  function Get(j: Json, key: string, default: Json): (v: Json)
    ensures HasKey(j, key) ==> v == j.fields[key]
    ensures !HasKey(j, key) ==> v == default
  {
    if HasKey(j, key) then j.fields[key] else default
  }

  /** The message schema classes, and anything else a caller may pass. */
  datatype SchemaClass =
    | MeshImportClass
    | MeshConfigRequestClass
    | SendAssetClass
    | SbsarImportClass
    | OtherClass

  /** A Python object: its class and its attributes. */
  datatype SchemaObject = SchemaObject(cls: SchemaClass, attributes: map<string, Json>)

  /** to_json: `json.dumps(self, default=lambda o: o.__dict__)`. */
  function ObjectJson(o: SchemaObject): Json {
    JObj(o.attributes)
  }

  /** A list of strings as JSON. */
  function Strings(names: seq<string>): (r: seq<Json>)
    ensures |r| == |names| && forall i :: 0 <= i < |names| ==> r[i] == JStr(names[i])
  {
    seq(|names|, i requires 0 <= i < |names| => JStr(names[i]))
  }

  /** A member stored as None fails a string or boolean property: the null
      it becomes has neither type. */
  lemma NullFails(m: map<string, Json>, s: ObjectSchema, key: string)
    requires key in m && m[key] == JNull && key in s.properties
    ensures !Validate(JObj(m), s)
  {
    assert !Satisfies(m[key], s.properties[key]);
  }
}
