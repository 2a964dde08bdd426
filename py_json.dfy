/** The values Python's json module reads and writes: these stand for the
    dicts, lists, strings, numbers, booleans and None that the framework
    passes through json.loads and json.dumps. Text encoding and parsing are
    not modelled; a payload is the value it encodes. */
module PyJson {
  datatype Json =
    | JNull
    | JBool(b: bool)
    | JNum(n: int)
    | JStr(s: string)
    | JArr(items: seq<Json>)
    | JObj(fields: map<string, Json>)

  /** `message_object[key]` for an object that has the key. */
  predicate HasKey(j: Json, key: string) {
    j.JObj? && key in j.fields
  }
}
