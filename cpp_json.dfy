/** The jsoncpp accessors the C++ schemas use, on the same JSON values the
    Python layer reads and writes: `get` with a default, `isMember`,
    `asString` and `asBool`, with the exception jsoncpp throws when a value
    has the wrong type, and undefined behaviour where the code dereferences
    an end iterator. */
module CppJson {
  import opened Common
  import opened PyJson

  /** What a jsoncpp access can end in besides a value: Json::LogicError
      or undefined behaviour; and std::bad_optional_access, thrown by
      `value()` on a std::optional that holds nothing. */
  datatype Fault = LogicError | Undefined | BadOptionalAccess

  /** Json::valueToString of an integer: decimal, with a leading '-' for a
      negative value. */
  function DecimalString(n: int): (s: string)
    ensures |s| >= 1
  {
    if n < 0 then "-" + Digits(-n) else Digits(n)
  }

  function Digits(n: nat): (s: string)
    ensures |s| >= 1 && forall i :: 0 <= i < |s| ==> '0' <= s[i] <= '9'
    decreases n
  {
    if n < 10 then ["0123456789"[n]] else Digits(n / 10) + ["0123456789"[n % 10]]
  }

  /** Value::asString: null is "", a string itself, a boolean "true" or
      "false", a number its decimal form; arrays and objects throw. */
  function AsString(v: Json): (r: Result<string, Fault>)
    ensures r.Err? <==> v.JArr? || v.JObj?
    ensures v.JStr? ==> r == Ok(v.s)
  {
    match v
    case JNull => Ok("")
    case JStr(s) => Ok(s)
    case JBool(b) => Ok(if b then "true" else "false")
    case JNum(n) => Ok(DecimalString(n))
    case _ => Err(LogicError)
  }

  /** Value::asBool: null is false, a number is true when not zero;
      strings, arrays and objects throw. */
  function AsBool(v: Json): (r: Result<bool, Fault>)
    ensures r.Err? <==> v.JStr? || v.JArr? || v.JObj?
    ensures v.JBool? ==> r == Ok(v.b)
  {
    match v
    case JNull => Ok(false)
    case JBool(b) => Ok(b)
    case JNum(n) => Ok(n != 0)
    case _ => Err(LogicError)
  }

  /** Value::get(key, default): the member, or the default when it is
      missing or the value is null; any other value than an object or null
      throws. */
  function GetMember(root: Json, key: string, default: Json): (r: Result<Json, Fault>)
    ensures r.Err? <==> !(root.JNull? || root.JObj?)
    ensures root.JObj? && key in root.fields ==> r == Ok(root.fields[key])
    ensures (root.JNull? || (root.JObj? && key !in root.fields)) ==> r == Ok(default)
  {
    if root.JNull? then Ok(default)
    else if root.JObj? then Ok(if key in root.fields then root.fields[key] else default)
    else Err(LogicError)
  }

  /** Value::isMember, which throws for the same values as `get`. */
  function IsMember(root: Json, key: string): (r: Result<bool, Fault>)
    ensures r.Err? <==> !(root.JNull? || root.JObj?)
    ensures r.Ok? ==> (r.value <==> root.JObj? && key in root.fields)
  {
    if root.JNull? then Ok(false)
    else if root.JObj? then Ok(key in root.fields)
    else Err(LogicError)
  }

  /** root is an object whose `key` holds a list or an object, which
      asString and asBool throw for. */
  predicate ContainerAt(root: Json, key: string) {
    root.JObj? && key in root.fields && (root.fields[key].JArr? || root.fields[key].JObj?)
  }

  /** root is null, or an object whose `key` is missing or a string. */
  predicate TextOrMissing(root: Json, key: string) {
    root.JNull? || (root.JObj? && (key in root.fields ==> root.fields[key].JStr?))
  }

  /** The text of a string member, "" when there is none. */
  function TextAt(root: Json, key: string): string {
    if root.JObj? && key in root.fields && root.fields[key].JStr? then root.fields[key].s else ""
  }

  /** `root.get(key, "").asString()`. */
  function ReadString(root: Json, key: string): Result<string, Fault> {
    match GetMember(root, key, JStr(""))
    case Err(f) => Err(f)
    case Ok(v) => AsString(v)
  }

  /** `root.get(key, default).asBool()`. */
  function ReadBool(root: Json, key: string, default: Json): Result<bool, Fault> {
    match GetMember(root, key, default)
    case Err(f) => Err(f)
    case Ok(v) => AsBool(v)
  }

  /** The order of an object's members in jsoncpp (CZString's operator<):
      memcmp over the common length, then the shorter key first. */
  predicate KeyBefore(a: string, b: string)
    decreases |a|
  {
    if a == [] then b != []
    else b != [] && (a[0] < b[0] || (a[0] == b[0] && KeyBefore(a[1..], b[1..])))
  }

  lemma {:induction false} KeyBeforeIrreflexive(a: string)
    ensures !KeyBefore(a, a)
    decreases |a|
  {
    if a != [] {
      KeyBeforeIrreflexive(a[1..]);
    }
  }

  lemma {:induction false} KeyBeforeTransitive(a: string, b: string, c: string)
    requires KeyBefore(a, b) && KeyBefore(b, c)
    ensures KeyBefore(a, c)
    decreases |a|
  {
    if a != [] && a[0] == b[0] && b[0] == c[0] {
      KeyBeforeTransitive(a[1..], b[1..], c[1..]);
    }
  }

  lemma {:induction false} KeyBeforeTotal(a: string, b: string)
    requires a != b
    ensures KeyBefore(a, b) || KeyBefore(b, a)
    decreases |a|
  {
    if a != [] && b != [] && a[0] == b[0] {
      assert a == [a[0]] + a[1..] && b == [b[0]] + b[1..];
      KeyBeforeTotal(a[1..], b[1..]);
    }
  }

  /** k is the member an object's begin() points to. */
  predicate IsFirstKey(k: string, keys: set<string>) {
    k in keys && forall j :: j in keys && j != k ==> KeyBefore(k, j)
  }

  lemma {:induction false} FirstKeyExists(keys: set<string>)
    requires keys != {}
    ensures exists k :: IsFirstKey(k, keys)
    decreases |keys|
  {
    var x :| x in keys;
    var rest := keys - {x};
    if rest == {} {
      assert keys == {x};
      assert IsFirstKey(x, keys);
    } else {
      FirstKeyExists(rest);
      var m :| IsFirstKey(m, rest);
      if KeyBefore(x, m) {
        forall j | j in keys && j != x
          ensures KeyBefore(x, j)
        {
          if j != m {
            KeyBeforeTransitive(x, m, j);
          }
        }
        assert IsFirstKey(x, keys);
      } else {
        KeyBeforeTotal(x, m);
        assert IsFirstKey(m, keys);
      }
    }
  }

  lemma FirstKeyUnique(k1: string, k2: string, keys: set<string>)
    requires IsFirstKey(k1, keys) && IsFirstKey(k2, keys)
    ensures k1 == k2
  {
    if k1 != k2 {
      KeyBeforeTransitive(k1, k2, k1);
      KeyBeforeIrreflexive(k1);
    }
  }

  /** The key of the member an object's begin() points to. */
  function FirstKey(keys: set<string>): (k: string)
    requires keys != {}
    ensures IsFirstKey(k, keys)
  {
    FirstKeyExists(keys);
    forall k1, k2 | IsFirstKey(k1, keys) && IsFirstKey(k2, keys)
      ensures k1 == k2
    {
      FirstKeyUnique(k1, k2, keys);
    }
    var k :| IsFirstKey(k, keys); k
  }

  /** The values an object's iterators visit from begin() to end(): one
      per member, in key order. */
  function ValuesInKeyOrder(m: map<string, Json>): (r: seq<Json>)
    ensures |r| == |m|
    ensures forall i :: 0 <= i < |r| ==> r[i] in m.Values
    decreases |m|
  {
    if m == map[] then []
    else
      var k := FirstKey(m.Keys);
      var rest := m - {k};
      assert rest.Keys == m.Keys - {k};
      assert |rest| == |m| - 1;
      [m[k]] + ValuesInKeyOrder(rest)
  }

  /** Reading back a string or a boolean a schema wrote gives it back. */
  lemma ReadWritten(m: map<string, Json>, key: string)
    ensures key in m && m[key].JStr? ==> ReadString(JObj(m), key) == Ok(m[key].s)
    ensures key in m && m[key].JBool? ==> ReadBool(JObj(m), key, JBool(false)) == Ok(m[key].b)
    ensures key !in m ==> ReadString(JObj(m), key) == Ok("") && ReadBool(JObj(m), key, JBool(false)) == Ok(false)
  {
  }
}
