/**
 * The values Python's json module produces (None, bool, int/float, str,
 * list, dict), and the few Python operations the response handling applies
 * to them, each with the exception it raises on a value of the wrong type.
 */
module Json {
  import opened Wrappers
  import PyStr

  datatype Value =
    | JNull
    | JBool(b: bool)
    | JNumber(n: real)
    | JString(s: string)
    | JArray(items: seq<Value>)
    | JObject(fields: map<string, Value>)

  /** The exception raised by a Python operation applied to a value of the wrong shape. */
  datatype PyError =
    | TypeError    // wrong operand type, e.g. `"abc"["k"]` or `len(None)`
    | KeyError     // missing dictionary key
    | IndexError   // index past the end of a list or str
    | AttributeError  // e.g. `[].find(...)` or `[].get(...)`

  /** Python truthiness (`not v` is false) of a decoded JSON value. */
  predicate Truthy(v: Value) {
    match v
    case JNull => false
    case JBool(b) => b
    case JNumber(n) => n != 0.0
    case JString(s) => s != []
    case JArray(items) => items != []
    case JObject(fields) => fields != map[]
  }

  /** The falsy values, listed: `None`, `False`, zero, and the empty str, list and dict. */
  lemma FalsyValues(v: Value)
    ensures !Truthy(v) <==> v in {JNull, JBool(false), JNumber(0.0), JString([]), JArray([]), JObject(map[])}
  {
  }

  /** `dict.get(key)`: None for a missing key. */
  function Get(fields: map<string, Value>, key: string): (r: Option<Value>)
    ensures r.Some? <==> key in fields
    ensures r.Some? ==> r.value == fields[key]
  {
    if key in fields then Some(fields[key]) else None
  }

  /** `needle in v` for a string needle: a key test on a dict, membership on a list, a substring test on a str. */
  function In(needle: string, v: Value): (r: Result<bool, PyError>)
    ensures r.Success? <==> v.JObject? || v.JArray? || v.JString?
    ensures v.JObject? ==> r == Success(needle in v.fields)
    ensures v.JArray? ==> r == Success(JString(needle) in v.items)
    ensures v.JString? ==> (r == Success(true) <==> PyStr.Contains(v.s, needle))
  {
    match v
    case JObject(fields) => Success(needle in fields)
    case JArray(items) => Success(JString(needle) in items)
    case JString(s) => Success(PyStr.Find(s, needle) != -1)
    case _ => Failure(TypeError)
  }

  /** `len(v)`: defined on str, list and dict. */
  function Len(v: Value): (r: Result<nat, PyError>)
    ensures r.Success? <==> v.JObject? || v.JArray? || v.JString?
    ensures r.Success? ==> (r.value == 0 <==> !Truthy(v))
  {
    match v
    case JString(s) => Success(|s|)
    case JArray(items) => Success(|items|)
    case JObject(fields) => Success(|fields|)
    case _ => Failure(TypeError)
  }

  /** `v[0]` where `len(v) > 0` is known: the first list element, the first character of a str;
      a dict has only str keys, so the integer key 0 is missing. */
  function First(v: Value): (r: Result<Value, PyError>)
    ensures r.Success? <==> (v.JArray? || v.JString?) && Truthy(v)
    ensures r.Success? && v.JArray? ==> r.value == v.items[0]
    ensures r.Success? && v.JString? ==> r.value == JString(v.s[..1])
    ensures v.JObject? ==> r == Failure(KeyError)
  {
    match v
    case JArray(items) => if items == [] then Failure(IndexError) else Success(items[0])
    case JString(s) => if s == [] then Failure(IndexError) else Success(JString(s[..1]))
    case JObject(_) => Failure(KeyError)
    case _ => Failure(TypeError)
  }

  /** `v[key]` for a str key: a dict lookup; every other JSON value rejects a str subscript. */
  function Field(v: Value, key: string): (r: Result<Value, PyError>)
    ensures r.Success? <==> v.JObject? && key in v.fields
    ensures r.Success? ==> r.value == v.fields[key]
    ensures r == Failure(KeyError) <==> v.JObject? && key !in v.fields
  {
    match v
    case JObject(fields) => if key in fields then Success(fields[key]) else Failure(KeyError)
    case _ => Failure(TypeError)
  }
}
