/**
 * The values a Firestore document or a decoded JSON text holds, as the
 * recommendation service reads them through Python: `None`, booleans,
 * numbers, strings, lists, dicts, and the two timestamp objects Firestore
 * hands back.
 */
module Json {
  import opened Wrappers
  import opened Dicts

  datatype Value =
    | Null
    | Bool(b: bool)
    | Number(x: real)
    | String(s: string)
    | List(items: seq<Value>)
    | Object(fields: Dict<string, Value>)
    | Timestamp(seconds: int)   // an object with a `seconds` attribute
    | DateTime(epoch: real)     // a `datetime`, read through `.timestamp()`

  /** Python truthiness: `None`, `False`, zero and empty containers are false, objects are true. */
  predicate Truthy(v: Value) {
    match v
    case Null => false
    case Bool(b) => b
    case Number(x) => x != 0.0
    case String(s) => s != ""
    case List(items) => items != []
    case Object(fields) => fields != []
    case Timestamp(_) => true
    case DateTime(_) => true
  }

  /** The value as a sort key, when Python can order it against numbers (`bool` is an `int`). */
  function AsNumber(v: Value): (r: Option<real>)
    ensures r.Some? <==> v.Number? || v.Bool?
  {
    match v
    case Number(x) => Some(x)
    case Bool(b) => Some(if b then 1.0 else 0.0)
    case _ => None
  }

  /** `d.get(k)` on a string field: absent, a string, or something else (`None` here). */
  function TextField(d: Dict<string, Value>, k: string): Option<Option<string>> {
    match Get(d, k)
    case None => Some(None)
    case Some(v) => if v.String? then Some(Some(v.s)) else None
  }
}
