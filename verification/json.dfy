/**
 * The JSON values the extractors build before serialising them. Object key
 * order is not part of the model; `NotANumber` is the JavaScript NaN that
 * `JSON.stringify` writes as `null`.
 */
module Json {
  import opened Wrappers

  datatype Value =
    | Null
    | Bool(b: bool)
    | Num(n: int)
    | NotANumber
    | Str(s: string)
    | Arr(items: seq<Value>)
    | Obj(fields: map<string, Value>)

  /** JavaScript truthiness (`if (v)`), which Python's `if v:` shares on these values except NotANumber. */
  predicate Truthy(v: Value) {
    match v
    case Null => false
    case Bool(b) => b
    case Num(n) => n != 0
    case NotANumber => false
    case Str(s) => s != ""
    case Arr(_) => true
    case Obj(_) => true
  }

  /** Adds `key: v` to an object under construction when `cond` holds. */
  function PutIf(m: map<string, Value>, cond: bool, key: string, v: Value): (r: map<string, Value>)
    ensures cond ==> r == m[key := v]
    ensures !cond ==> r == m
  {
    if cond then m[key := v] else m
  }

  /** A string value, or null when absent. */
  function OptStr(o: Option<string>): (v: Value)
    ensures o.Some? ==> v == Str(o.value)
    ensures o.None? ==> v == Null
  {
    match o
    case Some(s) => Str(s)
    case None => Null
  }
}
