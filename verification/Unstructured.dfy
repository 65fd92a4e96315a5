/** Untyped Kubernetes objects, as the application objects of a pipeline are read. */
module Unstructured {
  import opened Options

  datatype Value =
    | Null
    | Bool(b: bool)
    | Num(n: int)
    | Str(s: string)
    | List(items: seq<Value>)
    | Obj(fields: map<string, Value>)

  /** The value found by following `path`; None when a field is missing or an inner value is not an object. */
  function Nested(v: Value, path: seq<string>): Option<Value> {
    if path == [] then Some(v)
    else if v.Obj? && path[0] in v.fields then Nested(v.fields[path[0]], path[1..])
    else None
  }

  function NestedString(v: Value, path: seq<string>): Option<string> {
    match Nested(v, path)
    case Some(Str(s)) => Some(s)
    case _ => None
  }

  function NestedSlice(v: Value, path: seq<string>): Option<seq<Value>> {
    match Nested(v, path)
    case Some(List(items)) => Some(items)
    case _ => None
  }
}
