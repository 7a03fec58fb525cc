/**
 * The JavaScript values the extension stores and inspects: the JSON values
 * that a preference object can hold, plus `undefined` (what a missing
 * property reads as). Numbers are modelled by integers — only their `typeof`
 * matters here — and objects by maps, so the order of their keys is not
 * modelled.
 */
module Js {
  datatype Value =
    | Undefined
    | Null
    | Bool(b: bool)
    | Num(n: int)
    | Str(s: string)
    | Arr(items: seq<Value>)
    | Obj(fields: map<string, Value>)

  /** The result of the `typeof` operator. Note that `null` and arrays are "object". */
  function Typeof(v: Value): string
  {
    match v
    case Undefined => "undefined"
    case Null => "object"
    case Bool(_) => "boolean"
    case Num(_) => "number"
    case Str(_) => "string"
    case Arr(_) => "object"
    case Obj(_) => "object"
  }

  /**
   * The property read `v[key]` for a value that is not `null`: an object's own
   * field, or `undefined`. (Reading a property of `null` throws; callers model
   * that themselves.)
   */
  function Get(v: Value, key: string): Value
  {
    if v.Obj? && key in v.fields then v.fields[key] else Undefined
  }
}
