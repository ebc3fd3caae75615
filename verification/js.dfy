/**
 * The small slice of JavaScript value semantics the backend's decisions rest on:
 * primitive values, plain objects read by property name, truthiness, and the
 * `length` property of a string.
 */
module Js {
  import Decimal

  datatype Option<+T> = None | Some(value: T)

  /** A primitive as it arrives in a request body, a route parameter, a token
      claim or a database row. Numbers are integers here. */
  datatype Value = Undefined | Null | Bool(b: bool) | Num(n: int) | Str(s: string)

  /** A plain object (request body, requester, database row): property name to value.
      Reading a property the object lacks gives `undefined`. */
  type Obj = map<string, Value>

  function Prop(o: Obj, key: string): Value
  {
    if key in o then o[key] else Undefined
  }

  /** JavaScript truthiness of a primitive. */
  predicate Truthy(v: Value)
  {
    match v
    case Undefined => false
    case Null => false
    case Bool(b) => b
    case Num(n) => n != 0
    case Str(s) => |s| > 0
  }

  /** Reading `v.length` throws a TypeError exactly for `undefined` and `null`. */
  predicate LengthThrows(v: Value)
  {
    v.Undefined? || v.Null?
  }

  /** `v.length === k`: only a string has a numeric length among primitives. */
  predicate LengthIs(v: Value, k: int)
  {
    v.Str? && |v.s| == k
  }

  /** `v.length < k`: a missing length is `undefined`, and `undefined < k` is false. */
  predicate LengthBelow(v: Value, k: int)
  {
    v.Str? && |v.s| < k
  }

  /** `${v}` in a template literal. */
  function ToText(v: Value): string
  {
    match v
    case Undefined => "undefined"
    case Null => "null"
    case Bool(b) => if b then "true" else "false"
    case Num(n) => Decimal.ShowInt(n)
    case Str(s) => s
  }

  /** A truthy value never has length 0, so `v && v.length === 0` is always false
      for primitives. */
  lemma TruthyHasNoZeroLength(v: Value)
    ensures Truthy(v) ==> !LengthIs(v, 0)
  {
  }
}
