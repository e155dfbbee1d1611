/** JavaScript values as the Assessly server and client see them in request
    bodies, Mongo documents and React state: enough of the language's value
    space to state the truthiness tests (`!x`, `x || false`) and the key
    filters the code relies on. */
module Js {

  datatype Option<T> = None | Some(value: T)

  /** A computation that either yields a value or fails with an error,
      standing for a thrown exception or an early error response. */
  datatype Result<T, E> = Ok(value: T) | Err(error: E)

  /** A JavaScript value. `Composite` stands for any array or plain object
      that is not inspected further (truthy, not a string, not a number);
      `ObjectId` is a Mongo identifier, rendered by `toString` as its hex text.
      JSON bodies cannot carry NaN, so `Num` is never NaN. */
  datatype Value =
    | Undefined
    | Null
    | Bool(b: bool)
    | Num(n: real)
    | Str(s: string)
    | ObjectId(hex: string)
    | Composite

  /** ToBoolean: the values `!x` treats as false are undefined, null, false,
      0 and the empty string. */
  predicate Truthy(v: Value)
  {
    match v
    case Undefined => false
    case Null => false
    case Bool(b) => b
    case Num(n) => n != 0.0
    case Str(s) => s != ""
    case ObjectId(_) => true
    case Composite => true
  }

  /** `a || b`: the first operand when it is truthy, the second otherwise. */
  function Or(a: Value, b: Value): (r: Value)
    ensures Truthy(a) ==> r == a
    ensures !Truthy(a) ==> r == b
  {
    if Truthy(a) then a else b
  }

  /** A document or plain object. A key that is absent reads as undefined. */
  type Record = map<string, Value>

  /** Property access `obj[key]`. */
  function Get(r: Record, key: string): Value
  {
    if key in r then r[key] else Undefined
  }

  /** `obj[key] !== undefined`. */
  predicate Defined(r: Record, key: string)
  {
    Get(r, key) != Undefined
  }
}
