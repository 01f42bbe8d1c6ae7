/** Values shared by the error model and the token model: an optional value
    (JavaScript's `undefined` or `null` on one side, a present value on the
    other) and the loosely typed values that an error's `context` record and
    `extra` entries carry. */
module Values {

  datatype Option<+T> = None | Some(value: T) {
    /** JavaScript's `x ?? d`: the value when present, `d` otherwise. */
    function GetOr(d: T): T {
      match this
      case Some(v) => v
      case None => d
    }
  }

  /** A value stored in a `Record<string, unknown>`. Arrays are `List`s; a stack
      trace that the runtime captured, whose text the model does not know, is
      `CapturedTrace`; a key explicitly bound to `undefined` is `Undefined`. */
  datatype Value =
    | Str(s: string)
    | Num(n: int)
    | Bool(b: bool)
    | List(items: seq<Value>)
    | CapturedTrace
    | Undefined

  /** `Record<string, unknown>`: key order is not modelled. */
  type Record = map<string, Value>
}
