/** Option and Result values shared by every module of the model, and the
    JavaScript `a || b` defaulting rule for optional text and numbers. */
module Wrappers {

  /** A value that may be absent: a missing object key, `null` or `undefined`. */
  datatype Option<+T> = None | Some(value: T) {

    /** Returns the value if present, else `default`. */
    function GetOr(default: T): T {
      match this
      case Some(v) => v
      case None => default
    }
  }

  /** The outcome of a service call: the returned record, or the message of
      the `Error` the call throws. */
  datatype Result<+T> = Ok(value: T) | Err(message: string)

  /** A service call's answer together with the store as the call leaves it. */
  datatype Reply<T> = Reply(store: seq<T>, result: Result<T>)

  /** `v || fallback` for a text value: absent and empty text are falsy. */
  function TextOr(v: Option<string>, fallback: string): string {
    if v.Some? && v.value != "" then v.value else fallback
  }

  /** `v || fallback` for a number: absent and zero are falsy. */
  function NumberOr(v: Option<int>, fallback: int): int {
    if v.Some? && v.value != 0 then v.value else fallback
  }
}
