/** Small value types shared by every module of the model. */
module Basics {

  /** A value that may be absent: JavaScript's `undefined` or `null` for one field. */
  datatype Option<+T> = None | Some(value: T) {

    /** The value if present, else `default` (JavaScript's `x ?? default`). */
    function GetOr(default: T): T {
      if Some? then value else default
    }
  }

  /** The outcome of an operation that yields a value or fails with an error. */
  datatype Result<+T, +E> = Ok(value: T) | Err(error: E)

  /** JavaScript truthiness of an optional string: present and not "". */
  predicate Truthy(s: Option<string>) {
    s.Some? && |s.value| > 0
  }

  function Min(a: int, b: int): int {
    if a <= b then a else b
  }

  function Max(a: int, b: int): int {
    if a >= b then a else b
  }
}
