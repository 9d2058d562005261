/** Optional values, Python's exceptions as values, and results that carry them. */
module Wrappers {

  datatype Option<T> = None | Some(value: T) {
    /** `x if x is not None else default`, the shape of `dict.get(k, default)`. */
    function GetOr(default: T): T {
      if Some? then value else default
    }
  }

  /** The exception classes the container operations raise. */
  datatype Error =
    | KeyError    // missing dict key, `set.remove` of an absent element, pop from an empty set or dict
    | IndexError  // subscript out of range, pop from an empty list
    | ValueError  // `index`/`remove` of an absent element, unpacking into the wrong number of names
    | TypeError   // item assignment on a tuple, subscripting a non-sequence

  /** The value an expression evaluates to, or the exception it raises. */
  datatype Result<T> = Ok(value: T) | Err(error: Error)

  /** The outcome of a statement that changes something in place and returns None. */
  datatype Outcome = Pass | Fail(error: Error)
}
