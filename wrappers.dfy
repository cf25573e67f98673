/** Option and Result: a missing dictionary key, and a call that either returns or raises. */
module Wrappers {

  datatype Option<+T> = None | Some(value: T) {
    /** `d.get(key, default)`: the value when present, the default otherwise. */
    function GetOr(default: T): T {
      if Some? then value else default
    }
  }

  /** `Failure(message)` stands for a raised exception whose `str()` is `message`. */
  datatype Result<+T, +E> = Success(value: T) | Failure(error: E)
}
