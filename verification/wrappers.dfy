/** Failure-carrying values: `Option` stands for a value that may be absent
    (the C++ `npos` sentinel, an unparsable number), `Result` for a computation
    that may throw. */
module Wrappers {

  datatype Option<+T> = None | Some(value: T) {

    /** The carried value, or `default` when there is none. */
    function GetOr(default: T): T {
      match this
      case Some(v) => v
      case None => default
    }
  }

  datatype Result<+T, +E> = Ok(value: T) | Err(error: E)
}
