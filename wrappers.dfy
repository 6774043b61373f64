/** Result and option types used to model the source's exceptions and absent values. */
module Wrappers {

  /** A value that may be absent, like Python's `None`. */
  datatype Option<+T> = None | Some(value: T) {

    /** The value, or `default` when absent (Python's `getattr(obj, name, default)` pattern). */
    function GetOr(default: T): T {
      match this
      case Some(v) => v
      case None => default
    }
  }

  /** Either a value or the error that a raised exception would carry. */
  datatype Result<+R, +E> = Ok(value: R) | Err(error: E)
}
