/** Absence and failure as values, the way the scraper returns `None` and raises. */
module Wrappers {

  /** A field that may be missing: Python's `Optional[T]`. */
  datatype Option<+T> = None | Some(value: T) {
    function GetOr(default: T): T {
      match this
      case Some(v) => v
      case None => default
    }
  }

  /** A computation that either yields a value or stops with an error. */
  datatype Result<+R, +E> = Ok(value: R) | Err(error: E)
}
