/** The Option and Result datatypes used for nullable cells and for errors the source raises. */
module Wrappers {

  /** A nullable value: `None` models Python's `None` in a table cell. */
  datatype Option<+T> = None | Some(value: T) {

    /** The value, or `default` when there is none (pandas' `fillna(default)` on one cell). */
    function GetOr(default: T): T {
      match this
      case Some(v) => v
      case None => default
    }
  }

  /** The outcome of an operation that can raise. */
  datatype Result<+R, +E> = Success(value: R) | Failure(error: E)
}
