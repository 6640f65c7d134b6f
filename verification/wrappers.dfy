/** Option and Result datatypes used for the cell decoders' outcomes and for
    the per-row extraction failures. */
module Wrappers {

  /** A value that may be absent: a null cell, a failed lookup. */
  datatype Option<+T> = None | Some(value: T) {

    /** The encapsulated value, or `default` when absent (C#'s `?? default`). */
    function GetOr(default: T): T {
      match this
      case Some(v) => v
      case None => default
    }
  }

  /** Either a value or the reason it could not be produced. */
  datatype Result<+R, +E> = Success(value: R) | Failure(error: E)
}
