/** Absence and failure values shared by every module of the model. */
module Wrappers {

  /** A value that may be missing: Python's None, or a pandas null cell. */
  datatype Option<+T> = None | Some(value: T) {

    /** The value, or `default` when there is none (pandas `fillna`, `dict.get` with a default). */
    function GetOr(default: T): T {
      match this
      case Some(v) => v
      case None => default
    }
  }

  /** Either a value or the exception the source would raise instead. */
  datatype Result<+R, +E> = Success(value: R) | Failure(error: E)
}
