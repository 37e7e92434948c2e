/** Option and Result, the failure-carrying values used throughout the model. */
module Wrappers {

  /** An optional value: a missing key, a null field, a query that found nothing. */
  datatype Option<+T> = None | Some(value: T) {

    /** The value, or `default` when there is none. */
    function GetOr(default: T): T {
      match this
      case Some(v) => v
      case None => default
    }
  }

  /** A value or an error, as a validator that raises is modelled. */
  datatype Result<+R, +E> = Success(value: R) | Failure(error: E)
}
