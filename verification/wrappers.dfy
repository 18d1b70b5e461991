/** Optional values and handler outcomes shared by every route model. */
module Wrappers {

  /** A value that may be absent: an optional request field or a missing document. */
  datatype Option<+T> = None | Some(value: T) {

    /** The wrapped value, or `default` when absent. */
    function GetOr(default: T): T {
      match this
      case Some(v) => v
      case None => default
    }
  }

  /** The outcome of one route handler: the new state, or the rejection it answers with. */
  datatype Result<+R, +E> = Success(value: R) | Failure(error: E)
}
