/** Failure-carrying datatypes shared by the benchmark model. */
module Wrappers {

  /** A value that may be missing (Python's `None`, or `dict.get` on an absent key). */
  datatype Option<+T> = None | Some(value: T)
  {
    /** The carried value, or `default` when there is none. */
    function GetOr(default: T): T
    {
      match this
      case Some(v) => v
      case None => default
    }
  }

  /** The outcome of an operation that may raise. */
  datatype Result<+R, +E> = Success(value: R) | Failure(error: E)
}
