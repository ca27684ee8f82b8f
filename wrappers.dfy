/** Optional values and the outcome of a call into code outside the model. */
module Wrappers {

  /** Python's `None` or a value. */
  datatype Option<+T> = None | Some(value: T) {

    /** The value, or `default` when there is none (`x if x is not None else default`). */
    function GetOr(default: T): T
    {
      match this
      case Some(v) => v
      case None => default
    }
  }

  /** A call that either raised an exception or returned a value. */
  datatype Attempt<+T> = Raised | Returned(value: T)
}
