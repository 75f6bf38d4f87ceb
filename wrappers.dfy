/** The optional-value wrapper shared by every module of the model. */
module Wrappers {
  /** A value that may be absent: an unset storage key, an optional profile field, `NaN`. */
  datatype Option<T> = None | Some(value: T)
  {
    predicate IsSome() { Some? }

    /** The value, or `default` when absent (JavaScript's `x ?? default`). */
    function GetOr(default: T): (r: T)
      ensures Some? ==> r == value
      ensures None? ==> r == default
    {
      match this
      case None => default
      case Some(v) => v
    }
  }
}
