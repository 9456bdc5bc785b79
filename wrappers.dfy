/** Option and Result, the two failure-carrying values the rest of the model uses. */
module Wrappers {

  /** Python's `None` or a present value. */
  datatype Option<+T> = None | Some(value: T) {

    function GetOr(default: T): T {
      match this
      case Some(v) => v
      case None => default
    }
  }

  /**
   * The outcome of a Python call that may raise: `Ok` carries the returned value,
   * `Raised` the name of the exception. Usable with `:-`.
   */
  datatype Result<+T> = Ok(value: T) | Raised(exception: string) {

    predicate IsFailure() {
      Raised?
    }

    function PropagateFailure<U>(): Result<U>
      requires Raised?
    {
      Raised(exception)
    }

    function Extract(): T
      requires Ok?
    {
      value
    }
  }
}
