/** Failure-carrying values shared by every module of the model.

    `Option` stands for a Java reference that may be null or a Python value
    that may be `None`; `Result` stands for a call that either returns a value
    or throws. The error side carries the exception's message, which is the
    only part of a Java exception the pipeline ever inspects.
 */
module Wrappers {

  datatype Option<+T> = None | Some(value: T) {

    /** The value, or `default` when absent (Java's `x != null ? x : d`). */
    function GetOr(default: T): T {
      match this
      case Some(v) => v
      case None => default
    }
  }

  datatype Result<+T> = Success(value: T) | Failure(error: string) {

    predicate IsFailure() {
      Failure?
    }

    function PropagateFailure<U>(): Result<U>
      requires Failure?
    {
      Failure(error)
    }

    function Extract(): T
      requires Success?
    {
      value
    }
  }
}
