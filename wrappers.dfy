/** Optional values and typed error results, usable with `:-`. */
module Wrappers {

  /** A value that may be absent; in the TypeScript source, `null` and `undefined` both read as `None`. */
  datatype Option<+T> = None | Some(value: T) {

    /** This value if present, else `other`: the `??` operator between two optional values. */
    function Or(other: Option<T>): Option<T> {
      if Some? then this else other
    }

    /** The value, or `default` when absent: a final `?? default`. */
    function OrElse(default: T): T {
      match this
      case Some(v) => v
      case None => default
    }
  }

  /** A handler's outcome: a value, or one typed error code. */
  datatype Result<+T, +E> = Success(value: T) | Failure(error: E) {

    predicate IsFailure() {
      Failure?
    }

    function PropagateFailure<U>(): Result<U, E>
      requires Failure?
    {
      Failure(error)
    }

    function Extract(): T
      requires Success?
    {
      value
    }
  }
}
