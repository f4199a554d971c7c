/** Option and Result values: Java's null and thrown exceptions, made explicit. */
module Wrappers {
  /** A Java reference that may be null. */
  datatype Option<T> = None | Some(value: T)
  {
    predicate IsSome() { this.Some? }

    function GetOr(default: T): T
    {
      match this
      case None => default
      case Some(v) => v
    }
  }

  /** The outcome of a Java call that may throw: a value, or the exception it raises. */
  datatype Result<T, E> = Ok(value: T) | Err(error: E)
  {
    /** What lets `:-` pass an exception on to the caller. */
    predicate IsFailure() { Err? }

    function PropagateFailure<U>(): Result<U, E>
      requires Err?
    {
      Err(error)
    }

    function Extract(): T
      requires Ok?
    {
      value
    }
  }
}
