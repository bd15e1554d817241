/** Option and Result, the two failure-compatible wrappers the model is written with.
    Result plays the part of Rust's `anyhow::Result`: `:-` is the `?` operator and
    `AndThen` is `Result::and_then`. */
module Wrappers {

  datatype Option<+T> = None | Some(value: T) {

    /** The carried value, or `default` when there is none. */
    function GetOr(default: T): T
    {
      match this
      case Some(v) => v
      case None => default
    }
  }

  datatype Result<+R, +E> = Ok(value: R) | Err(error: E) {

    predicate IsFailure() {
      Err?
    }

    function PropagateFailure<U>(): Result<U, E>
      requires Err?
    {
      Err(error)
    }

    function Extract(): R
      requires Ok?
    {
      value
    }

    /** Feeds a success to `f`; a failure is passed on and `f` is not consulted. */
    function AndThen<U>(f: R -> Result<U, E>): Result<U, E>
    {
      match this
      case Ok(v) => f(v)
      case Err(e) => Err(e)
    }
  }
}
