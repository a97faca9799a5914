/** Option and Result, the failure-compatible wrappers the rest of the model uses. */
module Wrappers {

  datatype Option<+T> = None | Some(value: T) {
    /** Rust's `Option::map`. */
    function Map<U>(f: T -> U): (r: Option<U>)
      ensures r.Some? <==> Some?
      ensures r.Some? ==> r.value == f(value)
    {
      match this
      case None => None
      case Some(v) => Some(f(v))
    }
  }

  datatype Result<+T, +E> = Ok(value: T) | Err(error: E) {
    predicate IsFailure() {
      Err?
    }

    function PropagateFailure<U>(): Result<U, E>
      requires Err?
    {
      Err(error)
    }

    function Extract(): T
      requires Ok?
    {
      value
    }
  }
}
