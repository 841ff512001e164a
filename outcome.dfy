/** The result of an operation that either returns a value or panics. */
module Outcome {

  /** Rust's `Option`. */
  datatype Option<+T> = None | Some(value: T)

  datatype Result<+T> = Ok(value: T) | Panic(reason: string)
  {
    predicate IsFailure() { Panic? }

    function PropagateFailure<U>(): Result<U>
      requires Panic?
    {
      Panic(reason)
    }

    function Extract(): T
      requires Ok?
    {
      value
    }
  }
}
