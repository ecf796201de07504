/** Failure-compatible wrappers shared by the relay and the browser client.
    `Option` stands for a JavaScript value that may be `null`/`undefined`;
    `Result` stands for a computation that may throw an `Error` with a message. */
module Wrappers {

  datatype Option<+T> = None | Some(value: T)

  datatype Result<+T> = Success(value: T) | Failure(error: string) {
    predicate IsFailure() {
      Failure?
    }

    function PropagateFailure<U>(): Result<U>
      requires Failure?
    {
      Failure(error)
    }

    function Extract(): T
      requires Success?
    {
      value
    }
  }
}
