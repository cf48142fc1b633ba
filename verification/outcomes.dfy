/** Failure-compatible wrappers shared by the whole model.
    `Option` stands for a JavaScript value that may be `null`/`undefined`;
    `Outcome` stands for a computation that either returns a value or throws
    an `Error` whose `message` is kept. */
module Outcomes {

  datatype Option<+T> = None | Some(value: T) {

    function GetOr(default: T): T {
      match this
      case Some(v) => v
      case None => default
    }
  }

  datatype Outcome<+T> = Ok(value: T) | Threw(message: string) {

    predicate IsFailure() {
      Threw?
    }

    function PropagateFailure<U>(): Outcome<U>
      requires Threw?
    {
      Threw(message)
    }

    function Extract(): T
      requires Ok?
    {
      value
    }
  }
}
