/** Shared result types: an optional value, the outcome of a service call
    that may throw an `Error`, and what a `try`/`catch` in a handler sees. */
module Outcomes {

  datatype Option<T> = None | Some(value: T)

  /** The outcome of a service call: a value, or an `Error` thrown with a message. */
  datatype Result<T> = Ok(value: T) | Err(message: string)

  /** What a `catch` clause receives: an `Error` instance (with its message)
      or some other thrown value, for which `error instanceof Error` is false. */
  datatype Thrown = ErrorInstance(message: string) | NonError

  /** How an awaited call completed, as seen by the handler that awaited it. */
  datatype Completion<T> = Returned(value: T) | Threw(thrown: Thrown)

  /** Awaiting a service call: a returned value stays a value, a thrown
      `Error` reaches the handler's `catch` with its message. */
  function Await<T>(r: Result<T>): (c: Completion<T>)
    ensures c.Returned? <==> r.Ok?
    ensures r.Ok? ==> c.value == r.value
    ensures r.Err? ==> c.thrown.ErrorInstance? && c.thrown.message == r.message
  {
    match r
    case Ok(v) => Returned(v)
    case Err(m) => Threw(ErrorInstance(m))
  }
}
