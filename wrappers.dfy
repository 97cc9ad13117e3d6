/** Option and Result types, and the error kinds the services raise. */
module Wrappers {

  datatype Option<+T> = None | Some(value: T)

  /** The exception kinds the application services throw, one constructor each:
      KeyNotFoundException, UnauthorizedAccessException,
      InvalidOperationException and ArgumentException; `Conflict` is the
      DbUpdateException `SaveChanges` raises when a row would break a unique
      index. */
  datatype Error = NotFound | Unauthorized | InvalidOperation | InvalidArgument | Conflict

  datatype Result<+T> = Ok(value: T) | Err(error: Error) {
    predicate IsFailure() { Err? }

    function PropagateFailure<U>(): Result<U>
      requires Err?
    {
      Err(error)
    }

    function Extract(): T
      requires Ok?
    {
      value
    }
  }

  /** A result that carries no value: the service methods that return `Task`. */
  datatype Outcome = Pass | Fail(error: Error)
}
