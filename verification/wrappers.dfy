/**
 Optional values and exception-carrying results shared by every module.
 A Java method that may throw is modelled as a function returning `Result`,
 the exception class becoming an `Exception` constructor.
 */
module Wrappers {

  datatype Option<T> = None | Some(value: T)
  {
    predicate IsFailure() {
      None?
    }

    function PropagateFailure<U>(): Option<U>
      requires None?
    {
      None
    }

    function Extract(): T
      requires Some?
    {
      value
    }

    function GetOr(default: T): T {
      match this
      case Some(v) => v
      case None => default
    }
  }

  /* The Java exception classes the modelled code throws. */
  datatype Exception =
    | IllegalArgument(message: string)
    | IllegalState(message: string)
    | NullPointer(message: string)
    | Runtime(message: string)
    | RateLimit(message: string)
    | URISyntax(message: string)
    | IndexOutOfBounds(message: string)
    | Arithmetic(message: string)
    | IncorrectResultSize(message: string)

  datatype Result<T> = Ok(value: T) | Fail(error: Exception)
  {
    predicate IsFailure() {
      Fail?
    }

    function PropagateFailure<U>(): Result<U>
      requires Fail?
    {
      Fail(error)
    }

    function GetOr(default: T): T {
      match this
      case Ok(v) => v
      case Fail(_) => default
    }

    function Extract(): T
      requires Ok?
    {
      value
    }
  }
}
