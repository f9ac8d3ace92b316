/** The error registry of the store and the failure-compatible wrappers the
    services use in place of Java exceptions. */
module Errors {

  /** One constructor per entry of the error registry. */
  datatype Error =
    | UserNotFound
    | BillNotFound
    | ProductNotFound
    | ProblemOnMapper
    | InvalidUser
    | UserAlreadyExists
    | SameOrderMultipleStrategies
  {
    /** The numeric code the registry attaches to the error. */
    function Code(): (c: int)
      ensures 2001 <= c <= 2007
    {
      match this
      case UserNotFound => 2001
      case BillNotFound => 2002
      case ProductNotFound => 2003
      case ProblemOnMapper => 2004
      case InvalidUser => 2005
      case UserAlreadyExists => 2006
      case SameOrderMultipleStrategies => 2007
    }

    /** True for the errors reported to clients as "not found". */
    predicate IsNotFound() {
      UserNotFound? || BillNotFound? || ProductNotFound?
    }
  }

  /** Codes identify errors, and the not-found errors are exactly the first
      three codes. */
  lemma CodeIdentifiesError(e1: Error, e2: Error)
    ensures e1.Code() == e2.Code() <==> e1 == e2
    ensures e1.IsNotFound() <==> e1.Code() <= 2003
  {
  }

  datatype Option<+T> = None | Some(value: T)

  /** A result of an operation that may raise a registry error. */
  datatype Result<+T> = Ok(value: T) | Err(error: Error) {
    predicate IsFailure() {
      Err?
    }

    function PropagateFailure<U>(): Result<U>
      requires Err?
    {
      Err(error)
    }

    function Extract(): T
      requires Ok?
    {
      value
    }
  }
}
