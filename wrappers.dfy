/** Option and Result, plus the exceptions the modelled Java code raises. */
module Wrappers {

  datatype Option<+T> = None | Some(value: T)

  datatype Result<+T> = Ok(value: T) | Err(error: Error) {
    predicate IsFailure() { Err? }

    function PropagateFailure<U>(): Result<U>
      requires Err?
    {
      Err(error)
    }

    function Extract(): T
      requires Ok?
    {
      value
    }
  }

  /** Two computations end the same way: both succeed, or both fail with the same exception. */
  predicate SameOutcome<T, U>(r: Result<T>, s: Result<U>)
  {
    r.Ok? == s.Ok? && (r.Err? ==> r.error == s.error)
  }

  /** The Java exception kinds raised by the compiler. */
  datatype Error =
    | IllegalArgument                 // Guava Preconditions.checkArgument, or the catch-all in addQualifierByType
    | IllegalState(message: string)   // IllegalStateException
    | NullPointer                     // a null dereference or Objects.requireNonNull / checkNotNull
    | UnsupportedOperation(message: string)
    | ModelException(message: string) // thrown by the generated solve() when no solution was found
}
