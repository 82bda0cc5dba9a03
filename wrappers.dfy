/** Failure-compatible result types shared by the bridge's components. */
module Wrappers {

  datatype Option<+T> = None | Some(value: T)

  datatype Result<+T, +E> = Success(value: T) | Failure(error: E) {
    predicate IsFailure() { Failure? }

    function PropagateFailure<U>(): Result<U, E>
      requires Failure?
    {
      Failure(error)
    }

    function Extract(): T
      requires Success?
    {
      value
    }
  }

  /** Why an instruction could not be turned into a command.  In the node every one of
      these is an exception caught by the instruction callback. */
  datatype Fault =
    | RequestFailed          // the HTTP post, its status check or the response's JSON body failed
    | NoJsonContent          // the reply text lacks a '{' or a '}'
    | BadJson(text: string)         // the text between the braces does not decode
    | BadShape               // a lookup on a value of the wrong type (KeyError, IndexError, AttributeError, TypeError)
    | BadNumber              // float() of a value that is not a number
}
