/**
 * Failure values shared by the whole model. PHP reports failures by throwing;
 * here every operation that can throw returns a `Result` (or an `Outcome` when
 * it returns nothing on success) whose `Error` names the exception class.
 */
module Wrappers {

  datatype Option<+T> = None | Some(value: T)

  datatype Error =
    | InvalidArgument(message: string)   // \InvalidArgumentException
    | ReadonlyModified(property: string) // \Error: "Cannot modify readonly property"
    | Runtime(message: string)           // \RuntimeException
    | Uninitialized(property: string)    // \Error: typed property accessed before initialization
    | Unloadable(file: string)           // \ParseError: the class's file does not compile
    | ProviderUnavailable                // the current-weather port failed
    | StoreUnavailable                   // the history store failed

  datatype Result<+T> = Ok(value: T) | Err(error: Error) {

    predicate IsFailure()
    {
      Err?
    }

    function PropagateFailure<U>(): Result<U>
      requires Err?
    {
      Err(error)
    }

    function Extract(): T
      requires Ok?
    {
      value
    }
  }

  datatype Outcome = Pass | Fail(error: Error)
}
