/** Option and Result, and the Python exceptions the modelled code can raise. */
module Wrappers {

  datatype Option<+T> = None | Some(value: T)

  /** The exceptions that escape the modelled functions, by Python class. */
  datatype PyError =
    | TypeError(message: string)
    | KeyError(key: string)
    | AttributeError(message: string)
    | RuntimeError(message: string)
    | FileNotFoundError(path: seq<string>)
    | FileExistsError(path: seq<string>)
    | NotADirectoryError(path: seq<string>)
    | IsADirectoryError(path: seq<string>)
    | ReadTimeout

  datatype Result<+T> = Ok(value: T) | Err(error: PyError) {
    predicate IsFailure() { Err? }

    function PropagateFailure<U>(): Result<U>
      requires Err?
    {
      Err(error)
    }

    function Extract(): T
      requires Ok?
    {
      value
    }
  }
}
