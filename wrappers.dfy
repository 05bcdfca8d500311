/** Option and Result, the two failure-carrying shapes the model uses for
    "element not found" (Python's None) and "exception raised". */
module Wrappers {

  datatype Option<+T> = None | Some(value: T)

  datatype Result<+T, +E> = Success(value: T) | Failure(error: E)
}
