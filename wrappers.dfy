/** Failure-carrying values shared by every module of the model. */
module Wrappers {

  /** A value that may be absent: Python's `None` versus a present value. */
  datatype Option<+T> = None | Some(value: T)

  /** The outcome of an operation that may raise: a value or the exception it raised. */
  datatype Result<+T, +E> = Ok(value: T) | Err(error: E)

  /** The Python exceptions the modelled code raises or catches. */
  datatype Exception =
    | AttributeError      // a method called on `None`
    | IndexError          // `split(...)[1]` on a string without the separator
    | ZeroDivisionError   // a sample rate of zero
    | ValueError          // `range(...)` with a step of zero
    | TypeError           // a call whose arguments do not bind to the parameters
    | GcsFileNotFound(blobPath: string)   // the recording is not in the bucket
    | FileNotFound(path: string)          // the final transcript is not in the bucket
    | PublishFailed       // the notification client raised

  /** Python truthiness of an optional string: `None` and `""` are false. */
  predicate Truthy(s: Option<string>) {
    s.Some? && s.value != ""
  }
}
