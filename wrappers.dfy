/** Result types shared by every module of the model. */
module Wrappers {

  datatype Option<+T> = None | Some(value: T)

  datatype Result<+R, +E> = Success(value: R) | Failure(error: E)

  /** A Go `error` value: `nil` or an error whose `Error()` text is `msg`. */
  datatype Status = Ok | Failed(msg: string)
}
