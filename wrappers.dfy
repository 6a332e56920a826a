/** Option and Result, the failure-carrying values every other module returns. */
module Wrappers {

  datatype Option<+T> = None | Some(value: T)

  datatype Result<+R, +E> = Success(value: R) | Failure(error: E)

  /** An HTTP error as the web layer reports it: a status code and the `detail` text. */
  datatype HttpError = HttpError(status: nat, detail: string)
}
