/** Option and Result values used for the source's `None` returns and raised HTTP errors. */
module Wrappers {

  datatype Option<+T> = None | Some(value: T)

  /** An HTTP error as raised by the service: a status code and its detail text. */
  datatype HttpError = HttpError(status: int, detail: string)

  datatype Result<+T> = Ok(value: T) | Err(error: HttpError)
}
