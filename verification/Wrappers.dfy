/** Failure-carrying results shared by the whole model. */
module Wrappers {

  datatype Option<+T> = None | Some(value: T)

  /** A raised exception is an `Err` naming what the source raises. */
  datatype Result<+T> = Ok(value: T) | Err(error: Error)

  datatype Error =
    | ValueError
    | KeyError
    | IndexError
    | RuntimeError
    | TypeError
    | NotFoundError
    | ExistsError
    | ContainerTypeError
    | StorageClosedError | StorageError
    | WriteFailure
    | ConnectionError
    | PublisherOperationError
}
