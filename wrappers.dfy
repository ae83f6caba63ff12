/** Option and Result types, and the exception classes the modelled code raises. */
module Wrappers {

  datatype Option<+T> = None | Some(value: T)

  /**
   * The exception classes raised by the modelled code. `BackendError` stands for
   * any failure raised by the storage backend (libcloud), `ObjectDoesNotExist`
   * for libcloud's ObjectDoesNotExistError.
   */
  datatype Error =
    | ValueError
    | FileExistsError
    | FileNotFoundError
    | IsADirectoryError
    | RuntimeError
    | KeyError
    | IndexError
    | TypeError
    | AttributeError
    | AssertionError
    | ObjectDoesNotExist
    | BackendError

  /** The outcome of a call that either returns a value or raises. */
  datatype Result<+T> = Ok(value: T) | Err(error: Error)
}
