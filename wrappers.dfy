/** Option and Result values shared by every module of the model. */
module Wrappers {

  datatype Option<+T> = None | Some(value: T) {
    function GetOr(default: T): T {
      match this
      case Some(v) => v
      case None => default
    }
  }

  datatype Result<+T, +E> = Ok(value: T) | Err(error: E)

  /** What a failing step throws: an `HttpException` with its status, any
      other `Error` (a file-system or JSON error, say), or a thrown value that
      is not an `Error` at all. */
  datatype Thrown =
    | HttpError(status: int, message: string)
    | PlainError(message: string)
    | NonError(message: string)
  {
    predicate IsErrorInstance() {
      !NonError?
    }
  }
}
