/** Option and the HTTP response shapes shared by every controller of the model. */
module Wrappers {

  /** A value that may be absent (JavaScript `undefined`/`null`). */
  datatype Option<+T> = None | Some(value: T) {

    /** The wrapped value, or `default` when absent (JavaScript `x ?? default`). */
    function GetOr(default: T): T {
      match this
      case Some(v) => v
      case None => default
    }
  }
}

/** HTTP status codes and the response an Express handler sends. */
module Http {

  const OK := 200
  const CREATED := 201
  const BAD_REQUEST := 400
  const UNAUTHORIZED := 401
  const FORBIDDEN := 403
  const NOT_FOUND := 404
  const SERVER_ERROR := 500
  const NOT_IMPLEMENTED := 501

  /** What a handler answers: a success status with its `data`, or an error status with the
      JSON `error` field. */
  datatype Response<+T> = Success(code: int, data: T) | Failure(code: int, error: string) {
    predicate IsFailure() { Failure? }
  }

  /** A handler's response together with the collection as it stands after the request. */
  datatype Step<+T, S> = Step(response: Response<T>, store: S)

  /** The outcome of an Express middleware: pass control on (`next()`) or answer at once. */
  datatype Gate<+T> = Next(value: T) | Halt(code: int, error: string)
}
