/** Failure-compatible results shared by every module of the model.

    The service signals failure in two ways: by raising an HTTP exception that
    the web layer turns into a status code and a `detail` text, or by letting
    some other exception (a `ValueError`, a database `NoResultFound`, a parser
    error) escape, which the web layer reports as an internal error. `Error`
    keeps the two apart. */
module Outcomes {

  datatype Option<+T> = None | Some(value: T)

  datatype Error =
    | HttpError(status: int, detail: string)
    | Raised(exception: string, message: string)

  datatype Result<+T> = Ok(value: T) | Err(error: Error) {

    predicate IsFailure() {
      Err?
    }

    function PropagateFailure<U>(): Result<U>
      requires Err?
    {
      Err(error)
    }

    function Extract(): T
      requires Ok?
    {
      value
    }
  }

  const BadRequest: int := 400
  const Unauthorized: int := 401
  const Forbidden: int := 403
  const NotFound: int := 404
  const UnprocessableEntity: int := 422
  const InternalServerError: int := 500

  /** Python truthiness of a text value: only the empty string is false. */
  predicate TruthyText(s: string) {
    |s| > 0
  }

  /** Python truthiness of an optional text value: `None` and `''` are false. */
  predicate TruthyOpt(o: Option<string>) {
    o.Some? && |o.value| > 0
  }

  /** Python truthiness of an integer: only zero is false. */
  predicate TruthyInt(n: int) {
    n != 0
  }
}
