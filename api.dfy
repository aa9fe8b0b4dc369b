/**
 * The error side of every handler (src/app.js): an error is either an
 * `ApiError` carrying its own status, or anything else that was thrown
 * (a `TypeError`, a driver failure); the error middleware turns it into
 * exactly one HTTP response.
 */
module Api {

  import opened Base

  datatype Error =
    | ApiError(statusCode: int, message: string, errors: seq<string>)
    | OtherError(message: string)

  /** `new ApiError(status, message)`, with no structured details. */
  function Fail(status: int, message: string): Error
  {
    ApiError(status, message, [])
  }

  /**
   * What a handler does with a request: answer it with a status, data and a message (an
   * `ApiResponse`), answer it directly with an error object as the body, without going through
   * the error middleware (`res.status(s).json(new ApiError(...))`), or throw.
   */
  datatype Outcome<T> =
    | Ok(status: int, data: T, message: string)
    | Replied(status: int, body: Error)
    | Throw(error: Error)
  {
    predicate FailsWith(status: int)
    {
      Throw? && error.ApiError? && error.statusCode == status
    }
  }

  /** The error envelope: `success` is always present; `errors` only for an `ApiError`. */
  datatype ErrorBody = ErrorBody(success: bool, message: string, errors: Option<seq<string>>)

  datatype ErrorResponse = ErrorResponse(status: int, body: ErrorBody)

  /** The error-handling middleware. */
  function HandleError(e: Error): (r: ErrorResponse)
    ensures !r.body.success
    ensures e.ApiError? ==> r.status == e.statusCode && r.body.message == e.message
    ensures e.ApiError? ==> r.body.errors == Some(e.errors)
    ensures e.OtherError? ==> r.status == 500 && r.body.message == "Internal Server Error"
    ensures e.OtherError? ==> r.body.errors.None?
  {
    match e
    case ApiError(status, message, errors) =>
      ErrorResponse(status, ErrorBody(false, message, Some(errors)))
    case OtherError(_) =>
      ErrorResponse(500, ErrorBody(false, "Internal Server Error", None))
  }

  /** A thrown value that is not an `ApiError` never shows its own message: all of them get one
      and the same response. */
  lemma OtherErrorsIndistinguishable(e1: Error, e2: Error)
    requires e1.OtherError? && e2.OtherError?
    ensures HandleError(e1) == HandleError(e2)
  {
  }

  /** Two responses that are equal come from errors with the same status and message: only the
      `ApiError` branch lets the status and the message through, unchanged. */
  lemma HandleErrorKeepsApiErrors(e1: Error, e2: Error)
    requires e1.ApiError? && e2.ApiError?
    ensures HandleError(e1) == HandleError(e2) <==> e1 == e2
  {
  }

  /** The HTTP status a client sees for an outcome. */
  function StatusOf<T>(o: Outcome<T>): int
  {
    match o
    case Ok(status, _, _) => status
    case Replied(status, _) => status
    case Throw(e) => HandleError(e).status
  }
}
