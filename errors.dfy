/**
 * The application's exception classes and the global error handler that
 * renders whatever a handler passes to `next(err)`.
 */
module Errors {
  import opened Wrappers
  import opened Http

  /** An error object: its `message`, its `statusCode` and its `errors` property. */
  datatype AppError = AppError(message: string, statusCode: Option<int>, errors: Option<ErrorValue>)

  /** JavaScript's `message || fallback` on a string. */
  function OrDefault(message: string, fallback: string): string
  {
    if message == "" then fallback else message
  }

  function BadRequestException(message: string): AppError
  {
    AppError(OrDefault(message, "Bad request"), Some(400), None)
  }

  function NotFoundException(message: string): AppError
  {
    AppError(OrDefault(message, "The requested resource was not found"), Some(404), None)
  }

  function ServerErrorException(message: string): AppError
  {
    AppError(OrDefault(message, "Internal Server Error"), Some(500), None)
  }

  function UnauthorizedException(message: string): AppError
  {
    AppError(OrDefault(message, "You are not authorized to access this resource"), Some(401), None)
  }

  function ValidationException(errors: ErrorValue): AppError
  {
    AppError("Validation failed", Some(400), Some(errors))
  }

  /**
   * The global error handler: status `err.statusCode || 500`, the message
   * unchanged, and `validationErrors: err.errors || []`; an array is always
   * forwarded, the empty string is not.
   */
  function GlobalErrorHandler(err: AppError): (r: Reply)
    ensures r.body.Failure? && r.body.message == err.message
    ensures r.status == 500 <==> err.statusCode.None? || err.statusCode.value in {0, 500}
    ensures err.statusCode.Some? && err.statusCode.value != 0 ==> r.status == err.statusCode.value
    ensures err.errors.None? ==> r.body.validationErrors == Messages([])
    ensures err.errors.Some? && err.errors.value.Messages? ==> r.body.validationErrors == err.errors.value
    ensures err.errors.Some? && err.errors.value.Text? ==>
              r.body.validationErrors == if err.errors.value.text == "" then Messages([]) else err.errors.value
  {
    var status := if err.statusCode.Some? && err.statusCode.value != 0 then err.statusCode.value else 500;
    var errors := match err.errors
      case None => Messages([])
      case Some(Text(s)) => if s == "" then Messages([]) else Text(s)
      case Some(Messages(l)) => Messages(l);
    Reply(status, Failure(err.message, errors))
  }

  /** What each exception class renders as: its status, and its message or the class's default. */
  lemma ExceptionReplies(message: string, errors: seq<string>)
    ensures GlobalErrorHandler(UnauthorizedException(message))
         == Reply(401, Failure(OrDefault(message, "You are not authorized to access this resource"), Messages([])))
    ensures GlobalErrorHandler(NotFoundException(message))
         == Reply(404, Failure(OrDefault(message, "The requested resource was not found"), Messages([])))
    ensures GlobalErrorHandler(BadRequestException(message))
         == Reply(400, Failure(OrDefault(message, "Bad request"), Messages([])))
    ensures GlobalErrorHandler(ServerErrorException(message))
         == Reply(500, Failure(OrDefault(message, "Internal Server Error"), Messages([])))
    ensures GlobalErrorHandler(ValidationException(Messages(errors)))
         == Reply(400, Failure("Validation failed", Messages(errors)))
  {
  }
}
