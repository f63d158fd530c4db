/** CustomExceptionHandler: every handled exception becomes a response status
    carrying the exception's message. */
module ExceptionHandler {
  import opened Errors

  datatype HttpStatus = BadRequest | Unauthorized | Forbidden | InternalServerError {
    function Code(): int {
      match this
      case BadRequest => 400
      case Unauthorized => 401
      case Forbidden => 403
      case InternalServerError => 500
    }
  }

  /** The `ResponseStatusException` a handler returns. */
  datatype ResponseStatus = ResponseStatus(status: HttpStatus, reason: string)

  /** The exceptions that report a failing operation rather than a bad request. */
  predicate IsOperationFailure(k: ErrorKind) {
    k.CreateTask? || k.DeleteTask? || k.EditTask? || k.RegisterUser?
  }

  /** The eight `@ExceptionHandler` methods, one case each. */
  function Handle(e: Error): (r: ResponseStatus)
    ensures r.reason == e.message
    ensures r.status.Code() == 400 <==> e.kind.InputData? || e.kind.MessageNotReadable?
    ensures r.status.Code() == 401 <==> e.kind.Unauthorized?
    ensures r.status.Code() == 403 <==> e.kind.Permission?
    ensures r.status.Code() == 500 <==> IsOperationFailure(e.kind)
  {
    match e.kind
    case CreateTask => ResponseStatus(InternalServerError, e.message)
    case DeleteTask => ResponseStatus(InternalServerError, e.message)
    case EditTask => ResponseStatus(InternalServerError, e.message)
    case InputData => ResponseStatus(BadRequest, e.message)
    case RegisterUser => ResponseStatus(InternalServerError, e.message)
    case Unauthorized => ResponseStatus(HttpStatus.Unauthorized, e.message)
    case MessageNotReadable => ResponseStatus(BadRequest, e.message)
    case Permission => ResponseStatus(Forbidden, e.message)
  }
}
