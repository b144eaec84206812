/**
 * The application's error taxonomy: seven kinds of error, each built with a
 * default message that a caller may replace, and the translation of an error
 * into an HTTP exception whose status depends on the kind alone.
 */
module Errors {
  import opened Wrappers

  /** The seven kinds, in declaration order. */
  datatype ErrorType =
    | NotFound
    | IllegalArgument
    | Forbidden
    | Unauthorized
    | ExternalError
    | Unknown
    | Database

  /** An error value: its message and its kind, both fixed when it is built. */
  datatype GenericError = GenericError(message: string, errorType: ErrorType)

  /** The message each kind's constructor uses when it is given none. */
  function DefaultMessage(t: ErrorType): (m: string)
    ensures m != []
  {
    match t
    case NotFound => "The entity you were looking for does not exist"
    case IllegalArgument => "The provided data is incorrect"
    case Forbidden => "This operation is forbidden"
    case Unauthorized => "The authentication failed"
    case ExternalError => "An error occurred while using an external service"
    case Unknown => "Something unknown happened"
    case Database => "There was an error processing the transaction in the database"
  }

  /**
   * The constructor of the class for kind `t`. A JavaScript default parameter
   * applies only when the argument is omitted, so `message` is None exactly
   * then; an explicit empty message is kept.
   */
  function NewError(t: ErrorType, message: Option<string>): (e: GenericError)
    ensures e.errorType == t
    ensures message.Some? ==> e.message == message.value
    ensures message.None? ==> e.message == DefaultMessage(t)
  {
    GenericError(if message.Some? then message.value else DefaultMessage(t), t)
  }

  /** An HTTP exception: the response text and the status code. */
  datatype HttpException = HttpException(response: string, status: nat)

  const BadRequest: nat := 400
  const UnauthorizedStatus: nat := 401
  const ForbiddenStatus: nat := 403
  const NotFoundStatus: nat := 404
  const InternalServerError: nat := 500
  const BadGateway: nat := 502

  /** The status each kind is reported with. */
  function StatusOf(t: ErrorType): (s: nat)
    ensures 400 <= s < 600
  {
    match t
    case NotFound => NotFoundStatus
    case IllegalArgument => BadRequest
    case Unauthorized => UnauthorizedStatus
    case Forbidden => ForbiddenStatus
    case ExternalError => BadGateway
    case Database => InternalServerError
    case Unknown => InternalServerError
  }

  /**
   * `GenericError.toHttpException`: the exception carries the error's message
   * unchanged and the status of its kind; every kind has a case, so every
   * error is translated.
   */
  function ToHttpException(e: GenericError): (h: HttpException)
    ensures h.response == e.message
    ensures h.status in {400, 401, 403, 404, 500, 502}
  {
    HttpException(e.message, StatusOf(e.errorType))
  }

  /** The status table, one direction per kind. */
  lemma StatusTable(e: GenericError)
    ensures ToHttpException(e).status == 404 <==> e.errorType == NotFound
    ensures ToHttpException(e).status == 400 <==> e.errorType == IllegalArgument
    ensures ToHttpException(e).status == 401 <==> e.errorType == Unauthorized
    ensures ToHttpException(e).status == 403 <==> e.errorType == Forbidden
    ensures ToHttpException(e).status == 502 <==> e.errorType == ExternalError
    ensures ToHttpException(e).status == 500 <==> e.errorType == Database || e.errorType == Unknown
  {
  }

  /** Apart from the two kinds reported as 500, the status tells the kind. */
  lemma StatusIdentifiesKind(e1: GenericError, e2: GenericError)
    requires ToHttpException(e1).status == ToHttpException(e2).status
    requires ToHttpException(e1).status != 500
    ensures e1.errorType == e2.errorType
  {
    StatusTable(e1);
    StatusTable(e2);
  }

  /** Only a database or unknown failure becomes a 500, and only an external failure a 502. */
  lemma ServerSideStatuses(e: GenericError)
    ensures ToHttpException(e).status >= 500 <==>
            e.errorType in {Database, Unknown, ExternalError}
  {
  }

  /** The message given to a constructor is the text of the HTTP exception, whatever the kind. */
  lemma MessageSurvives(t: ErrorType, m: string)
    ensures ToHttpException(NewError(t, Some(m))) == HttpException(m, StatusOf(t))
  {
  }

  /** No two kinds share a default message, so a default-built error's text names its kind. */
  lemma DefaultMessagesDistinct(t1: ErrorType, t2: ErrorType)
    requires DefaultMessage(t1) == DefaultMessage(t2)
    ensures t1 == t2
  {
    DefaultMessageLength(t1);
    DefaultMessageLength(t2);
  }

  /** The seven default messages have seven different lengths. */
  lemma DefaultMessageLength(t: ErrorType)
    ensures |DefaultMessage(t)| == match t
      case NotFound => 46
      case IllegalArgument => 30
      case Forbidden => 27
      case Unauthorized => 25
      case ExternalError => 49
      case Unknown => 26
      case Database => 61
  {
  }

  /** The default is used exactly when no message is passed (an explicit empty message is kept). */
  lemma DefaultOnlyWhenOmitted(t: ErrorType, message: Option<string>)
    ensures NewError(t, message).message == DefaultMessage(t) <==>
            message.None? || message.value == DefaultMessage(t)
  {
  }
}
