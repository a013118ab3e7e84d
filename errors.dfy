/**
 * The error taxonomy. The class hierarchy of the source (a base error with a
 * status code and an optional machine code, and three subclasses with fixed
 * status and code) becomes one tagged datatype; `instanceof AppError` holds
 * for every variant.
 */
module Errors {
  import opened Wrappers

  datatype AppError =
      /** A bare `AppError(message, statusCode, code)`. */
    | Base(baseMessage: string, baseStatus: int, baseCode: Option<string>)
      /** `ValidationError(message)`. */
    | Validation(validationMessage: string)
      /** `NotFoundError(resource)`. */
    | NotFound(resource: string)
      /** `UnauthorizedError(message)`. */
    | Unauthorized(unauthorizedMessage: string)
  {
    /** The HTTP status the error carries. */
    function StatusCode(): (s: int)
      ensures !Base? ==> 400 <= s < 500
    {
      match this
      case Base(_, status, _) => status
      case Validation(_) => 400
      case NotFound(_) => 404
      case Unauthorized(_) => 401
    }

    /** The machine-readable code, absent only when a bare error was given none. */
    function Code(): (c: Option<string>)
      ensures !Base? ==> c.Some? && c.value != ""
    {
      match this
      case Base(_, _, code) => code
      case Validation(_) => Some("VALIDATION_ERROR")
      case NotFound(_) => Some("NOT_FOUND")
      case Unauthorized(_) => Some("UNAUTHORIZED")
    }

    /** The human-readable message. */
    function Message(): (message: string)
      ensures NotFound? ==> |message| == |resource| + 10 && message[..|resource|] == resource
    {
      match this
      case Base(message, _, _) => message
      case Validation(message) => message
      case NotFound(resource) => resource + " not found"
      case Unauthorized(message) => message
    }
  }

  /** The status a bare error gets when none is passed. */
  const DEFAULT_STATUS: int := 500

  /** The message an `UnauthorizedError` gets when none is passed. */
  const DEFAULT_UNAUTHORIZED_MESSAGE: string := "Unauthorized"

  /** `new AppError(message, statusCode?, code?)`, with its default status. */
  function NewAppError(message: string, statusCode: Option<int>, code: Option<string>): (e: AppError)
    ensures e.Message() == message && e.Code() == code
    ensures statusCode.None? ==> e.StatusCode() == DEFAULT_STATUS
    ensures statusCode.Some? ==> e.StatusCode() == statusCode.value
  {
    Base(message, if statusCode.Some? then statusCode.value else DEFAULT_STATUS, code)
  }

  /** `new UnauthorizedError(message?)`, with its default message. */
  function NewUnauthorizedError(message: Option<string>): (e: AppError)
    ensures e.StatusCode() == 401 && e.Code() == Some("UNAUTHORIZED")
    ensures message.None? ==> e.Message() == DEFAULT_UNAUTHORIZED_MESSAGE
    ensures message.Some? ==> e.Message() == message.value
  {
    Unauthorized(if message.Some? then message.value else DEFAULT_UNAUTHORIZED_MESSAGE)
  }

  /** The fixed status, code and message each subclass passes to the base. */
  lemma SubclassFields(message: string, resource: string)
    ensures Validation(message).StatusCode() == 400
    ensures Validation(message).Code() == Some("VALIDATION_ERROR")
    ensures Validation(message).Message() == message
    ensures NotFound(resource).StatusCode() == 404
    ensures NotFound(resource).Code() == Some("NOT_FOUND")
    ensures NotFound(resource).Message() == resource + " not found"
    ensures Unauthorized(message).StatusCode() == 401
    ensures Unauthorized(message).Code() == Some("UNAUTHORIZED")
    ensures Unauthorized(message).Message() == message
  {
  }

  /** Among the subclasses, the code alone tells the kind, hence the status. */
  lemma CodeIdentifiesSubclass(a: AppError, b: AppError)
    requires !a.Base? && !b.Base?
    requires a.Code() == b.Code()
    ensures a.StatusCode() == b.StatusCode()
    ensures a.Validation? == b.Validation? && a.NotFound? == b.NotFound? && a.Unauthorized? == b.Unauthorized?
  {
  }

  /** Anything that can be thrown: a taxonomy error, or any other value. */
  datatype Thrown =
    | App(error: AppError)
      /** Any non-`AppError` value; `description` stands for what it carried. */
    | Foreign(description: string)
}
