/**
 * The error-to-response mapper and the response object it writes to.
 */
module ErrorHandler {
  import opened Wrappers
  import opened Errors

  /** A JSON envelope: `{success: false, error: {code, message}}` or `{success: true, data}`. */
  datatype Body =
    | ErrorEnvelope(code: string, message: string)
      /** A success envelope; its payload is opaque to the mapper. */
    | DataEnvelope(data: string)
  {
    /** The envelope's `success` field. */
    predicate Success() { DataEnvelope? }
  }

  /** A status line and JSON body, written once. */
  datatype Reply = Reply(status: int, body: Body)

  /** The response object: once a reply is written, its headers count as sent. */
  class Response {
    var headersSent: bool
    var sent: Option<Reply>

    ghost predicate Valid()
      reads this
    {
      headersSent <==> sent.Some?
    }

    constructor ()
      ensures Valid() && !headersSent
    {
      headersSent := false;
      sent := None;
    }

    /** `res.status(status).json(body)`. */
    method Send(status: int, body: Body)
      requires Valid() && !headersSent
      modifies this
      ensures Valid() && sent == Some(Reply(status, body))
    {
      sent := Some(Reply(status, body));
      headersSent := true;
    }
  }

  const FALLBACK_CODE: string := "ERROR"
  const INTERNAL_CODE: string := "INTERNAL_ERROR"
  const INTERNAL_MESSAGE: string := "An unexpected error occurred"

  /** `error.code || 'ERROR'`: an absent or empty code falls back. */
  function CodeOrFallback(code: Option<string>): (c: string)
    ensures c != ""
    ensures code.Some? && code.value != "" ==> c == code.value
    ensures code.None? || code.value == "" ==> c == FALLBACK_CODE
  {
    if code.Some? && code.value != "" then code.value else FALLBACK_CODE
  }

  /**
   * The reply `handleError` writes for a thrown value: a taxonomy error keeps
   * its status, code and message; anything else becomes a generic 500 that
   * reveals nothing about the cause.
   */
  function ErrorReply(error: Thrown): (r: Reply)
    ensures !r.body.Success()
    ensures error.App? ==> r.status == error.error.StatusCode()
    ensures error.App? ==> r.body.message == error.error.Message()
    ensures error.App? ==> r.body.code == CodeOrFallback(error.error.Code())
    ensures error.Foreign? ==> r == Reply(500, ErrorEnvelope(INTERNAL_CODE, INTERNAL_MESSAGE))
  {
    match error
    case App(e) => Reply(e.StatusCode(), ErrorEnvelope(CodeOrFallback(e.Code()), e.Message()))
    case Foreign(_) => Reply(500, ErrorEnvelope(INTERNAL_CODE, INTERNAL_MESSAGE))
  }

  /** The replies for the three subclasses carry their fixed status and code. */
  lemma SubclassReplies(message: string, resource: string)
    ensures ErrorReply(App(Validation(message))) == Reply(400, ErrorEnvelope("VALIDATION_ERROR", message))
    ensures ErrorReply(App(NotFound(resource))) == Reply(404, ErrorEnvelope("NOT_FOUND", resource + " not found"))
    ensures ErrorReply(App(Unauthorized(message))) == Reply(401, ErrorEnvelope("UNAUTHORIZED", message))
  {
  }

  /** A bare error thrown without a code is answered with the fallback code `ERROR`. */
  lemma CodelessErrorReply(message: string, status: int)
    ensures ErrorReply(App(Base(message, status, None))) == Reply(status, ErrorEnvelope("ERROR", message))
    ensures ErrorReply(App(Base(message, status, Some("")))) == Reply(status, ErrorEnvelope("ERROR", message))
  {
  }

  /** Two non-taxonomy errors are indistinguishable in the reply, whatever they carried. */
  lemma ForeignErrorsIndistinguishable(a: string, b: string)
    ensures ErrorReply(Foreign(a)) == ErrorReply(Foreign(b))
  {
  }

  /**
   * `handleError`: nothing is written once headers are sent; otherwise the
   * mapped reply is.
   */
  method HandleError(error: Thrown, res: Response)
    requires res.Valid()
    modifies res
    ensures res.Valid()
    ensures old(res.headersSent) ==> res.sent == old(res.sent)
    ensures !old(res.headersSent) ==> res.sent == Some(ErrorReply(error))
  {
    if res.headersSent {
      return;
    }
    var reply := ErrorReply(error);
    res.Send(reply.status, reply.body);
  }
}
