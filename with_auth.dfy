/**
 * The auth-then-handle wrapper: the key check runs first, the handler only
 * if it passes, and every error from either goes to the mapper instead of
 * propagating.
 */
module WithAuth {
  import opened Wrappers
  import opened Errors
  import opened ErrorHandler
  import Auth

  /** An inbound request: its authorization header, and the rest, which only the handler reads. */
  datatype Request = Request(authorization: Option<string>, rest: string)

  /**
   * What an awaited handler did: the reply it wrote, if any, and the error it
   * threw afterwards, if any.
   */
  datatype HandlerRun = HandlerRun(written: Option<Reply>, raised: Option<Thrown>)

  /** The reply the wrapped handler leaves on a fresh response. */
  function GuardedReply(apiKey: string, handler: Request -> HandlerRun, req: Request): (r: Option<Reply>)
    requires apiKey != ""
    ensures Auth.ValidateApiKey(apiKey, req.authorization).Err? ==> r.Some? && r.value.status == 401
  {
    match Auth.ValidateApiKey(apiKey, req.authorization)
    case Err(e) => Some(ErrorReply(App(e)))
    case Ok(_) =>
      var run := handler(req);
      if run.written.Some? then run.written
      else if run.raised.Some? then Some(ErrorReply(run.raised.value))
      else None
  }

  /**
   * `withAuth(handler)` applied to one request. `invoked` tells whether the
   * handler ran; `routed` is the error handed to the mapper, if any.
   */
  method GuardedHandle(apiKey: string, handler: Request -> HandlerRun, req: Request, res: Response)
    returns (invoked: bool, routed: Option<Thrown>)
    requires apiKey != ""
    requires res.Valid() && !res.headersSent
    modifies res
    ensures res.Valid()
    ensures invoked <==> Auth.ValidateApiKey(apiKey, req.authorization).Ok?
    ensures !invoked ==> routed == Some(App(Auth.ValidateApiKey(apiKey, req.authorization).error))
    ensures invoked ==> routed == handler(req).raised
    ensures res.sent == GuardedReply(apiKey, handler, req)
  {
    var auth := Auth.ValidateApiKey(apiKey, req.authorization);
    if auth.Err? {
      invoked, routed := false, Some(App(auth.error));
      HandleError(App(auth.error), res);
      return;
    }
    invoked := true;
    var run := handler(req);
    if run.written.Some? {
      res.Send(run.written.value.status, run.written.value.body);
    }
    routed := run.raised;
    if run.raised.Some? {
      HandleError(run.raised.value, res);
    }
  }

  /**
   * A rejected request gets the 401 reply of its auth error, the same for
   * every handler: the handler plays no part.
   */
  lemma RejectedRequestIgnoresHandler(apiKey: string, h1: Request -> HandlerRun, h2: Request -> HandlerRun, req: Request)
    requires apiKey != ""
    requires Auth.ValidateApiKey(apiKey, req.authorization).Err?
    ensures GuardedReply(apiKey, h1, req) == GuardedReply(apiKey, h2, req)
    ensures GuardedReply(apiKey, h1, req).Some?
    ensures GuardedReply(apiKey, h1, req).value.status == 401
    ensures GuardedReply(apiKey, h1, req).value.body.code == "UNAUTHORIZED"
  {
    var e := Auth.ValidateApiKey(apiKey, req.authorization).error;
    assert e.Unauthorized?;
    assert GuardedReply(apiKey, h1, req) == Some(ErrorReply(App(e)));
    assert GuardedReply(apiKey, h2, req) == Some(ErrorReply(App(e)));
  }

  /** A handler error on a response not yet written becomes the mapped reply. */
  lemma HandlerErrorIsMapped(apiKey: string, handler: Request -> HandlerRun, req: Request)
    requires apiKey != ""
    requires Auth.ValidateApiKey(apiKey, req.authorization).Ok?
    requires handler(req).written.None? && handler(req).raised.Some?
    ensures GuardedReply(apiKey, handler, req) == Some(ErrorReply(handler(req).raised.value))
  {
  }

  /** When the check passes, whatever the handler wrote is what the client gets. */
  lemma HandlerReplyPassesThrough(apiKey: string, handler: Request -> HandlerRun, req: Request)
    requires apiKey != ""
    requires Auth.ValidateApiKey(apiKey, req.authorization).Ok?
    requires handler(req).written.Some?
    ensures GuardedReply(apiKey, handler, req) == handler(req).written
  {
  }
}
