/** The error-handling middleware: classify whatever was thrown into a
    `RequestError`, log it, drop its stack trace and answer with its status. */
module ErrorHandler {
  import opened Values
  import opened RequestErrors
  import opened Errors

  /** The `switch (true)` of the handler: the first matching case wins. */
  function Classify(t: Thrown): (e: ErrorState)
    ensures t.TokenExpiredError? ==>
      && e.statusCode == 401 && e.errType == "unauthorized" && e.message == "Token expired"
      && e.context == map[] && e.level == INFO && e.stack == KeptStack(t.stack)
    ensures t.ForbiddenError? ==>
      && e.statusCode == 401 && e.errType == "unauthorized"
      && e.message == "You are not authorized to access this resource"
      && e.context == map["exception" := Str(t.message)] && e.stack == KeptStack(t.stack)
    ensures t.Raised? ==> e == t.error
    ensures t.PlainError? ==>
      && e.statusCode == 500 && e.errType == "internal_server_error"
      && e.message == "The server encountered an error while processing the request"
      && e.context == map["exception" := Str(t.message)] && e.stack == KeptStack(t.stack)
    ensures !t.Raised? ==> e.extra == [] && e.stacktrace == Some(TraceOf(e.stack))
    ensures !t.Raised? ==> e.level == INFO && e.levelName == "INFO"
  {
    match t
    case TokenExpiredError(_, stack) =>
      Make(Unauthorized, NoOverrides.(stack := stack, message := Some("Token expired")))
    case ForbiddenError(message, stack) =>
      Make(Unauthorized, NoOverrides.(context := Some(map["exception" := Str(message)]), stack := stack))
    case Raised(error) => error
    case PlainError(_, message, stack) =>
      Make(InternalServer, NoOverrides.(context := Some(map["exception" := Str(message)]), stack := stack))
  }

  /** The JSON `res.json(error)` sends: the error's own enumerable properties.
      `message` and `stack`, which `Error` defines as non-enumerable, are not
      among them, the private fields go out under their own names, and
      `stacktrace` has been deleted just before. */
  datatype ResponseBody = ResponseBody(
    logLevel: int,
    logName: string,
    statusCode: int,
    errType: string,
    context: Record,
    extra: seq<Record>)

  function Serialized(e: ErrorState): (b: ResponseBody)
    ensures b.logLevel == Code(e.level) && b.logName == e.levelName
    ensures b.statusCode == e.statusCode && b.errType == e.errType
    ensures b.context == e.context && b.extra == e.extra
  {
    ResponseBody(Code(e.level), e.levelName, e.statusCode, e.errType, e.context, e.extra)
  }

  /** What the handler does: when headers are already out it only passes on to
      `next`; otherwise it logs the classified error, stack trace included,
      through the method of its level, then sends the error without its stack
      trace under the error's status (and then calls `next`). */
  datatype HandlerResult =
    | NextOnly
    | Responded(status: int, logMethod: string, logged: ErrorState, body: ResponseBody)

  /** The handler with factories that return their `RequestError`. */
  function Handle(t: Thrown, headersSent: bool): (r: HandlerResult)
    ensures headersSent <==> r == NextOnly
    ensures !headersSent ==>
      && r.status == Classify(t).statusCode == r.body.statusCode
      && r.logMethod == MapToLogLevel(Classify(t).level)
      && r.logged == Classify(t)
      && r.body == Serialized(Classify(t))
  {
    if headersSent then NextOnly
    else
      var error := Classify(t);
      Responded(error.statusCode, MapToLogLevel(error.level), error, Serialized(error.(stacktrace := None)))
  }

  /** A `RequestError` is handed to `res.json` as it was raised: same status,
      type, context, extra and level fields; it is logged as it was raised. */
  lemma RaisedPassesThrough(e: ErrorState)
    ensures var r := Handle(Raised(e), false);
      && r.Responded? && r.status == e.statusCode && r.logged == e
      && r.body.errType == e.errType && r.body.context == e.context && r.body.extra == e.extra
      && r.body.logLevel == Code(e.level) && r.body.logName == e.levelName
  {
  }

  /** Only a `RequestError` can produce a status other than 401 or 500. */
  lemma StatusOfUnraised(t: Thrown)
    requires !t.Raised?
    ensures Handle(t, false).status in {401, 500}
    ensures Handle(t, false).status == 500 <==> t.PlainError?
  {
  }

  // ---------------------------------------------------------------------------
  // The handler as written

  /** The handler as written imports the same destructured factories, so each
      of its own factory calls throws too: it either finishes, or rejects with
      the `TypeError` before logging or sending anything. */
  datatype AsWritten = Finished(result: HandlerResult) | HandlerThrew(cause: Thrown)

  function HandleAsWritten(t: Thrown, headersSent: bool): (a: AsWritten)
    ensures a.HandlerThrew? <==> !headersSent && !t.Raised?
    ensures a.Finished? ==> a.result == Handle(t, headersSent)
    ensures a.HandlerThrew? ==> a.cause.PlainError? && a.cause.name == "TypeError"
  {
    if headersSent || t.Raised? then Finished(Handle(t, headersSent))
    else HandlerThrew(UnboundFactoryCall(if t.PlainError? then InternalServer else Unauthorized, NoOverrides))
  }

  /** What reaches the client. A rejection of the async handler is passed on
      by `express-async-errors` to Express's final handler, which answers with
      its own page, and with 500 for an error that carries no status of its
      own, as a `TypeError` does. */
  datatype ClientView = NoResponse | Json(status: int, body: ResponseBody) | FinalHandlerPage(status: int)

  function ClientSees(a: AsWritten): (v: ClientView)
    ensures a.HandlerThrew? ==> v == FinalHandlerPage(500)
    ensures a.Finished? && a.result.Responded? ==> v == Json(a.result.status, a.result.body)
  {
    match a
    case HandlerThrew(_) => FinalHandlerPage(500)
    case Finished(NextOnly) => NoResponse
    case Finished(Responded(status, _, _, body)) => Json(status, body)
  }

  /** The logger method the handler used, if it got as far as logging. */
  function LogMethod(a: AsWritten): (m: Option<string>)
    ensures m.Some? <==> a.Finished? && a.result.Responded?
  {
    if a.Finished? && a.result.Responded? then Some(a.result.logMethod) else None
  }

  /** As written, anything thrown that is not a `RequestError` never gets the
      JSON error of the classification: the handler's own factory call throws
      before its logger call, and Express's final handler answers 500. */
  lemma UnraisedReachesFinalHandler(t: Thrown)
    requires !t.Raised?
    ensures ClientSees(HandleAsWritten(t, false)) == FinalHandlerPage(500)
    ensures LogMethod(HandleAsWritten(t, false)) == None
  {
  }

  /** Through the exports, no factory's error reaches the client: the call
      throws a `TypeError`, the handler's own factory call throws again, and
      the client gets Express's 500 page before the handler's logger is
      reached. The bound factory's error would be sent as JSON under the
      factory's own status. */
  lemma UnboundFactoriesReachFinalHandler(k: Kind, e: Partial)
    ensures var a := HandleAsWritten(UnboundFactoryCall(k, e), false);
      ClientSees(a) == FinalHandlerPage(500) && LogMethod(a) == None
    ensures var b := Make(k, NoOverrides);
      ClientSees(Finished(Handle(Raised(b), false))) == Json(DefaultStatus(k), Serialized(b))
  {
    var b := Make(k, NoOverrides);
    assert Serialized(b.(stacktrace := None)) == Serialized(b);
  }
}
