/** The `CustomErrors` factories: each fills the status, type and message it
    is named for, unless the caller supplied them, and hands the result to the
    `RequestError` constructor through `createError`. */
module Errors {
  import opened Values
  import opened RequestErrors

  /** `Partial<RequestErrorContext>`: every field may be left out. A factory
      called with no argument behaves as with `NoOverrides`. */
  datatype Partial = Partial(
    logLevel: Option<LogLevel>,
    statusCode: Option<int>,
    errType: Option<string>,
    message: Option<string>,
    context: Option<Record>,
    stack: Stack)

  const NoOverrides := Partial(None, None, None, None, None, NoStack)

  /** `createError`: the fall-back defaults for whatever is still missing. */
  function CreateError(p: Partial): (e: ErrorState)
    ensures e.level == p.logLevel.GetOr(INFO) && e.levelName == EnumName(e.level)
    ensures e.statusCode == p.statusCode.GetOr(500)
    ensures e.errType == p.errType.GetOr("unknown_error")
    ensures e.message == p.message.GetOr("An unexpected error occurred")
    ensures e.context == p.context.GetOr(map[])
    ensures e.stack == KeptStack(p.stack) && e.stacktrace == Some(TraceOf(e.stack))
    ensures e.extra == []
  {
    Construct(ErrorParams(
      Some(p.logLevel.GetOr(INFO)),
      p.statusCode.GetOr(500),
      p.errType.GetOr("unknown_error"),
      p.message.GetOr("An unexpected error occurred"),
      p.context,
      p.stack))
  }

  /** The ten public factories. */
  datatype Kind =
    | RouteNotFound
    | MethodNotAllowed
    | Unauthorized
    | Forbidden
    | BadRequest
    | ResourceNotFound
    | InternalServer
    | ServiceUnavailable
    | Validation
    | AccountNotFound

  function DefaultStatus(k: Kind): int {
    match k
    case RouteNotFound => 404
    case MethodNotAllowed => 405
    case Unauthorized => 401
    case Forbidden => 403
    case BadRequest => 400
    case ResourceNotFound => 404
    case InternalServer => 500
    case ServiceUnavailable => 503
    case Validation => 400
    case AccountNotFound => 404
  }

  function DefaultType(k: Kind): string {
    match k
    case RouteNotFound => "route_not_found"
    case MethodNotAllowed => "method_not_allowed"
    case Unauthorized => "unauthorized"
    case Forbidden => "forbidden"
    case BadRequest => "bad_request"
    case ResourceNotFound => "resource_not_found"
    case InternalServer => "internal_server_error"
    case ServiceUnavailable => "service_unavailable"
    case Validation => "validation_error"
    case AccountNotFound => "account_not_found_error"
  }

  function DefaultMessage(k: Kind): string {
    match k
    case RouteNotFound => "The requested source was not found"
    case MethodNotAllowed => "The requested method is not allowed for the resource"
    case Unauthorized => "You are not authorized to access this resource"
    case Forbidden => "You are not allowed to access this resource"
    case BadRequest => "The request is invalid or cannot be served"
    case ResourceNotFound => "The requested resource is not found"
    case InternalServer => "The server encountered an error while processing the request"
    case ServiceUnavailable => "The service is currently unavailable. Please try again later."
    case Validation => "The request failed validation"
    case AccountNotFound => "The requested account was not found"
  }

  /** The factory of kind `k` applied to the caller's partial error `e`:
      every field the caller gave (a `??` test, so a status of 0 is kept) wins
      over the factory's default; context and stack pass through; a missing
      level is INFO. */
  function Make(k: Kind, e: Partial): (r: ErrorState)
    ensures r.statusCode == e.statusCode.GetOr(DefaultStatus(k))
    ensures r.errType == e.errType.GetOr(DefaultType(k))
    ensures r.message == e.message.GetOr(DefaultMessage(k))
    ensures r.level == e.logLevel.GetOr(INFO) && r.levelName == EnumName(r.level)
    ensures r.context == e.context.GetOr(map[])
    ensures r.stack == KeptStack(e.stack) && r.stacktrace == Some(TraceOf(r.stack))
    ensures r.extra == []
  {
    CreateError(Partial(
      e.logLevel,
      Some(e.statusCode.GetOr(DefaultStatus(k))),
      Some(e.errType.GetOr(DefaultType(k))),
      Some(e.message.GetOr(DefaultMessage(k))),
      e.context,
      e.stack))
  }

  /** A factory called through the module's exports: the methods are
      destructured off the `CustomErrors` instance, so the call runs with no
      receiver, and reading `this.createError` throws a `TypeError` before
      any error is built. */
  const UnboundMessage := "Cannot read properties of undefined (reading 'createError')"

  function UnboundFactoryCall(k: Kind, e: Partial): (t: Thrown)
    ensures t.PlainError? && t.name == "TypeError" && t.message == UnboundMessage
  {
    PlainError("TypeError", UnboundMessage, Captured)
  }

  /** The status each factory answers with when the caller gives none. */
  lemma DefaultStatuses(k: Kind)
    ensures var s := Make(k, NoOverrides).statusCode;
      && (s == 404 <==> k in {RouteNotFound, ResourceNotFound, AccountNotFound})
      && (s == 405 <==> k == MethodNotAllowed)
      && (s == 401 <==> k == Unauthorized)
      && (s == 403 <==> k == Forbidden)
      && (s == 400 <==> k in {BadRequest, Validation})
      && (s == 500 <==> k == InternalServer)
      && (s == 503 <==> k == ServiceUnavailable)
  {
    assert Make(k, NoOverrides).statusCode == DefaultStatus(k);
    match k
    case RouteNotFound =>
    case MethodNotAllowed =>
    case Unauthorized =>
    case Forbidden =>
    case BadRequest =>
    case ResourceNotFound =>
    case InternalServer =>
    case ServiceUnavailable =>
    case Validation =>
    case AccountNotFound =>
  }

  /** Each factory has a type string of its own, so `type` identifies the factory. */
  lemma DefaultTypesDistinct(a: Kind, b: Kind)
    ensures Make(a, NoOverrides).errType == Make(b, NoOverrides).errType ==> a == b
  {
    KindOfDefaultType(a);
    KindOfDefaultType(b);
  }

  /** The factory a default `type` string belongs to. */
  function KindOfType(t: string): Option<Kind> {
    if t == "route_not_found" then Some(RouteNotFound)
    else if t == "method_not_allowed" then Some(MethodNotAllowed)
    else if t == "unauthorized" then Some(Unauthorized)
    else if t == "forbidden" then Some(Forbidden)
    else if t == "bad_request" then Some(BadRequest)
    else if t == "resource_not_found" then Some(ResourceNotFound)
    else if t == "internal_server_error" then Some(InternalServer)
    else if t == "service_unavailable" then Some(ServiceUnavailable)
    else if t == "validation_error" then Some(Validation)
    else if t == "account_not_found_error" then Some(AccountNotFound)
    else None
  }

  lemma KindOfDefaultType(k: Kind)
    ensures KindOfType(DefaultType(k)) == Some(k)
  {
    match k
    case RouteNotFound =>
    case MethodNotAllowed =>
    case Unauthorized =>
    case Forbidden =>
    case BadRequest =>
    case ResourceNotFound =>
    case InternalServer =>
    case ServiceUnavailable =>
    case Validation =>
    case AccountNotFound =>
  }

  /** A caller-supplied status always wins, even one that is falsy in JavaScript. */
  lemma ZeroStatusKept(k: Kind)
    ensures Make(k, NoOverrides.(statusCode := Some(0))).statusCode == 0
  {
  }
}
