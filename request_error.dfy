/** The `RequestError` class of the middleware layer: log levels and their
    mapping to logger method names, the constructor's defaults, conversion of
    an unhandled error, the chaining `withTags`/`withExtras` mutators, the
    `_omit` filter and the `format` projection used for logging. */
module RequestErrors {
  import opened Values

  // ---------------------------------------------------------------------------
  // Log levels

  /** `ELogLevel`, a numeric enum. */
  datatype LogLevel = TRACE | DEBUG | INFO | WARN | ERROR | FATAL

  /** The numeric value of each enum member. */
  function Code(l: LogLevel): int {
    match l
    case TRACE => 10
    case DEBUG => 20
    case INFO => 30
    case WARN => 40
    case ERROR => 50
    case FATAL => 60
  }

  /** `ELogLevel[n]`: the reverse mapping of a numeric enum gives the member's name. */
  function EnumName(l: LogLevel): string {
    match l
    case TRACE => "TRACE"
    case DEBUG => "DEBUG"
    case INFO => "INFO"
    case WARN => "WARN"
    case ERROR => "ERROR"
    case FATAL => "FATAL"
  }

  /** ASCII lower-casing, enough for the enum names. */
  function Lower(s: string): string {
    seq(|s|, i requires 0 <= i < |s| => if 'A' <= s[i] <= 'Z' then (s[i] as int + 32) as char else s[i])
  }

  /** `mapToLogLevel`: the logger method that records an error of level `l`.
      It is the lower-cased enum name, and its numeric code orders levels as
      the logger does. */
  function MapToLogLevel(l: LogLevel): (name: string)
    ensures name == Lower(EnumName(l))
    ensures name in {"trace", "debug", "info", "warn", "error", "fatal"}
  {
    match l
    case TRACE => "trace"
    case DEBUG => "debug"
    case INFO => "info"
    case WARN => "warn"
    case ERROR => "error"
    case FATAL => "fatal"
  }

  /** No two levels are logged through the same method, and no two share a code. */
  lemma MapToLogLevelInjective(a: LogLevel, b: LogLevel)
    ensures MapToLogLevel(a) == MapToLogLevel(b) ==> a == b
    ensures Code(a) == Code(b) ==> a == b
    ensures EnumName(a) == EnumName(b) ==> a == b
  {
  }

  // ---------------------------------------------------------------------------
  // Stacks

  /** The `stack` of an error: absent (`undefined`), given as text, or captured
      by the runtime (`Error.captureStackTrace`), whose text is not modelled. */
  datatype Stack = NoStack | Given(text: string) | Captured

  /** `stack.split("\n")`; a captured stack gives frames whose text the model
      does not know. */
  datatype Trace = Frames(lines: seq<string>) | CapturedFrames

  /** Joins lines with a newline between each two. */
  function Join(lines: seq<string>): string
    requires |lines| >= 1
  {
    if |lines| == 1 then lines[0] else lines[0] + "\n" + Join(lines[1..])
  }

  /** JavaScript's `s.split("\n")`: never empty, no piece holds a newline, and
      joining the pieces gives back the text. */
  function Split(s: string): (lines: seq<string>)
    ensures |lines| >= 1
    ensures forall i :: 0 <= i < |lines| ==> '\n' !in lines[i]
    ensures Join(lines) == s
  {
    if s == [] then [""]
    else
      var rest := Split(s[1..]);
      if s[0] == '\n' then
        assert s == "\n" + s[1..];
        [""] + rest
      else
        var lines := [[s[0]] + rest[0]] + rest[1..];
        assert lines[1..] == rest[1..];
        if |rest| == 1 then
          assert s == [s[0]] + s[1..];
          lines
        else
          assert Join(rest) == rest[0] + "\n" + Join(rest[1..]);
          assert s == [s[0]] + Join(rest);
          assert Join(lines) == ([s[0]] + rest[0]) + "\n" + Join(rest[1..]);
          lines
  }

  function TraceOf(stack: Stack): Trace {
    match stack
    case Given(t) => Frames(Split(t))
    case _ => CapturedFrames
  }

  // ---------------------------------------------------------------------------
  // The error's state

  /** `RequestErrorContext`: the arguments of the constructor. */
  datatype ErrorParams = ErrorParams(
    logLevel: Option<LogLevel>,
    statusCode: int,
    errType: string,
    message: string,
    context: Option<Record>,
    stack: Stack)

  /** The fields of a `RequestError` object. `stacktrace` is `None` once the
      response handler has deleted it. */
  datatype ErrorState = ErrorState(
    level: LogLevel,
    levelName: string,
    statusCode: int,
    errType: string,
    message: string,
    context: Record,
    extra: seq<Record>,
    stack: Stack,
    stacktrace: Option<Trace>)

  /** `if (stack) this.stack = stack; else Error.captureStackTrace(...)`: an
      absent or empty stack is replaced by one the runtime captures. */
  function KeptStack(stack: Stack): (r: Stack)
    ensures r != NoStack
    ensures r == Captured || r == stack
    ensures r == stack <==> (stack.Given? && stack.text != "") || stack == Captured
  {
    match stack
    case Given(t) => if t != "" then stack else Captured
    case _ => Captured
  }

  /** The object the constructor builds from its arguments. */
  function Construct(p: ErrorParams): (e: ErrorState)
    ensures e.level == p.logLevel.GetOr(INFO)
    ensures e.levelName == EnumName(e.level)
    ensures e.statusCode == p.statusCode && e.errType == p.errType && e.message == p.message
    ensures e.context == p.context.GetOr(map[])
    ensures e.extra == []
    ensures e.stack == KeptStack(p.stack)
    ensures e.stacktrace.Some? && e.stacktrace.value == TraceOf(e.stack)
    ensures (forall t :: p.stack == Given(t) && t != "" ==> e.stacktrace == Some(Frames(Split(t))))
  {
    var level := if p.logLevel.Some? then p.logLevel.value else INFO;
    var stack := KeptStack(p.stack);
    ErrorState(level, EnumName(level), p.statusCode, p.errType, p.message,
               if p.context.Some? then p.context.value else map[], [],
               stack, Some(TraceOf(stack)))
  }

  /** `RequestError.convertFrom`: wraps an error that no handler classified. */
  function ConvertFrom(name: string, message: string, stack: Stack): (e: ErrorState)
    ensures e.level == ERROR && e.levelName == "ERROR"
    ensures e.statusCode == 500 && e.errType == "internal_server_error"
    ensures e.message == "This error was not handled by the error handler."
    ensures e.context.Keys == {"message", "name"}
    ensures e.context["message"] == Str(message) && e.context["name"] == Str(name)
    ensures e.extra == [] && e.stack == KeptStack(stack)
  {
    Construct(ErrorParams(Some(ERROR), 500, "internal_server_error",
                          "This error was not handled by the error handler.",
                          Some(map["message" := Str(message), "name" := Str(name)]), stack))
  }

  /** What a `throw` carries in this backend: the two library errors the
      response handler recognises, a `RequestError`, or any other `Error`. */
  datatype Thrown =
    | TokenExpiredError(message: string, stack: Stack)
    | ForbiddenError(message: string, stack: Stack)
    | Raised(error: ErrorState)
    | PlainError(name: string, message: string, stack: Stack)

  // ---------------------------------------------------------------------------
  // withTags / withExtras

  function Max(a: int, b: int): int { if a < b then b else a }

  /** `Object.assign(target, source)` on two arrays: each index the source has
      is copied over the target's, the target's later entries stay. */
  function Overlay<T>(target: seq<T>, source: seq<T>): (r: seq<T>)
    ensures |r| == Max(|target|, |source|)
    ensures forall i :: 0 <= i < |r| ==> r[i] == if i < |source| then source[i] else target[i]
  {
    if |source| >= |target| then source else source + target[|source|..]
  }

  /** The index properties `Object.assign` copies from the value found under
      `tags`: an array's elements, a string's characters, nothing otherwise. */
  function AssignSource(v: Value): seq<Value> {
    match v
    case List(items) => items
    case Str(s) => seq(|s|, i requires 0 <= i < |s| => Str([s[i]]))
    case _ => []
  }

  /** The state after `withTags(...tags)`: `context.tags` becomes the given tags
      overlaid with whatever `context.tags` held; nothing else changes. */
  function AddTags(e: ErrorState, tags: seq<Value>): (r: ErrorState)
    ensures r.context.Keys == e.context.Keys + {"tags"}
    ensures forall k :: k in e.context && k != "tags" ==> r.context[k] == e.context[k]
    ensures r == e.(context := r.context)
    ensures "tags" !in e.context ==> r.context["tags"] == List(tags)
    ensures "tags" in e.context ==>
      r.context["tags"] == List(Overlay(tags, AssignSource(e.context["tags"])))
  {
    var prior := if "tags" in e.context then AssignSource(e.context["tags"]) else [];
    assert "tags" !in e.context ==> Overlay(tags, prior) == tags;
    e.(context := e.context["tags" := List(Overlay(tags, prior))])
  }

  /** The state after `withExtras(...extras)`: the given extras overlaid with the
      extras already held; nothing else changes. */
  function AddExtras(e: ErrorState, extras: seq<Record>): (r: ErrorState)
    ensures |r.extra| == Max(|extras|, |e.extra|)
    ensures forall i :: 0 <= i < |e.extra| ==> r.extra[i] == e.extra[i]
    ensures forall i :: |e.extra| <= i < |extras| ==> r.extra[i] == extras[i]
    ensures r == e.(extra := r.extra)
  {
    e.(extra := Overlay(extras, e.extra))
  }

  /** Tags already present win position by position: tagging an error whose
      `context.tags` is an array at least as long drops the new tags. */
  lemma EarlierTagsWin(e: ErrorState, tags: seq<Value>, prior: seq<Value>)
    requires "tags" in e.context && e.context["tags"] == List(prior)
    requires |tags| <= |prior|
    ensures AddTags(e, tags).context["tags"] == List(prior)
  {
    assert Overlay(tags, prior) == prior;
  }

  // ---------------------------------------------------------------------------
  // _omit / format

  /** `_omit(obj, keys)`: the entries whose key is not excluded, values unchanged. */
  function Omit(m: Record, keys: set<string>): (r: Record)
    ensures r.Keys == m.Keys - keys
    ensures forall k :: k in r ==> r[k] == m[k]
  {
    map k | k in m && k !in keys :: m[k]
  }

  function TraceValue(t: Option<Trace>): Value {
    match t
    case None => Undefined
    case Some(Frames(lines)) => List(seq(|lines|, i requires 0 <= i < |lines| => Str(lines[i])))
    case Some(CapturedFrames) => CapturedTrace
  }

  /** The object `format` returns, without the clock, environment and request
      fields (`datetime_iso`, `application`, `request_id`). */
  datatype Formatted = Formatted(
    errType: string,
    message: string,
    context: Record,
    level: int,
    levelName: string,
    statusCode: int,
    extra: seq<Record>)

  /** `format`: the context is `{stacktrace}` overridden by the error's own
      context; unless verbose output is configured, `stacktrace` and
      `exception` are left out and everything else is kept. */
  function Format(e: ErrorState, verbose: bool): (f: Formatted)
    ensures f.errType == e.errType && f.message == e.message && f.statusCode == e.statusCode
    ensures f.level == Code(e.level) && f.levelName == e.levelName && f.extra == e.extra
    ensures forall k :: k in e.context && (verbose || (k != "stacktrace" && k != "exception")) ==>
      k in f.context && f.context[k] == e.context[k]
    ensures !verbose ==> "stacktrace" !in f.context && "exception" !in f.context
    ensures !verbose ==> f.context.Keys == e.context.Keys - {"stacktrace", "exception"}
    ensures verbose ==> f.context.Keys == e.context.Keys + {"stacktrace"}
    ensures verbose && "stacktrace" !in e.context ==> f.context["stacktrace"] == TraceValue(e.stacktrace)
  {
    var merged := map["stacktrace" := TraceValue(e.stacktrace)] + e.context;
    var context := if verbose then merged else Omit(merged, {"stacktrace", "exception"});
    Formatted(e.errType, e.message, context, Code(e.level), e.levelName, e.statusCode, e.extra)
  }

  // ---------------------------------------------------------------------------
  // The object

  class RequestError {
    var level: LogLevel
    var levelName: string
    var statusCode: int
    var errType: string
    var message: string
    var context: Record
    var extra: seq<Record>
    var stack: Stack
    var stacktrace: Option<Trace>

    function State(): ErrorState
      reads this
    {
      ErrorState(level, levelName, statusCode, errType, message, context, extra, stack, stacktrace)
    }

    constructor (p: ErrorParams)
      ensures State() == Construct(p)
    {
      var lvl := if p.logLevel.Some? then p.logLevel.value else INFO;
      var kept := if p.stack.Given? && p.stack.text != "" then p.stack else Captured;
      message := p.message;
      level := lvl;
      levelName := EnumName(lvl);
      statusCode := p.statusCode;
      errType := p.errType;
      context := if p.context.Some? then p.context.value else map[];
      extra := [];
      stack := kept;
      stacktrace := Some(TraceOf(kept));
    }

    /** `withTags`: updates `context.tags` in place and returns this object. */
    method WithTags(tags: seq<Value>) returns (self: RequestError)
      modifies this
      ensures self == this
      ensures State() == AddTags(old(State()), tags)
    {
      var prior := if "tags" in context then AssignSource(context["tags"]) else [];
      context := context["tags" := List(Overlay(tags, prior))];
      self := this;
    }

    /** `withExtras`: replaces `extra` in place and returns this object. */
    method WithExtras(extras: seq<Record>) returns (self: RequestError)
      modifies this
      ensures self == this
      ensures State() == AddExtras(old(State()), extras)
    {
      extra := Overlay(extras, extra);
      self := this;
    }
  }
}
