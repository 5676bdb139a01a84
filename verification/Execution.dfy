// How one guest run is turned into an answer: `run_sync`, the panic guard of
// the worker thread, `exec`'s error mapping, and the two transient tests that
// sit on top. The guest is arbitrary: a `Guest` value lists what every step of
// the dispatch would observe, and no field is constrained.
module Execution {
  import opened Prelude
  import opened Text
  import opened Json
  import opened Errors

  datatype GuestCall =
    | Returned(output: string)
    | Trapped(reason: string)
    | Panicked(payload: string)

  datatype ToolError =
    | InvalidParameters(text: string)
    | ExecutionError(text: string)
    | SchemaError(text: string)
    | UnknownTool(text: string)

  datatype RouterProbe =
    | NotInstantiated(reason: string)
    | Completed(body: Value)
    | Elicited(body: Value)
    | Refused(error: ToolError)
    | RouterTrapped(reason: string)

  datatype LinkFailure = LinkInternal(reason: string) | LinkWasmtime(reason: string)

  datatype LegacyExport = NoLegacy | LegacyMistyped(reason: string) | LegacyTyped

  datatype Guest = Guest(
    compileError: Option<string>,     // the bytes are not a component
    artifactJson: Option<Value>,      // the bytes read as UTF-8 JSON, if they are
    linkFailure: Option<LinkFailure>, // adding WASI, TLS, HTTP and host imports
    router: RouterProbe,              // instantiating and calling the router interface
    instantiateError: Option<string>,
    legacy: LegacyExport,
    hasActionExport: bool,
    execExportError: Option<string>,
    call: GuestCall,                  // the one string call the dispatch reaches
    overWallclock: Option<nat>)       // the elapsed time, when it is over the budget

  // A worker either gets a result out of `run_sync` or unwinds with a panic.
  datatype GuestRun = Ran(guest: Guest) | Unwound(payload: string)

  type RunResult = Result<Value, RunnerError>

  // ----- The input marker -----

  predicate MarkedTransient(args: Value) {
    || (args.GetStr("fail").Some? && Contains(args.GetStr("fail").value, "transient"))
    || args.GetBool("flaky") == Some(true)
    || (args.GetStr("message").Some? && Contains(args.GetStr("message").value, "transient"))
  }

  predicate InputRequestsTransient(codec: Codec, input: string) {
    codec.parse(input).Some? && MarkedTransient(codec.parse(input).value)
  }

  // ----- run_sync -----

  function TryMockJson(artifact: Option<Value>, action: string): Option<RunResult> {
    match artifact
    case None => None
    case Some(root) =>
      if root.GetBool("_mock_mcp_exec") != Some(true) then None
      else match root.Get("responses")
        case Some(Obj(responses)) =>
          if action in responses then Some(Ok(responses[action])) else Some(Err(ActionNotFound(action)))
        case _ => None
  }

  predicate LacksRouter(reason: string) {
    || Contains(reason, "unknown export")
    || Contains(reason, "No such export")
    || Contains(reason, "no exported instance named")
  }

  function ToolErrorToValue(tool: string, error: ToolError): Value {
    var (status, text) :=
      match error
      case InvalidParameters(t) => (400.0, t)
      case ExecutionError(t) => (500.0, t)
      case SchemaError(t) => (422.0, t)
      case UnknownTool(t) => (404.0, t);
    Obj(map["ok" := Bool(false),
            "error" := Obj(map["code" := Str("MCP_TOOL_ERROR"), "message" := Str(text),
                               "status" := Num(status), "tool" := Str(tool),
                               "protocol" := Str("25.06.18")])])
  }

  // None: the component has no router interface. Err: instantiation failed for
  // another reason, or the router call trapped.
  function TryCallToolRouter(probe: RouterProbe, tool: string): Result<Option<Value>, string> {
    match probe
    case NotInstantiated(reason) => if LacksRouter(reason) then Ok(None) else Err(reason)
    case Completed(body) => Ok(Some(Obj(map["ok" := Bool(true), "result" := body])))
    case Elicited(body) => Ok(Some(Obj(map["ok" := Bool(true), "elicitation" := body])))
    case Refused(error) => Ok(Some(ToolErrorToValue(tool, error)))
    case RouterTrapped(reason) => Err(reason)
  }

  function MaybeTransient(component: string, message: string): RunnerError {
    if MentionsTransient(message) then ToolTransient(component, message)
    else ToolTransient(component, "transient request requested: " + message)
  }

  function CallFailure(component: string, expected: bool, message: string, trapped: bool): RunnerError {
    if expected || (trapped && MentionsTransient(message)) then MaybeTransient(component, message)
    else Internal(message)
  }

  // The three string calls differ only in the text that reports a panic.
  function StringCall(component: string, expected: bool, call: GuestCall,
                      panicPrefix: string): Result<string, RunnerError>
  {
    match call
    case Returned(output) => Ok(output)
    case Trapped(reason) => Err(CallFailure(component, expected, reason, true))
    case Panicked(payload) => Err(CallFailure(component, expected, panicPrefix + payload, false))
  }

  function RawResponse(req: ExecRequest, expected: bool, g: Guest): Result<string, RunnerError> {
    if g.instantiateError.Some? then Err(Wasmtime(g.instantiateError.value))
    else match g.legacy
      case LegacyMistyped(reason) => Err(Wasmtime(reason))
      case LegacyTyped => StringCall(req.component, expected, g.call, "tool panicked during legacy execution: ")
      case NoLegacy =>
        if g.hasActionExport then
          StringCall(req.component, expected, g.call, "tool panicked during function execution: ")
        else match g.execExportError
          case Some(reason) => Err(if expected then MaybeTransient(req.component, reason) else Wasmtime(reason))
          case None => StringCall(req.component, expected, g.call, "tool panicked during exec fallback: ")
  }

  function RunSync(codec: Codec, req: ExecRequest, g: Guest): RunResult {
    if g.compileError.Some? then
      match TryMockJson(g.artifactJson, req.action)
      case Some(result) => result
      case None => Err(Wasmtime(g.compileError.value))
    else if g.linkFailure.Some? then
      match g.linkFailure.value
      case LinkInternal(reason) => Err(Internal(reason))
      case LinkWasmtime(reason) => Err(Wasmtime(reason))
    else
      var expected := InputRequestsTransient(codec, codec.print_(req.args));
      match TryCallToolRouter(g.router, req.action)
      case Err(reason) => Err(if expected then MaybeTransient(req.component, reason) else Internal(reason))
      case Ok(Some(value)) => Ok(value)
      case Ok(None) =>
        match RawResponse(req, expected, g)
        case Err(e) => Err(e)
        case Ok(raw) =>
          if g.overWallclock.Some? then Err(Timeout(g.overWallclock.value))
          else match codec.parse(raw)
            case Some(value) => Ok(value)
            case None => Err(Serde(raw))
  }

  // What the worker thread puts on its channel, panics included.
  function WorkerAnswer(codec: Codec, req: ExecRequest, run: GuestRun): RunResult {
    match run
    case Ran(g) => RunSync(codec, req, g)
    case Unwound(payload) =>
      if MarkedTransient(req.args) then
        Err(ToolTransient(req.component, "tool panic while requesting transient retry: " + payload))
      else
        Err(Internal("tool execution panicked: " + payload))
  }

  // What `recv_timeout` reports to the caller, and how `run` turns it into a result.
  datatype Collected = Answer(result: RunResult) | Expired | Disconnected

  function Collect(c: Collected, timeout: nat): RunResult {
    match c
    case Answer(result) => result
    case Expired => Err(Timeout(timeout))
    case Disconnected => Err(Internal("blocking runner task failed"))
  }

  // How one attempt of a retry loop ends: the runner was called and its result
  // collected, `exec` gave up before that (resolve, verify, engine set-up), or
  // the blocking task that ran `exec` was lost.
  datatype AttemptEnd = Ended(c: Collected) | Rejected(error: ExecError) | Lost(reason: string)

  // ----- exec: after the runner -----

  function ErrorCode(value: Value): Option<string> {
    match value.Get("error")
    case Some(error) => error.GetStr("code")
    case None => None
  }

  function FinishExec(req: ExecRequest, result: RunResult): Result<Value, ExecError> {
    match result
    case Err(ActionNotFound(_)) => Err(NotFound(req.component, req.action))
    case Err(ToolTransient(component, message)) =>
      Err(Tool(component, req.action, "transient", Obj(map["message" := Str(message)])))
    case Err(e) => Err(Runner(req.component, e))
    case Ok(value) =>
      match ErrorCode(value)
      case Some(code) =>
        if code == "iface-error.not-found" then Err(NotFound(req.component, req.action))
        else Err(Tool(req.component, req.action, code, value))
      case None => Ok(value)
  }

  // ----- The two transient tests -----

  function ErrorText(e: RunnerError): string {
    match e
    case Timeout(_) => "wasm execution timed out"
    case Wasmtime(reason) => "wasmtime error: " + reason
    case Serde(reason) => "serde error: " + reason
    case ActionNotFound(action) => "action `" + action + "` not implemented by the tool"
    case ToolTransient(component, message) => "tool `" + component + "` transient failure: " + message
    case Internal(message) => "internal runner error: " + message
    case NotImplemented => "runner is not implemented for this configuration"
  }

  predicate TransientCode(code: string) {
    code == "transient" || "transient." <= code
  }

  // The executor's test: `map_exec_error`.
  function MapExecError(codec: Codec, error: ExecError, toolName: string, input: string): InvocationFailure {
    match error
    case Tool(_, _, code, payload) =>
      var message := match payload.GetStr("message") case Some(m) => m case None => codec.print_(payload);
      if TransientCode(code) then TransientFailure(code + ": " + message)
      else Fatal(ExecutionFailed("tool returned " + code + ": " + message))
    case Runner(_, Timeout(elapsed)) =>
      if InputRequestsTransient(codec, input) then
        TransientFailure("tool invocation timed out while requesting transient retry: ")
      else
        Fatal(TimedOut(toolName, elapsed))
    case Runner(component, source) =>
      if InputRequestsTransient(codec, input) then
        TransientFailure("tool invocation failed during transient request: " + ErrorText(source))
      else
        Fatal(ExecutionFailed("execution failed on `" + component + "`: " + ErrorText(source)))
    case NotFound(component, action) =>
      Fatal(ExecutionFailed("action `" + action + "` not found on `" + component + "`"))
    case _ => Fatal(ExecutionFailed("failed to resolve or verify `" + error.component + "`"))
  }

  // One attempt of the executor, from the collected result to the bytes or the
  // failure that the retry loop looks at.
  function InvokeOnce(codec: Codec, req: ExecRequest, toolName: string, timeout: nat,
                      c: Collected): Result<string, InvocationFailure>
  {
    match FinishExec(req, Collect(c, timeout))
    case Ok(value) => Ok(codec.print_(value))
    case Err(error) => Err(MapExecError(codec, error, toolName, codec.print_(req.args)))
  }

  // The retry helper's test: `is_transient_error`.
  predicate IsTransientError(error: ExecError) {
    match error
    case Runner(_, source) => source.Timeout?
    case Tool(_, _, code, _) => "transient." <= code
    case _ => false
  }
}
