// Requests and the error types that travel through the execution layers.
module Errors {
  import opened Prelude
  import opened Json

  datatype Tenant = Tenant(attempt: u32, identity: string)

  datatype ExecRequest = ExecRequest(component: string, action: string, args: Value, tenant: Option<Tenant>)

  datatype RunnerError =
    | Timeout(elapsed: nat)
    | Wasmtime(reason: string)
    | Serde(reason: string)
    | ActionNotFound(action: string)
    | ToolTransient(component: string, message: string)
    | Internal(message: string)
    | NotImplemented

  datatype ResolveError = Missing | Io | Store(reason: string)

  datatype VerificationError =
    | DigestMismatch(expected: string, actual: string)
    | UnsignedRejected

  datatype ExecError =
    | Resolve(component: string, resolveSource: ResolveError)
    | Verification(component: string, verifySource: VerificationError)
    | Runner(component: string, source: RunnerError)
    | NotFound(component: string, action: string)
    | Tool(component: string, action: string, code: string, payload: Value)

  datatype McpError =
    | ToolNotFound(name: string)
    | InvalidInput(reason: string)
    | ExecutionFailed(reason: string)
    | TimedOut(name: string, timeout: nat)
    | Transient(name: string, reason: string)
    | InternalError(reason: string)

  datatype InvocationFailure =
    | TransientFailure(message: string)
    | Fatal(error: McpError)
}
