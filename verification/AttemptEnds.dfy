// How `exec` ends, for everything a guest may do: which kind of error the caller
// gets, and what is left in it of what the guest said.
module AttemptEnds {
  import opened Prelude
  import opened Text
  import opened TextLaws
  import opened Json
  import opened Errors
  import opened Execution
  import opened Classification

  // The dispatch gets past the router, to instantiating for a string call.
  ghost predicate PastRouter(g: Guest) {
    Linked(g) && g.router.NotInstantiated? && LacksRouter(g.router.reason)
  }

  // `exec` of a worker that ran this guest.
  function ExecOf(codec: Codec, req: ExecRequest, g: Guest): Result<Value, ExecError> {
    FinishExec(req, WorkerAnswer(codec, req, Ran(g)))
  }

  ghost predicate IsRunnerError(req: ExecRequest, end: Result<Value, ExecError>, source: RunnerError) {
    end == Err(Runner(req.component, source))
  }

  // An internal error whose text ends with what was said.
  ghost predicate IsInternal(req: ExecRequest, end: Result<Value, ExecError>, said: string) {
    && end.Err? && end.error.Runner? && end.error.component == req.component
    && end.error.source.Internal? && EndsWith(end.error.source.message, said)
  }

  // The tool error a transient failure becomes: its message ends with what was said.
  ghost predicate IsTransientTool(req: ExecRequest, end: Result<Value, ExecError>, said: string) {
    && end.Err? && end.error.Tool? && end.error.component == req.component && end.error.action == req.action
    && end.error.code == "transient" && end.error.payload.GetStr("message").Some?
    && EndsWith(end.error.payload.GetStr("message").value, said)
  }

  // ----- Replies -----

  // A reply is the result, unless it carries an error code: then it is the
  // payload of the tool's own error, or says that there is no such action.
  lemma {:induction false} ReplyEnds(codec: Codec, req: ExecRequest, g: Guest, v: Value)
    requires Replies(codec, req.action, g, v)
    ensures ErrorCode(v).None? ==> ExecOf(codec, req, g) == Ok(v)
    ensures ErrorCode(v).Some? && ErrorCode(v).value != "iface-error.not-found" ==>
              ExecOf(codec, req, g) == Err(Tool(req.component, req.action, ErrorCode(v).value, v))
    ensures ErrorCode(v) == Some("iface-error.not-found") ==>
              ExecOf(codec, req, g) == Err(NotFound(req.component, req.action))
  {
    RunSyncOk(codec, req, g, v);
  }

  // The error code is the text `code` of the member `error`.
  lemma {:induction false} ErrorCodeIs(fields: map<string, Value>, inner: map<string, Value>, code: string)
    requires "error" in fields && fields["error"] == Obj(inner) && "code" in inner && inner["code"] == Str(code)
    ensures ErrorCode(Obj(fields)) == Some(code)
  {
  }

  lemma {:induction false} MissingActionEnds(codec: Codec, req: ExecRequest, g: Guest)
    requires MissingAction(g, req.action)
    ensures ExecOf(codec, req, g) == Err(NotFound(req.component, req.action))
  {
    RunSyncMissingAction(codec, req, g);
  }

  lemma {:induction false} RouterSuccessEnds(codec: Codec, req: ExecRequest, g: Guest)
    requires RouterSucceeds(g)
    ensures ExecOf(codec, req, g).Ok? && IsRouterAnswer(g.router, req.action, ExecOf(codec, req, g).value)
  {
    var r := RunSync(codec, req, g);
    RunSyncOk(codec, req, g, if r.Ok? then r.value else Null);
    RouterCode(g.router, req.action, r.value);
  }

  // A component has no router when instantiating one fails in one of three ways.
  lemma {:induction false} LacksRouterIff(reason: string)
    ensures LacksRouter(reason) <==> exists a, b ::
              || reason == a + "unknown export" + b
              || reason == a + "No such export" + b
              || reason == a + "no exported instance named" + b
  {
    ContainsIff(reason, "unknown export");
    ContainsIff(reason, "No such export");
    ContainsIff(reason, "no exported instance named");
  }

  // These lemmas leave out no guest.
  lemma {:induction false} EveryGuestEnds(codec: Codec, action: string, g: Guest)
    ensures
      || (exists v :: Replies(codec, action, g, v)) || MissingAction(g, action)
      || (g.compileError.Some? && !IsMock(g))
      || (g.compileError.None? && g.linkFailure.Some?)
      || RouterSucceeds(g) || (Linked(g) && g.router.Refused?)
      || (Linked(g) && g.router.RouterTrapped?)
      || (Linked(g) && g.router.NotInstantiated? && !LacksRouter(g.router.reason))
      || (PastRouter(g) && (g.instantiateError.Some? || g.legacy.LegacyMistyped?))
      || (PastRouter(g) && g.legacy.NoLegacy? && !g.hasActionExport && g.execExportError.Some?)
      || (ReachesStringCall(g) && !g.call.Returned?)
      || (ReachesStringCall(g) && g.call.Returned? && (g.overWallclock.Some? || codec.parse(g.call.output).None?))
  {
    if IsMock(g) && !MissingAction(g, action) {
      assert Replies(codec, action, g, g.artifactJson.value.Get("responses").value.Get(action).value);
    } else if ReachesStringCall(g) && g.call.Returned? && g.overWallclock.None? && codec.parse(g.call.output).Some? {
      assert Replies(codec, action, g, codec.parse(g.call.output).value);
    }
  }

  // ----- Failures the marker does not change -----

  lemma {:induction false} PlainFailureEnds(codec: Codec, req: ExecRequest, g: Guest)
    ensures g.compileError.Some? && !IsMock(g) ==>
              IsRunnerError(req, ExecOf(codec, req, g), Wasmtime(g.compileError.value))
    ensures g.compileError.None? && g.linkFailure.Some? && g.linkFailure.value.LinkInternal? ==>
              IsRunnerError(req, ExecOf(codec, req, g), Internal(g.linkFailure.value.reason))
    ensures g.compileError.None? && g.linkFailure.Some? && g.linkFailure.value.LinkWasmtime? ==>
              IsRunnerError(req, ExecOf(codec, req, g), Wasmtime(g.linkFailure.value.reason))
  {
    if g.compileError.Some? {
      MockReply(g, req.action);
    }
  }

  lemma {:induction false} PastRouterEnds(codec: Codec, req: ExecRequest, g: Guest)
    requires PastRouter(g)
    ensures g.instantiateError.Some? ==>
              IsRunnerError(req, ExecOf(codec, req, g), Wasmtime(g.instantiateError.value))
    ensures g.instantiateError.None? && g.legacy.LegacyMistyped? ==>
              IsRunnerError(req, ExecOf(codec, req, g), Wasmtime(g.legacy.reason))
    ensures ReachesStringCall(g) && g.call.Returned? && g.overWallclock.Some? ==>
              IsRunnerError(req, ExecOf(codec, req, g), Timeout(g.overWallclock.value))
    ensures ReachesStringCall(g) && g.call.Returned? && g.overWallclock.None? && codec.parse(g.call.output).None? ==>
              IsRunnerError(req, ExecOf(codec, req, g), Serde(g.call.output))
  {
    RawResponseOk(req, InputRequestsTransient(codec, codec.print_(req.args)), g);
  }

  // ----- What is left of what the guest said -----

  lemma {:induction false} EndsWithItself(s: string)
    ensures EndsWith(s, s)
  {
  }

  lemma {:induction false} EndsWithAfter(prefix: string, s: string, said: string)
    requires EndsWith(s, said)
    ensures EndsWith(prefix + s, said)
  {
    assert (prefix + s)[|prefix + s| - |said|..] == s[|s| - |said|..];
  }

  // The runner's error is a transient one of the component, or an internal one,
  // and its text ends with what was said.
  ghost predicate Says(component: string, e: RunnerError, transient: bool, said: string) {
    if transient then e.ToolTransient? && e.component == component && EndsWith(e.message, said)
    else e.Internal? && EndsWith(e.message, said)
  }

  lemma {:induction false} MaybeTransientSays(component: string, message: string, said: string)
    requires EndsWith(message, said)
    ensures Says(component, MaybeTransient(component, message), true, said)
  {
    EndsWithAfter("transient request requested: ", message, said);
  }

  lemma {:induction false} SaysEnds(req: ExecRequest, e: RunnerError, transient: bool, said: string)
    requires Says(req.component, e, transient, said)
    ensures transient ==> IsTransientTool(req, FinishExec(req, Err(e)), said)
    ensures !transient ==> IsInternal(req, FinishExec(req, Err(e)), said)
  {
  }

  // What the guest's call said before it failed.
  function Said(call: GuestCall): string {
    match call
    case Trapped(reason) => reason
    case Panicked(payload) => payload
    case Returned(_) => ""
  }

  lemma {:induction false} StringCallSays(component: string, expected: bool, call: GuestCall, prefix: string)
    requires !call.Returned?
    ensures StringCall(component, expected, call, prefix).Err?
    ensures Says(component, StringCall(component, expected, call, prefix).error,
                 expected || (call.Trapped? && MentionsTransient(call.reason)), Said(call))
  {
    var said := Said(call);
    EndsWithItself(said);
    EndsWithAfter(prefix, said, said);
    MaybeTransientSays(component, said, said);
    MaybeTransientSays(component, prefix + said, said);
  }

  lemma {:induction false} RawResponseSays(req: ExecRequest, expected: bool, g: Guest)
    requires ReachesStringCall(g) && !g.call.Returned?
    ensures RawResponse(req, expected, g).Err?
    ensures Says(req.component, RawResponse(req, expected, g).error,
                 expected || (g.call.Trapped? && MentionsTransient(g.call.reason)), Said(g.call))
  {
    if g.legacy.LegacyTyped? {
      StringCallSays(req.component, expected, g.call, "tool panicked during legacy execution: ");
    } else if g.hasActionExport {
      StringCallSays(req.component, expected, g.call, "tool panicked during function execution: ");
    } else {
      StringCallSays(req.component, expected, g.call, "tool panicked during exec fallback: ");
    }
  }

  lemma {:induction false} RunSyncSays(codec: Codec, req: ExecRequest, g: Guest)
    requires codec.RoundTrips(req.args) && ReachesStringCall(g) && !g.call.Returned?
    ensures RunSync(codec, req, g).Err?
    ensures Says(req.component, RunSync(codec, req, g).error,
                 MarkedTransient(req.args) || (g.call.Trapped? && MentionsTransient(g.call.reason)), Said(g.call))
  {
    PrintedMarker(codec, req.args);
    RawResponseSays(req, MarkedTransient(req.args), g);
  }

  // ----- Failures of the guest's code -----

  // A trap or a panic of a string call is transient on marked input, and so is
  // a trap that says so on any input; otherwise it is an internal error.
  lemma {:induction false} StringCallEnds(codec: Codec, req: ExecRequest, g: Guest)
    requires codec.RoundTrips(req.args) && ReachesStringCall(g) && !g.call.Returned?
    ensures MarkedTransient(req.args) || TrapMentionsTransient(g) ==>
              IsTransientTool(req, ExecOf(codec, req, g), Said(g.call))
    ensures !MarkedTransient(req.args) && !TrapMentionsTransient(g) ==>
              IsInternal(req, ExecOf(codec, req, g), Said(g.call))
  {
    RunSyncSays(codec, req, g);
    SaysEnds(req, RunSync(codec, req, g).error,
             MarkedTransient(req.args) || (g.call.Trapped? && MentionsTransient(g.call.reason)), Said(g.call));
  }

  // A router that traps, or cannot be instantiated though it is there.
  lemma {:induction false} RouterTrapEnds(codec: Codec, req: ExecRequest, g: Guest)
    requires codec.RoundTrips(req.args) && Linked(g)
    requires g.router.RouterTrapped? || (g.router.NotInstantiated? && !LacksRouter(g.router.reason))
    ensures MarkedTransient(req.args) ==> IsTransientTool(req, ExecOf(codec, req, g), g.router.reason)
    ensures !MarkedTransient(req.args) ==> IsInternal(req, ExecOf(codec, req, g), g.router.reason)
  {
    PrintedMarker(codec, req.args);
    EndsWithItself(g.router.reason);
    MaybeTransientSays(req.component, g.router.reason, g.router.reason);
    SaysEnds(req, RunSync(codec, req, g).error, MarkedTransient(req.args), g.router.reason);
  }

  // A component with none of the exports that could be called.
  lemma {:induction false} NoExportEnds(codec: Codec, req: ExecRequest, g: Guest)
    requires codec.RoundTrips(req.args) && PastRouter(g) && g.instantiateError.None?
    requires g.legacy.NoLegacy? && !g.hasActionExport && g.execExportError.Some?
    ensures MarkedTransient(req.args) ==> IsTransientTool(req, ExecOf(codec, req, g), g.execExportError.value)
    ensures !MarkedTransient(req.args) ==>
              IsRunnerError(req, ExecOf(codec, req, g), Wasmtime(g.execExportError.value))
  {
    PrintedMarker(codec, req.args);
    EndsWithItself(g.execExportError.value);
    MaybeTransientSays(req.component, g.execExportError.value, g.execExportError.value);
    if MarkedTransient(req.args) {
      SaysEnds(req, RunSync(codec, req, g).error, true, g.execExportError.value);
    }
  }

  // A worker that unwinds reports the panic, marked or not.
  lemma {:induction false} UnwoundEnds(codec: Codec, req: ExecRequest, payload: string)
    ensures
      var end := FinishExec(req, WorkerAnswer(codec, req, Unwound(payload)));
      if MarkedTransient(req.args) then IsTransientTool(req, end, payload) else IsInternal(req, end, payload)
  {
    EndsWithItself(payload);
    EndsWithAfter("tool panic while requesting transient retry: ", payload, payload);
    EndsWithAfter("tool execution panicked: ", payload, payload);
    var r := WorkerAnswer(codec, req, Unwound(payload));
    SaysEnds(req, r.error, MarkedTransient(req.args), payload);
  }

  // ----- What the caller of `invoke` is told -----

  // A tool's error keeps its code in front and its message, or its payload, at the end.
  ghost predicate TellsTool(codec: Codec, text: string, code: string, payload: Value) {
    && Contains(text, code)
    && EndsWith(text, if payload.GetStr("message").Some? then payload.GetStr("message").value
                      else codec.print_(payload))
  }

  lemma {:induction false} PrefixTells(codec: Codec, prefix: string, code: string, payload: Value, said: string)
    requires said == if payload.GetStr("message").Some? then payload.GetStr("message").value else codec.print_(payload)
    ensures TellsTool(codec, prefix + code + ": " + said, code, payload)
  {
    EndsWithItself(said);
    EndsWithAfter(prefix + code + ": ", said, said);
    ContainsMiddle(prefix, code, ": " + said);
    assert prefix + code + (": " + said) == prefix + code + ": " + said;
  }

  lemma {:induction false} ToolIsTold(codec: Codec, error: ExecError, toolName: string, input: string)
    requires error.Tool?
    ensures
      match MapExecError(codec, error, toolName, input)
      case TransientFailure(text) => TellsTool(codec, text, error.code, error.payload)
      case Fatal(e) => e.ExecutionFailed? && TellsTool(codec, e.reason, error.code, error.payload)
  {
    var said := if error.payload.GetStr("message").Some? then error.payload.GetStr("message").value
                else codec.print_(error.payload);
    PrefixTells(codec, "", error.code, error.payload, said);
    PrefixTells(codec, "tool returned ", error.code, error.payload, said);
    assert "" + error.code + ": " + said == error.code + ": " + said;
  }

  // Final errors: a time-out is one, and everything else an execution failure.
  lemma {:induction false} FatalIsTold(codec: Codec, error: ExecError, toolName: string, input: string)
    ensures
      match MapExecError(codec, error, toolName, input)
      case TransientFailure(_) => true
      case Fatal(e) =>
        if error.Runner? && error.source.Timeout? then e == TimedOut(toolName, error.source.elapsed)
        else e.ExecutionFailed?
  {
  }

  // ----- The marker -----

  // An object asks for a transient failure by a `fail` or a `message` text that
  // contains the word, or by a `flaky` that is true, and by nothing else.
  lemma {:induction false} MarkerIff(args: Value)
    ensures MarkedTransient(args) <==>
              || (exists a, b :: args.GetStr("fail") == Some(a + "transient" + b))
              || args.Get("flaky") == Some(Bool(true))
              || (exists a, b :: args.GetStr("message") == Some(a + "transient" + b))
  {
    MarkIn(args.GetStr("fail"));
    MarkIn(args.GetStr("message"));
  }

  lemma {:induction false} MarkIn(s: Option<string>)
    ensures s.Some? && Contains(s.value, "transient") <==> exists a, b :: s == Some(a + "transient" + b)
  {
    if s.Some? {
      ContainsIff(s.value, "transient");
    }
  }
}
