// What the composed error classification does, stated on what the guest did and
// not on how the layers pass the error along.
module Classification {
  import opened Prelude
  import opened Text
  import opened Json
  import opened Errors
  import opened Execution

  // ----- What the guest did -----

  ghost predicate Linked(g: Guest) {
    g.compileError.None? && g.linkFailure.None?
  }

  // The dispatch gets past the router and reaches one of the three string calls.
  ghost predicate ReachesStringCall(g: Guest) {
    && Linked(g)
    && g.router.NotInstantiated? && LacksRouter(g.router.reason)
    && g.instantiateError.None?
    && !g.legacy.LegacyMistyped?
    && (g.legacy.NoLegacy? && !g.hasActionExport ==> g.execExportError.None?)
  }

  ghost predicate IsMock(g: Guest) {
    && g.compileError.Some? && g.artifactJson.Some?
    && g.artifactJson.value.GetBool("_mock_mcp_exec") == Some(true)
    && g.artifactJson.value.Get("responses").Some?
    && g.artifactJson.value.Get("responses").value.Obj?
  }

  ghost predicate MissingAction(g: Guest, action: string) {
    IsMock(g) && g.artifactJson.value.Get("responses").value.Get(action).None?
  }

  // The guest answered `v` without going through the router interface.
  ghost predicate Replies(codec: Codec, action: string, g: Guest, v: Value) {
    || (IsMock(g) && g.artifactJson.value.Get("responses").value.Get(action) == Some(v))
    || (ReachesStringCall(g) && g.call.Returned? && g.overWallclock.None? && codec.parse(g.call.output) == Some(v))
  }

  ghost predicate RouterReplies(g: Guest) {
    Linked(g) && !g.router.NotInstantiated? && !g.router.RouterTrapped?
  }

  // The router did what was asked of it, or asks back.
  ghost predicate RouterSucceeds(g: Guest) {
    Linked(g) && (g.router.Completed? || g.router.Elicited?)
  }

  // What the router's own answer looks like to the caller.
  ghost predicate IsRouterAnswer(probe: RouterProbe, tool: string, v: Value) {
    match probe
    case Completed(body) => v.GetBool("ok") == Some(true) && v.Get("result") == Some(body) && v.Get("error").None?
    case Elicited(body) => v.GetBool("ok") == Some(true) && v.Get("elicitation") == Some(body) && v.Get("error").None?
    case Refused(error) =>
      v.GetBool("ok") == Some(false) && v.Get("error").Some? && IsRefusal(error, tool, v.Get("error").value)
    case _ => false
  }

  // A refusal gives its code, its own text, the tool, and a status for its kind.
  ghost predicate IsRefusal(error: ToolError, tool: string, e: Value) {
    && e.GetStr("code") == Some("MCP_TOOL_ERROR") && e.GetStr("message") == Some(error.text)
    && e.GetStr("tool") == Some(tool)
    && (error.InvalidParameters? ==> e.Get("status") == Some(Num(400.0)))
    && (error.ExecutionError? ==> e.Get("status") == Some(Num(500.0)))
    && (error.SchemaError? ==> e.Get("status") == Some(Num(422.0)))
    && (error.UnknownTool? ==> e.Get("status") == Some(Num(404.0)))
  }

  ghost predicate RepliesTransientCode(codec: Codec, action: string, g: Guest) {
    exists v :: Replies(codec, action, g, v) && ErrorCode(v).Some? && TransientCode(ErrorCode(v).value)
  }

  ghost predicate RepliesAtAll(codec: Codec, action: string, g: Guest) {
    RouterReplies(g) || exists v :: Replies(codec, action, g, v)
  }

  ghost predicate TrapMentionsTransient(g: Guest) {
    ReachesStringCall(g) && g.call.Trapped? && MentionsTransient(g.call.reason)
  }

  // ----- The stages -----

  lemma {:induction false} PrintedMarker(codec: Codec, args: Value)
    requires codec.RoundTrips(args)
    ensures InputRequestsTransient(codec, codec.print_(args)) == MarkedTransient(args)
  {
    assert codec.parse(codec.print_(args)) == Some(args);
  }

  // `run_sync` succeeds exactly with a reply of the guest or of the router, and
  // a reply of the router never carries a retryable error code.
  lemma {:induction false} RunSyncOk(codec: Codec, req: ExecRequest, g: Guest, v: Value)
    ensures RunSync(codec, req, g) == Ok(v) ==> RouterReplies(g) || Replies(codec, req.action, g, v)
    ensures Replies(codec, req.action, g, v) ==> RunSync(codec, req, g) == Ok(v)
    ensures RouterReplies(g) ==> RunSync(codec, req, g).Ok? && !Replies(codec, req.action, g, v)
    ensures RouterReplies(g) && RunSync(codec, req, g) == Ok(v) ==> IsRouterAnswer(g.router, req.action, v)
  {
    if g.compileError.Some? {
      MockReply(g, req.action);
    } else if RouterReplies(g) {
      RouterAnswer(g.router, req.action);
    } else if g.linkFailure.None? {
      StringReply(codec, req, g, v);
    }
  }

  // Past the router, the only successes are the parsed answers of a string call.
  lemma {:induction false} StringReply(codec: Codec, req: ExecRequest, g: Guest, v: Value)
    requires Linked(g) && !RouterReplies(g)
    ensures RunSync(codec, req, g) == Ok(v) <==> Replies(codec, req.action, g, v)
  {
    if g.router.NotInstantiated? && LacksRouter(g.router.reason) {
      RawResponseOk(req, InputRequestsTransient(codec, codec.print_(req.args)), g);
    }
  }

  lemma {:induction false} RawResponseOk(req: ExecRequest, expected: bool, g: Guest)
    requires Linked(g) && g.router.NotInstantiated? && LacksRouter(g.router.reason)
    ensures RawResponse(req, expected, g).Ok? <==> ReachesStringCall(g) && g.call.Returned?
    ensures RawResponse(req, expected, g).Ok? ==> RawResponse(req, expected, g).value == g.call.output
  {
  }

  lemma {:induction false} MockReply(g: Guest, action: string)
    requires g.compileError.Some?
    ensures IsMock(g) ==>
              var reply := g.artifactJson.value.Get("responses").value.Get(action);
              TryMockJson(g.artifactJson, action)
              == Some(if reply.Some? then Ok(reply.value) else Err(ActionNotFound(action)))
    ensures !IsMock(g) ==> TryMockJson(g.artifactJson, action) == None
  {
  }

  lemma {:induction false} RouterAnswer(probe: RouterProbe, tool: string)
    requires !probe.NotInstantiated? && !probe.RouterTrapped?
    ensures TryCallToolRouter(probe, tool).Ok? && TryCallToolRouter(probe, tool).value.Some?
    ensures IsRouterAnswer(probe, tool, TryCallToolRouter(probe, tool).value.value)
  {
    if probe.Refused? {
      Refusal(tool, probe.error);
    } else {
      assert "ok"[0] == 'o' && "result"[0] == 'r' && "error"[0] == 'e' && "elicitation"[1] == 'l' && "error"[1] == 'r';
    }
  }

  lemma {:induction false} Refusal(tool: string, error: ToolError)
    ensures IsRouterAnswer(Refused(error), tool, ToolErrorToValue(tool, error))
  {
    assert "ok"[0] == 'o' && "error"[0] == 'e';
    assert "code"[0] == 'c' && "message"[0] == 'm' && "status"[0] == 's' && "tool"[0] == 't' && "protocol"[0] == 'p';
    var e := ToolErrorToValue(tool, error).Get("error").value;
    assert e.GetStr("code") == Some("MCP_TOOL_ERROR") && e.GetStr("message") == Some(error.text);
    assert e.GetStr("tool") == Some(tool);
  }

  // Of the router's answers only a refusal carries an error code, and not a
  // transient one.
  lemma {:induction false} RouterCode(probe: RouterProbe, tool: string, v: Value)
    requires IsRouterAnswer(probe, tool, v)
    ensures ErrorCode(v) == if probe.Refused? then Some("MCP_TOOL_ERROR") else None
  {
  }

  lemma {:induction false} RunSyncReply(codec: Codec, req: ExecRequest, g: Guest)
    ensures RunSync(codec, req, g).Ok? <==> RepliesAtAll(codec, req.action, g)
    ensures RepliesTransientCode(codec, req.action, g) <==>
              && RunSync(codec, req, g).Ok?
              && ErrorCode(RunSync(codec, req, g).value).Some?
              && TransientCode(ErrorCode(RunSync(codec, req, g).value).value)
  {
    DistinctCodes();
    var r := RunSync(codec, req, g);
    forall v {
      RunSyncOk(codec, req, g, v);
    }
    if r.Ok? {
      assert RouterReplies(g) || Replies(codec, req.action, g, r.value);
      if RouterReplies(g) {
        RouterCode(g.router, req.action, r.value);
      }
    }
  }

  // The string calls fail for any cause but a missing action; without a marker
  // only a trap that says so is transient.
  lemma {:induction false} RawResponseErr(req: ExecRequest, expected: bool, g: Guest)
    ensures RawResponse(req, expected, g).Err? ==> !RawResponse(req, expected, g).error.ActionNotFound?
    ensures Linked(g) && g.router.NotInstantiated? && LacksRouter(g.router.reason) && !expected ==>
              (RawResponse(req, expected, g).Err? && RawResponse(req, expected, g).error.ToolTransient?
               <==> TrapMentionsTransient(g))
  {
  }

  // Every failure `run_sync` reports, by its cause.
  lemma {:induction false} RunSyncErr(codec: Codec, req: ExecRequest, g: Guest)
    requires codec.RoundTrips(req.args)
    ensures RunSync(codec, req, g) == Err(ActionNotFound(req.action)) <==> MissingAction(g, req.action)
    ensures RunSync(codec, req, g).Err? && RunSync(codec, req, g).error.ActionNotFound?
            ==> RunSync(codec, req, g).error.action == req.action
    ensures !MarkedTransient(req.args) ==>
              (RunSync(codec, req, g).Err? && RunSync(codec, req, g).error.ToolTransient? <==> TrapMentionsTransient(g))
  {
    RunSyncMissingAction(codec, req, g);
    if !MarkedTransient(req.args) {
      RunSyncTransient(codec, req, g);
    }
  }

  lemma {:induction false} RunSyncMissingAction(codec: Codec, req: ExecRequest, g: Guest)
    ensures RunSync(codec, req, g) == Err(ActionNotFound(req.action)) <==> MissingAction(g, req.action)
    ensures RunSync(codec, req, g).Err? && RunSync(codec, req, g).error.ActionNotFound?
            ==> RunSync(codec, req, g).error.action == req.action
  {
    RawResponseErr(req, InputRequestsTransient(codec, codec.print_(req.args)), g);
  }

  lemma {:induction false} RunSyncTransient(codec: Codec, req: ExecRequest, g: Guest)
    requires codec.RoundTrips(req.args) && !MarkedTransient(req.args)
    ensures RunSync(codec, req, g).Err? && RunSync(codec, req, g).error.ToolTransient? <==> TrapMentionsTransient(g)
  {
    PrintedMarker(codec, req.args);
    RawResponseErr(req, false, g);
  }

  lemma {:induction false} MaybeTransientMentions(component: string, message: string)
    ensures MentionsTransient(MaybeTransient(component, message).message)
  {
    if !MentionsTransient(message) {
      assert "transient request requested: " + message == "" + "transient" + (" request requested: " + message);
      ContainsMiddle("", "transient", " request requested: " + message);
      ContainsImpliesMentions("transient request requested: " + message);
    }
  }

  // No `ToolTransient` is ever raised with a text that fails to say so.
  lemma {:induction false} ToolTransientMentionsTransient(codec: Codec, req: ExecRequest, run: GuestRun)
    ensures WorkerAnswer(codec, req, run).Err? && WorkerAnswer(codec, req, run).error.ToolTransient?
            ==> MentionsTransient(WorkerAnswer(codec, req, run).error.message)
  {
    match run
    case Unwound(payload) =>
      var text := "tool panic while requesting transient retry: " + payload;
      assert text == "tool panic while requesting " + "transient" + (" retry: " + payload);
      ContainsMiddle("tool panic while requesting ", "transient", " retry: " + payload);
      ContainsImpliesMentions(text);
    case Ran(g) =>
      ToolTransientSource(codec, req, g);
      var e := RunSync(codec, req, g);
      if e.Err? && e.error.ToolTransient? {
        var message :| e.error == MaybeTransient(req.component, message);
        MaybeTransientMentions(req.component, message);
      }
  }

  lemma {:induction false} ToolTransientSource(codec: Codec, req: ExecRequest, g: Guest)
    ensures RunSync(codec, req, g).Err? && RunSync(codec, req, g).error.ToolTransient?
            ==> exists message :: RunSync(codec, req, g).error == MaybeTransient(req.component, message)
  {
  }

  // ----- The composed classification -----

  predicate IsRetried(end: Result<string, InvocationFailure>) {
    end.Err? && end.error.TransientFailure?
  }

  // The layers after the runner: what becomes of a collected result.
  lemma {:induction false} RetriedResult(codec: Codec, req: ExecRequest, toolName: string, timeout: nat, c: Collected)
    requires codec.RoundTrips(req.args)
    ensures
      var r := Collect(c, timeout);
      IsRetried(InvokeOnce(codec, req, toolName, timeout, c)) <==>
        || (r.Ok? && ErrorCode(r.value).Some? && TransientCode(ErrorCode(r.value).value))
        || (r.Err? && r.error.ToolTransient?)
        || (r.Err? && !r.error.ActionNotFound? && MarkedTransient(req.args))
  {
    PrintedMarker(codec, req.args);
    DistinctCodes();
  }

  lemma {:induction false} DistinctCodes()
    ensures !TransientCode("iface-error.not-found") && !TransientCode("MCP_TOOL_ERROR")
    ensures "MCP_TOOL_ERROR" != "iface-error.not-found"
    ensures !("transient." <= "transient")
  {
    assert "iface-error.not-found"[0] == 'i' && "MCP_TOOL_ERROR"[0] == 'M' && "transient."[0] == 't';
  }

  // Input that asks for a transient failure: every end of the attempt is
  // retried, except a reply whose code is not a transient one and an action the
  // tool does not have.
  lemma {:induction false} MarkedAttempt(codec: Codec, req: ExecRequest, toolName: string, timeout: nat, run: GuestRun)
    requires codec.RoundTrips(req.args) && MarkedTransient(req.args)
    ensures IsRetried(InvokeOnce(codec, req, toolName, timeout, Expired))
    ensures IsRetried(InvokeOnce(codec, req, toolName, timeout, Answer(WorkerAnswer(codec, req, run)))) <==>
              || run.Unwound?
              || (!MissingAction(run.guest, req.action) && !RepliesAtAll(codec, req.action, run.guest))
              || RepliesTransientCode(codec, req.action, run.guest)
  {
    RetriedResult(codec, req, toolName, timeout, Expired);
    RetriedResult(codec, req, toolName, timeout, Answer(WorkerAnswer(codec, req, run)));
    if run.Ran? {
      RunSyncErr(codec, req, run.guest);
      RunSyncReply(codec, req, run.guest);
    }
  }

  // Any other input: a time-out is final, and the only retried ends are a reply
  // with a transient code and a non-router trap whose text mentions "transient".
  lemma {:induction false} UnmarkedAttempt(codec: Codec, req: ExecRequest, toolName: string, timeout: nat,
                                           run: GuestRun)
    requires codec.RoundTrips(req.args) && !MarkedTransient(req.args)
    ensures InvokeOnce(codec, req, toolName, timeout, Expired) == Err(Fatal(TimedOut(toolName, timeout)))
    ensures IsRetried(InvokeOnce(codec, req, toolName, timeout, Answer(WorkerAnswer(codec, req, run)))) <==>
              run.Ran? && (RepliesTransientCode(codec, req.action, run.guest) || TrapMentionsTransient(run.guest))
  {
    PrintedMarker(codec, req.args);
    RetriedResult(codec, req, toolName, timeout, Answer(WorkerAnswer(codec, req, run)));
    if run.Ran? {
      RunSyncErr(codec, req, run.guest);
      RunSyncReply(codec, req, run.guest);
    }
  }

  // The reply that a successful attempt hands on.
  ghost predicate IsGoodReply(codec: Codec, action: string, g: Guest, v: Value) {
    || (RouterSucceeds(g) && IsRouterAnswer(g.router, action, v))
    || (Replies(codec, action, g, v) && ErrorCode(v).None?)
  }

  // Success, on any input: exactly a router that completed or asks back, or a
  // reply without an error code. Its bytes are that reply, printed.
  lemma {:induction false} SuccessfulAttempt(codec: Codec, req: ExecRequest, toolName: string, timeout: nat,
                                             run: GuestRun)
    ensures
      var end := InvokeOnce(codec, req, toolName, timeout, Answer(WorkerAnswer(codec, req, run)));
      && (end.Ok? <==>
            run.Ran? && (RouterSucceeds(run.guest)
                         || exists v :: Replies(codec, req.action, run.guest, v) && ErrorCode(v).None?))
      && (end.Ok? ==> exists v ::
            && IsGoodReply(codec, req.action, run.guest, v)
            && end.value == codec.print_(v) && (codec.RoundTrips(v) ==> codec.parse(end.value) == Some(v)))
  {
    if run.Ran? {
      var g, r := run.guest, RunSync(codec, req, run.guest);
      RunSyncReply(codec, req, g);
      forall v {
        RunSyncOk(codec, req, g, v);
      }
      if r.Ok? && RouterReplies(g) {
        RouterCode(g.router, req.action, r.value);
      }
      if r.Ok? && ErrorCode(r.value).None? {
        assert IsGoodReply(codec, req.action, g, r.value);
      }
    }
  }

  // A refused call is never a success and never retried: it ends in the tool's
  // own error, with the refusal as payload.
  lemma {:induction false} RefusedAttempt(codec: Codec, req: ExecRequest, toolName: string, timeout: nat, g: Guest)
    requires Linked(g) && g.router.Refused?
    ensures
      var end := FinishExec(req, WorkerAnswer(codec, req, Ran(g)));
      && end.Err? && end.error.Tool? && end.error.component == req.component && end.error.action == req.action
      && end.error.code == "MCP_TOOL_ERROR" && IsRouterAnswer(g.router, req.action, end.error.payload)
    ensures
      var end := InvokeOnce(codec, req, toolName, timeout, Answer(WorkerAnswer(codec, req, Ran(g))));
      end.Err? && end.error.Fatal? && end.error.error.ExecutionFailed?
  {
    var r := RunSync(codec, req, g);
    RunSyncOk(codec, req, g, if r.Ok? then r.value else Null);
    RouterCode(g.router, req.action, r.value);
    DistinctCodes();
  }

  // A retried failure always says "transient" to whoever reads it in the end,
  // and a final one is never reported as transient.
  lemma {:induction false} TransientFailureSaysSo(codec: Codec, error: ExecError, toolName: string, input: string)
    ensures
      match MapExecError(codec, error, toolName, input)
      case TransientFailure(message) => Contains(message, "transient")
      case Fatal(e) => !e.Transient?
  {
    match error
    case Tool(_, _, code, payload) =>
      var message := match payload.GetStr("message") case Some(m) => m case None => codec.print_(payload);
      if TransientCode(code) {
        CodeMentions(code, message);
      }
    case Runner(_, source) =>
      RunnerTextMentions(ErrorText(source));
    case _ =>
  }

  lemma {:induction false} RunnerTextMentions(text: string)
    ensures Contains("tool invocation timed out while requesting transient retry: ", "transient")
    ensures Contains("tool invocation failed during transient request: " + text, "transient")
  {
    var a, b := "tool invocation timed out while requesting transient retry: ",
        "tool invocation failed during transient request: ";
    assert OccursAt(a, "transient", 43);
    assert OccursAt(b, "transient", 30);
    ContainsWithin("", b, text, "transient");
    assert "" + b + text == b + text;
  }

  lemma {:induction false} CodeMentions(code: string, message: string)
    requires TransientCode(code)
    ensures Contains(code + ": " + message, "transient")
  {
    var text := code + ": " + message;
    assert code[..9] == "transient";
    assert text == "" + "transient" + text[9..];
    ContainsMiddle("", "transient", text[9..]);
  }

  // The two retry layers use different tests. They disagree on exactly three
  // kinds of error: the bare code that `exec` itself emits, a time-out on
  // unmarked input, and any other runner failure on marked input.
  lemma {:induction false} TransientTestsDisagree(codec: Codec, error: ExecError, toolName: string, args: Value)
    requires codec.RoundTrips(args)
    ensures MapExecError(codec, error, toolName, codec.print_(args)).TransientFailure? != IsTransientError(error) <==>
              || (error.Tool? && error.code == "transient")
              || (error.Runner? && error.source.Timeout? && !MarkedTransient(args))
              || (error.Runner? && !error.source.Timeout? && MarkedTransient(args))
  {
    PrintedMarker(codec, args);
    DistinctCodes();
  }

  // A run reports a time-out itself exactly when a string call returned too late.
  lemma {:induction false} RunSyncTimesOut(codec: Codec, req: ExecRequest, g: Guest)
    ensures RunSync(codec, req, g).Err? && RunSync(codec, req, g).error.Timeout? <==>
              ReachesStringCall(g) && g.call.Returned? && g.overWallclock.Some?
  {
    var expected := InputRequestsTransient(codec, codec.print_(req.args));
    if Linked(g) && g.router.NotInstantiated? && LacksRouter(g.router.reason) {
      RawResponseOk(req, expected, g);
      RawResponseInTime(req, expected, g);
    }
  }

  lemma {:induction false} RawResponseInTime(req: ExecRequest, expected: bool, g: Guest)
    ensures RawResponse(req, expected, g).Err? ==> !RawResponse(req, expected, g).error.Timeout?
  {
  }

  // `exec_with_retries` therefore never retries a trap or a panic, whatever it
  // says: only replies with a dotted transient code and time-outs.
  lemma {:induction false} RetryHelperTest(codec: Codec, req: ExecRequest, run: GuestRun, timeout: nat, c: Collected)
    requires c == Answer(WorkerAnswer(codec, req, run)) || c == Expired
    ensures
      var end := FinishExec(req, Collect(c, timeout));
      (end.Err? && IsTransientError(end.error)) <==>
        || c == Expired
        || (run.Ran? && ReachesStringCall(run.guest) && run.guest.call.Returned? && run.guest.overWallclock.Some?)
        || (run.Ran? && exists v :: Replies(codec, req.action, run.guest, v)
                                    && ErrorCode(v).Some? && "transient." <= ErrorCode(v).value)
  {
    DistinctCodes();
    if run.Ran? && c != Expired {
      forall v {
        RunSyncOk(codec, req, run.guest, v);
      }
      var r := RunSync(codec, req, run.guest);
      assert r.Ok? ==> RouterReplies(run.guest) || Replies(codec, req.action, run.guest, r.value);
      if r.Ok? && RouterReplies(run.guest) {
        RouterCode(run.guest.router, req.action, r.value);
      }
      RunSyncTimesOut(codec, req, run.guest);
    }
  }

  // The run trapped: in a string call, in the router call, or while being
  // instantiated for either.
  ghost predicate RunTraps(g: Guest) {
    && Linked(g)
    && (|| (ReachesStringCall(g) && g.call.Trapped?)
        || g.router.RouterTrapped?
        || (g.router.NotInstantiated? && (!LacksRouter(g.router.reason) || g.instantiateError.Some?)))
  }

  // The documents say that traps are classified as transient and retried. The
  // code does so exactly when the input asked for it or a string call trapped
  // with a text that mentions "transient". A trap of the router, or one raised
  // by instantiation, is final on any other input, whatever it says.
  lemma {:induction false} TrapIsRetriedIff(codec: Codec, req: ExecRequest, toolName: string, timeout: nat, g: Guest)
    requires codec.RoundTrips(req.args) && RunTraps(g)
    ensures IsRetried(InvokeOnce(codec, req, toolName, timeout, Answer(WorkerAnswer(codec, req, Ran(g))))) <==>
              MarkedTransient(req.args) || TrapMentionsTransient(g)
  {
    RetriedResult(codec, req, toolName, timeout, Answer(WorkerAnswer(codec, req, Ran(g))));
    RunSyncErr(codec, req, g);
    RunSyncReply(codec, req, g);
    assert !exists v :: Replies(codec, req.action, g, v);
  }

  // A trap that is not retried.
  lemma {:induction false} TrapNotRetried(codec: Codec, toolName: string, timeout: nat)
    returns (req: ExecRequest, g: Guest)
    requires codec.RoundTrips(Null)
    ensures ReachesStringCall(g) && g.call.Trapped?
    ensures !IsRetried(InvokeOnce(codec, req, toolName, timeout, Answer(WorkerAnswer(codec, req, Ran(g)))))
  {
    req := ExecRequest("c", "a", Null, None);
    var missing := "unknown export";
    assert OccursAt(missing, missing, 0);
    g := Execution.Guest(None, None, None, NotInstantiated(missing), None, LegacyTyped, false, None, Trapped(""), None);
    TrapIsRetriedIff(codec, req, toolName, timeout, g);
  }
}
