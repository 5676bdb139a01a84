// The adapter's request parser: the explicit shape and the shorthand, over
// payloads that are JSON objects.
module Requests {
  import opened Prelude
  import opened Text
  import opened TextLaws
  import opened Json

  datatype Operation = List | Call

  datatype Failure = Failure(code: string, status: nat, message: string, tool: Option<string>)

  datatype Fields = Fields(operation: Option<string>, tool: Option<string>, arguments: Value)

  datatype ParsedRequest = ParsedRequest(operation: Operation, tool: Option<string>, arguments: Value)

  function ConfigError(message: string, tool: Option<string>): Failure {
    Failure("MCP_CONFIG_ERROR", 400, message, tool)
  }

  function OperationWord(word: string): Option<Operation> {
    if word == "list" then Some(List) else if word == "call" then Some(Call) else None
  }

  function ParseOperation(raw: string): Option<Operation> {
    OperationWord(Lower(Trim(raw)))
  }

  // An optional text field: absent and null are the same.
  predicate IsOptionalText(v: Option<Value>) {
    v.None? || v.value.Null? || v.value.Str?
  }

  function OptionalText(v: Option<Value>): Option<string> {
    match v case Some(Str(s)) => Some(s) case _ => None
  }

  function ReadFields(payload: map<string, Value>): Result<Fields, Failure> {
    var o := Obj(payload);
    if !IsOptionalText(o.Get("operation")) || !IsOptionalText(o.Get("tool")) then
      Err(ConfigError("invalid request payload", None))
    else
      Ok(Fields(
        OptionalText(o.Get("operation")),
        OptionalText(o.Get("tool")),
        match o.Get("arguments") case Some(v) => v case None => Obj(map[])))
  }

  predicate IsShorthand(payload: map<string, Value>) {
    "operation" !in payload && "tool" !in payload && "arguments" !in payload
  }

  function UnknownOperationAsTool(op: string): Option<string> {
    var trimmed := Trim(op);
    if trimmed == "" || ParseOperation(trimmed).Some? then None else Some(trimmed)
  }

  function EnsureObject(v: Value): Option<Value> {
    match v
    case Null => Some(Obj(map[]))
    case Obj(_) => Some(v)
    case _ => None
  }

  function ResolveOperation(fromPayload: Option<string>, fromOp: string,
                            tool: Option<string>): Result<Operation, Failure>
  {
    if fromPayload.Some? && ParseOperation(fromPayload.value).None? then
      Err(ConfigError("unsupported operation value: " + fromPayload.value, tool))
    else
      var fallback := if tool.Some? then Call else List;
      var op :=
        if fromPayload.Some? then ParseOperation(fromPayload.value).value
        else match ParseOperation(fromOp) case Some(o) => o case None => fallback;
      if op.Call? && tool.None? then Err(ConfigError("tool is required for operation=call", None)) else Ok(op)
  }

  // The shorthand replaces the arguments; an unknown operation names the tool.
  function Complete(op: string, payload: map<string, Value>, read: Fields): Fields {
    var parsed := if IsShorthand(payload) then read.(arguments := Obj(payload)) else read;
    if parsed.tool.None? then parsed.(tool := UnknownOperationAsTool(op)) else parsed
  }

  function Decide(op: string, parsed: Fields): Result<ParsedRequest, Failure> {
    match ResolveOperation(parsed.operation, op, parsed.tool)
    case Err(e) => Err(e)
    case Ok(operation) =>
      match EnsureObject(parsed.arguments)
      case None => Err(ConfigError("arguments must be an object", parsed.tool))
      case Some(arguments) => Ok(ParsedRequest(operation, parsed.tool, arguments))
  }

  function ParseRequest(op: string, payload: map<string, Value>): Result<ParsedRequest, Failure> {
    match ReadFields(payload)
    case Err(e) => Err(e)
    case Ok(read) => Decide(op, Complete(op, payload, read))
  }

  lemma {:induction false} ParseOperationTrims(raw: string)
    ensures ParseOperation(Trim(raw)) == ParseOperation(raw)
  {
    TrimIdempotent(raw);
  }

  // The two operations are the words "list" and "call", in any case, between any
  // white space.
  lemma {:induction false} OperationIs(raw: string)
    ensures ParseOperation(raw) == Some(List) <==> IsWord(raw, "list")
    ensures ParseOperation(raw) == Some(Call) <==> IsWord(raw, "call")
  {
    assert "list"[0] == 'l' && "call"[0] == 'c';
    WordIff(raw, "list");
    WordIff(raw, "call");
  }

  // ----- The documented contract -----

  // The tool meant: the payload's, else an operation name that is not one of the two.
  ghost function ToolMeant(op: string, payload: map<string, Value>): Option<string> {
    match Obj(payload).Get("tool")
    case Some(Str(tool)) => Some(tool)
    case _ => if Trim(op) != "" && ParseOperation(op).None? then Some(Trim(op)) else None
  }

  // The operation meant: the payload's, else the runtime's, else by the tool.
  ghost function OperationFor(explicit: Option<string>, op: string, tool: Option<string>): Option<Operation> {
    match explicit
    case Some(word) => ParseOperation(word)
    case None =>
      if ParseOperation(op).Some? then ParseOperation(op) else if tool.Some? then Some(Call) else Some(List)
  }

  ghost function OperationMeant(op: string, payload: map<string, Value>): Option<Operation> {
    OperationFor(Obj(payload).GetStr("operation"), op, ToolMeant(op, payload))
  }

  lemma {:induction false} Decided(op: string, f: Fields)
    ensures
      var wanted := OperationFor(f.operation, op, f.tool);
      && (Decide(op, f).Err? <==>
            wanted.None? || (wanted == Some(Call) && f.tool.None?) || (!f.arguments.Obj? && !f.arguments.Null?))
      && (Decide(op, f).Err? ==> Decide(op, f).error.code == "MCP_CONFIG_ERROR" && Decide(op, f).error.status == 400)
      && (Decide(op, f).Ok? ==>
            (Decide(op, f).value ==
             ParsedRequest(wanted.value, f.tool, if f.arguments.Obj? then f.arguments else Obj(map[]))))
  {
  }

  lemma {:induction false} Completed(op: string, payload: map<string, Value>)
    requires ReadFields(payload).Ok?
    ensures
      var given := Obj(payload).Get("arguments");
      Complete(op, payload, ReadFields(payload).value) ==
        Fields(OptionalText(Obj(payload).Get("operation")), ToolMeant(op, payload),
               if IsShorthand(payload) then Obj(payload) else if given.Some? then given.value else Obj(map[]))
  {
    ParseOperationTrims(op);
  }

  // An accepted request means what the contract says; its arguments are always
  // an object, and a call always names a tool.
  lemma {:induction false} AcceptedRequest(op: string, payload: map<string, Value>)
    requires ParseRequest(op, payload).Ok?
    ensures
      var r := ParseRequest(op, payload).value;
      var given := Obj(payload).Get("arguments");
      && OperationMeant(op, payload) == Some(r.operation)
      && r.tool == ToolMeant(op, payload)
      && (r.operation.Call? ==> r.tool.Some?)
      && r.arguments.Obj?
      && r.arguments == (if "operation" !in payload && "tool" !in payload && "arguments" !in payload then Obj(payload)
                         else if given.Some? && given.value.Obj? then given.value
                         else Obj(map[]))
  {
    Completed(op, payload);
    Decided(op, Complete(op, payload, ReadFields(payload).value));
  }

  // A request is rejected, as a configuration error, exactly when a field has
  // the wrong type, the operation is not one of the two, a call has no tool, or
  // the arguments are neither an object nor null.
  lemma {:induction false} RejectedRequest(op: string, payload: map<string, Value>)
    ensures ParseRequest(op, payload).Err? <==>
              || ("operation" in payload && !payload["operation"].Str? && !payload["operation"].Null?)
              || ("tool" in payload && !payload["tool"].Str? && !payload["tool"].Null?)
              || OperationMeant(op, payload).None?
              || (OperationMeant(op, payload) == Some(Call) && ToolMeant(op, payload).None?)
              || ("arguments" in payload && !payload["arguments"].Obj? && !payload["arguments"].Null?)
    ensures ParseRequest(op, payload).Err? ==>
              ParseRequest(op, payload).error.code == "MCP_CONFIG_ERROR" &&
              ParseRequest(op, payload).error.status == 400
  {
    if ReadFields(payload).Ok? {
      Completed(op, payload);
      Decided(op, Complete(op, payload, ReadFields(payload).value));
    }
  }

  // The shorthand: a payload without the reserved keys, sent to an operation
  // that is neither list nor call, is the explicit call of the tool of that
  // name with that payload, under any operation.
  lemma {:induction false} ShorthandIsExplicitCall(op: string, anyOp: string, payload: map<string, Value>)
    requires "operation" !in payload && "tool" !in payload && "arguments" !in payload
    requires Trim(op) != "" && ParseOperation(op).None?
    ensures
      var explicit := map["operation" := Str("call"), "tool" := Str(Trim(op)), "arguments" := Obj(payload)];
      ParseRequest(op, payload) == ParseRequest(anyOp, explicit)
      == Ok(ParsedRequest(Call, Some(Trim(op)), Obj(payload)))
  {
    ParseOperationTrims(op);
    var explicit := map["operation" := Str("call"), "tool" := Str(Trim(op)), "arguments" := Obj(payload)];
    DistinctKeys();
    assert Obj(explicit).Get("operation") == Some(Str("call"));
    assert Obj(explicit).Get("tool") == Some(Str(Trim(op)));
    assert Obj(explicit).Get("arguments") == Some(Obj(payload));
    CallIsCall();
    assert !IsShorthand(explicit);
  }

  lemma {:induction false} DistinctKeys()
    ensures "operation" != "tool" && "operation" != "arguments" && "tool" != "arguments"
  {
    assert "operation"[0] == 'o' && "arguments"[0] == 'a' && |"tool"| == 4;
  }

  lemma {:induction false} CallIsCall()
    ensures ParseOperation("call") == Some(Call)
  {
    TrimOfTrimmed("call");
    LowerKeepsLowerCase("call");
    assert "call"[0] == 'c' && "list"[0] == 'l';
  }
}
