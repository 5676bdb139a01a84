// The adapter's `handle_invoke`: which router calls a request leads to, and
// when the OAuth gate answers with a sign-in card instead of calling the tool.
// The router is arbitrary: its answer may depend on how many calls came before.
module Adapter {
  import opened Prelude
  import opened Text
  import opened TextLaws
  import opened Json
  import opened Requests

  datatype MetaEntry = MetaEntry(key: string, value: string)

  datatype Tool = Tool(name: string, meta: Option<seq<MetaEntry>>)

  datatype CallFailure =
    | InvalidParameters(text: string)
    | ExecutionError(text: string)
    | SchemaError(text: string)
    | UnknownTool(text: string)
    | Transport(text: string)

  datatype Effect = ListedTools | ResolvedSecret(key: string) | CalledTool(tool: string, arguments: Value)

  datatype Router<!R> = Router(
    listTools: nat -> Result<seq<Tool>, string>,
    callTool: (nat, string, Value) -> Result<R, CallFailure>,
    resolveSecret: (nat, string) -> Option<string>)

  // The external card renderer.
  type CardRenderer = (Value, Value, Option<string>) -> Result<Value, string>

  datatype Output<R> = ToolList(tools: seq<Tool>) | SignIn(card: Value) | Response(response: R)

  const PROTOCOL := "25.06.18"

  // ----- Metadata -----

  function ParseJsonString(codec: Codec, raw: string): Value {
    match codec.parse(raw) case Some(v) => v case None => Str(raw)
  }

  // The last value given for a key.
  function LastEntry(entries: seq<MetaEntry>, key: string): Option<string> {
    if entries == [] then None
    else if entries[|entries| - 1].key == key then Some(entries[|entries| - 1].value)
    else LastEntry(entries[..|entries| - 1], key)
  }

  // It is the value of an entry that no later entry of the same key replaces.
  ghost predicate IsLastOf(entries: seq<MetaEntry>, key: string, raw: string) {
    exists i :: IsLastAt(entries, key, i) && entries[i].value == raw
  }

  predicate IsLastAt(entries: seq<MetaEntry>, key: string, i: int) {
    0 <= i < |entries| && entries[i].key == key && forall j :: i < j < |entries| ==> entries[j].key != key
  }

  lemma {:induction false} LastEntryIs(entries: seq<MetaEntry>, key: string)
    ensures LastEntry(entries, key).None? <==> forall i :: 0 <= i < |entries| ==> entries[i].key != key
    ensures forall raw :: LastEntry(entries, key) == Some(raw) <==> IsLastOf(entries, key, raw)
  {
    if entries != [] {
      var n := |entries| - 1;
      LastEntryIs(entries[..n], key);
      if entries[n].key == key {
        assert IsLastAt(entries, key, n);
      } else {
        forall i: int
          ensures IsLastAt(entries, key, i) <==> IsLastAt(entries[..n], key, i)
        {
        }
      }
    }
  }

  // A member of the metadata is its last entry, parsed if it is JSON.
  lemma {:induction false} MetaMember(codec: Codec, entries: seq<MetaEntry>, meta: Value, key: string)
    requires IsMetaObject(codec, entries, meta)
    ensures meta.Get(key).None? <==> forall i :: 0 <= i < |entries| ==> entries[i].key != key
    ensures forall raw :: IsLastOf(entries, key, raw) ==>
              meta.Get(key) == Some(if codec.parse(raw).Some? then codec.parse(raw).value else Str(raw))
  {
    LastEntryIs(entries, key);
  }

  ghost predicate IsMetaObject(codec: Codec, entries: seq<MetaEntry>, meta: Value) {
    meta.Obj? && forall key ::
      meta.Get(key) == match LastEntry(entries, key)
          case Some(raw) => Some(ParseJsonString(codec, raw))
          case None => None
  }

  // Later entries replace earlier ones of the same key.
  method MetaToValue(codec: Codec, entries: seq<MetaEntry>) returns (meta: Value)
    ensures IsMetaObject(codec, entries, meta)
  {
    var fields: map<string, Value> := map[];
    for i := 0 to |entries|
      invariant IsMetaObject(codec, entries[..i], Obj(fields))
    {
      assert entries[..i + 1][..i] == entries[..i];
      fields := fields[entries[i].key := ParseJsonString(codec, entries[i].value)];
    }
    assert entries[..|entries|] == entries;
    return Obj(fields);
  }

  lemma {:induction false} MetaObjectIsUnique(codec: Codec, entries: seq<MetaEntry>, a: Value, b: Value)
    requires IsMetaObject(codec, entries, a) && IsMetaObject(codec, entries, b)
    ensures a == b
  {
    forall key
      ensures key in a.fields <==> key in b.fields
      ensures key in a.fields ==> a.fields[key] == b.fields[key]
    {
      assert a.Get(key) == b.Get(key);
    }
  }

  // ----- The secret the token is stored under -----

  predicate IsRequired(r: Value) {
    r.GetBool("required") == Some(true)
  }

  predicate NamesToken(r: Value) {
    r.GetStr("key").Some? &&
    (Contains(r.GetStr("key").value, "oauth2") ||
    EndsWith(r.GetStr("key").value, "access_token"))
  }

  predicate TokenEntry(r: Value) {
    IsRequired(r) && NamesToken(r)
  }

  predicate ClientIdField(f: Value) {
    f.GetStr("key").Some? && EndsWith(f.GetStr("key").value, "client_id")
  }

  function FindFirst(reqs: seq<Value>, p: Value -> bool): Option<Value> {
    if reqs == [] then None else if p(reqs[0]) then Some(reqs[0]) else FindFirst(reqs[1..], p)
  }

  function KeyOf(r: Option<Value>): Option<string> {
    match r case Some(v) => v.GetStr("key") case None => None
  }

  function OauthSecretKey(meta: Value): Option<string> {
    match meta.GetArr("secret_requirements")
    case None => None
    case Some(reqs) =>
      var preferred := KeyOf(FindFirst(reqs, TokenEntry));
      if preferred.Some? then preferred else KeyOf(FindFirst(reqs, IsRequired))
  }

  // `i` is the first position satisfying `p`.
  ghost predicate IsFirst(reqs: seq<Value>, p: Value -> bool, i: nat) {
    i < |reqs| && p(reqs[i]) && forall j :: 0 <= j < i ==> !p(reqs[j])
  }

  lemma {:induction false} FindFirstIs(reqs: seq<Value>, p: Value -> bool, i: nat)
    requires IsFirst(reqs, p, i)
    ensures FindFirst(reqs, p) == Some(reqs[i])
  {
    if i > 0 {
      assert forall j :: 0 <= j < i - 1 ==> reqs[1..][j] == reqs[j + 1];
      FindFirstIs(reqs[1..], p, i - 1);
    }
  }

  lemma {:induction false} FindFirstNone(reqs: seq<Value>, p: Value -> bool)
    requires forall j :: 0 <= j < |reqs| ==> !p(reqs[j])
    ensures FindFirst(reqs, p) == None
  {
    if reqs != [] {
      FindFirstNone(reqs[1..], p);
    }
  }

  // A required token entry wins wherever it stands; without one, only the very
  // first required entry is looked at, and if that has no text key there is none.
  lemma {:induction false} SecretKeyChoice(meta: Value, reqs: seq<Value>, i: nat)
    requires meta.GetArr("secret_requirements") == Some(reqs)
    ensures IsFirst(reqs, TokenEntry, i) ==> OauthSecretKey(meta) == reqs[i].GetStr("key")
    ensures (forall j :: 0 <= j < |reqs| && IsRequired(reqs[j]) ==> !NamesToken(reqs[j])) &&
            IsFirst(reqs, IsRequired, i)
            ==> OauthSecretKey(meta) == reqs[i].GetStr("key")
    ensures (forall j :: 0 <= j < |reqs| ==> !IsRequired(reqs[j])) ==> OauthSecretKey(meta) == None
    ensures forall other: Value :: other.GetArr("secret_requirements").None? ==> OauthSecretKey(other) == None
  {
    if IsFirst(reqs, TokenEntry, i) {
      FindFirstIs(reqs, TokenEntry, i);
    }
    if IsFirst(reqs, IsRequired, i) {
      FindFirstIs(reqs, IsRequired, i);
    }
    if forall j :: 0 <= j < |reqs| && IsRequired(reqs[j]) ==> !NamesToken(reqs[j]) {
      FindFirstNone(reqs, TokenEntry);
    }
    if forall j :: 0 <= j < |reqs| ==> !IsRequired(reqs[j]) {
      FindFirstNone(reqs, TokenEntry);
      FindFirstNone(reqs, IsRequired);
    }
  }

  // What makes an entry required, and a token entry: its own members.
  lemma {:induction false} TokenEntryIff(r: Value)
    ensures IsRequired(r) <==> r.Get("required") == Some(Bool(true))
    ensures NamesToken(r) <==>
              exists key :: r.Get("key") == Some(Str(key)) &&
                            ((exists a, b :: key == a + "oauth2" + b) || (exists a :: key == a + "access_token"))
  {
    if r.GetStr("key").Some? {
      ContainsIff(r.GetStr("key").value, "oauth2");
      EndsWithIff(r.GetStr("key").value, "access_token");
    }
  }

  // ----- The gate -----

  function FindTool(tools: seq<Tool>, name: string): Option<Tool> {
    if tools == [] then None else if tools[0].name == name then Some(tools[0]) else FindTool(tools[1..], name)
  }

  predicate HasToken(oauth: Value, arguments: Value) {
    var tokenInput := match oauth.GetStr("token_input") case Some(s) => s case None => "access_token";
    arguments.GetStr(tokenInput).Some? && Trim(arguments.GetStr(tokenInput).value) != ""
  }

  function ClientIdKey(oauth: Value): Option<string> {
    match oauth.GetArr("setup_fields")
    case None => None
    case Some(fields) =>
      KeyOf(FindFirst(fields, ClientIdField))
  }

  // The client id is kept under the first setup field whose key ends in "client_id".
  lemma {:induction false} ClientIdChoice(oauth: Value, fields: seq<Value>, i: nat)
    requires oauth.Get("setup_fields") == Some(Arr(fields))
    ensures i < |fields| && IsClientIdKey(fields[i]) && (forall j :: 0 <= j < i ==> !IsClientIdKey(fields[j])) ==>
              ClientIdKey(oauth) == fields[i].GetStr("key")
    ensures (forall j :: 0 <= j < |fields| ==> !IsClientIdKey(fields[j])) ==> ClientIdKey(oauth) == None
  {
    forall j | 0 <= j < |fields|
      ensures ClientIdField(fields[j]) <==> IsClientIdKey(fields[j])
    {
      if fields[j].GetStr("key").Some? {
        EndsWithIff(fields[j].GetStr("key").value, "client_id");
      }
    }
    if i < |fields| && IsClientIdKey(fields[i]) && (forall j :: 0 <= j < i ==> !IsClientIdKey(fields[j])) {
      FindFirstIs(fields, ClientIdField, i);
    }
    if forall j :: 0 <= j < |fields| ==> !IsClientIdKey(fields[j]) {
      FindFirstNone(fields, ClientIdField);
    }
  }

  ghost predicate IsClientIdKey(field: Value) {
    exists prefix :: field.Get("key") == Some(Str(prefix + "client_id"))
  }

  // The argument that carries the token: the declaration's own, or `access_token`.
  function TokenArgument(oauth: Value): string {
    match oauth.Get("token_input") case Some(Str(name)) => name case _ => "access_token"
  }

  // It is given: a text with some character that is not white space.
  ghost predicate GivesToken(oauth: Value, arguments: Value) {
    match arguments.Get(TokenArgument(oauth))
    case Some(Str(s)) => exists i :: 0 <= i < |s| && !IsSpace(s[i])
    case _ => false
  }

  lemma {:induction false} HasTokenIff(oauth: Value, arguments: Value)
    ensures HasToken(oauth, arguments) <==> GivesToken(oauth, arguments)
  {
    if arguments.GetStr(TokenArgument(oauth)).Some? {
      NotBlankIff(arguments.GetStr(TokenArgument(oauth)).value);
    }
  }

  // The last `oauth` entry of the tool's metadata, Null without one.
  function OauthOf(codec: Codec, tool: Tool): Value {
    if tool.meta.Some? && LastEntry(tool.meta.value, "oauth").Some?
    then ParseJsonString(codec, LastEntry(tool.meta.value, "oauth").value) else Null
  }

  // The tool declares OAuth: the last `oauth` entry of its metadata is an object.
  ghost predicate DeclaresOauth(codec: Codec, tool: Tool) {
    OauthOf(codec, tool).Obj?
  }

  // The token's own secret is in the store, when asked for first after the list.
  ghost predicate TokenIsStored<R>(codec: Codec, router: Router<R>, tool: Tool) {
    tool.meta.Some? && exists meta ::
      IsMetaObject(codec, tool.meta.value, meta)
      && OauthSecretKey(meta).Some? && router.resolveSecret(1, OauthSecretKey(meta).value).Some?
  }

  // Nothing stands in the way of calling `name`: it is unknown, declares no
  // OAuth, was given a token, or its token is in the secret store.
  ghost predicate Proceeds<R>(codec: Codec, router: Router<R>, tools: seq<Tool>, name: string, arguments: Value) {
    match FindTool(tools, name)
    case None => true
    case Some(tool) =>
      DeclaresOauth(codec, tool) ==>
        || GivesToken(OauthOf(codec, tool), arguments)
        || TokenIsStored(codec, router, tool)
  }

  // The named tool exists, declares OAuth and was given no token.
  ghost predicate IsUnauthenticated<R>(codec: Codec, router: Router<R>, name: string, arguments: Value) {
    && router.listTools(0).Ok?
    && FindTool(router.listTools(0).value, name).Some?
    && var tool := FindTool(router.listTools(0).value, name).value;
    DeclaresOauth(codec, tool) && !GivesToken(OauthOf(codec, tool), arguments)
  }

  // `result` is the stamped card of the tool's declaration; the client id, when a
  // setup field names one, is the answer of secret lookup number `at`.
  ghost predicate IsCardFor<R>(codec: Codec, router: Router<R>, card: CardRenderer, tool: Tool, arguments: Value,
                               at: nat, result: Value)
  {
    var oauth := OauthOf(codec, tool);
    var clientId := match ClientIdKey(oauth) case Some(key) => router.resolveSecret(at, key) case None => None;
    card(oauth, arguments, clientId).Ok? && result == Stamp(card(oauth, arguments, clientId).value)
  }

  // Cards are rendered as objects, or not at all.
  ghost predicate RendersObjects(card: CardRenderer) {
    forall o, a, c :: card(o, a, c).Ok? ==> card(o, a, c).value.Obj?
  }

  predicate IsNeedsAuthCard(v: Value) {
    v.GetBool("ok") == Some(true) && v.GetBool("needs_auth") == Some(true) && v.GetStr("protocol") == Some(PROTOCOL)
  }

  function Stamp(card: Value): Value {
    match card
    case Obj(fields) =>
      Obj(fields["ok" := Bool(true)]["needs_auth" := Bool(true)]["protocol" := Str(PROTOCOL)])
    case _ => card
  }

  predicate OnlySecrets(effects: seq<Effect>) {
    forall e :: e in effects ==> e.ResolvedSecret?
  }

  // The second half of the gate: no token was passed, so look for a stored one,
  // and failing that render the card. Secret lookups count from `ListedTools`.
  method LookUpOrSignIn<R>(codec: Codec, router: Router<R>, card: CardRenderer, tool: Tool, meta: Value,
                           arguments: Value)
    returns (gate: Result<Option<Value>, Failure>, lookups: seq<Effect>)
    requires tool.meta.Some? && IsMetaObject(codec, tool.meta.value, meta)
    ensures OnlySecrets(lookups) && |lookups| <= 2
    ensures gate == Ok(None) <==> TokenIsStored(codec, router, tool)
    ensures gate.Ok? && gate.value.Some? ==>
              IsCardFor(codec, router, card, tool, arguments, |lookups|, gate.value.value)
    ensures gate.Err? ==>
              gate.error.code == "MCP_CONFIG_ERROR" && gate.error.status == 400 && gate.error.tool == Some(tool.name)
  {
    lookups := [];
    forall other | IsMetaObject(codec, tool.meta.value, other)
      ensures other == meta
    {
      MetaObjectIsUnique(codec, tool.meta.value, other, meta);
    }
    var key := OauthSecretKey(meta);
    if key.Some? {
      var secret := router.resolveSecret(1, key.value);
      lookups := [ResolvedSecret(key.value)];
      if secret.Some? {
        return Ok(None), lookups;
      }
    }
    var oauth := OauthOf(codec, tool);
    var clientIdKey := ClientIdKey(oauth);
    var clientId := None;
    if clientIdKey.Some? {
      clientId := router.resolveSecret(1 + |lookups|, clientIdKey.value);
      lookups := lookups + [ResolvedSecret(clientIdKey.value)];
    }
    var rendered := card(oauth, arguments, clientId);
    if rendered.Err? {
      return Err(ConfigError("oauth card render failed: " + rendered.error, Some(tool.name))), lookups;
    }
    return Ok(Some(Stamp(rendered.value))), lookups;
  }

  // None: the call may proceed. The trace records the router calls made.
  method OauthSignInCard<R>(codec: Codec, router: Router<R>, card: CardRenderer, name: string, arguments: Value)
    returns (gate: Result<Option<Value>, Failure>, trace: seq<Effect>)
    ensures trace != [] && trace[0] == ListedTools && OnlySecrets(trace[1..]) && |trace| <= 3
    ensures router.listTools(0).Err? ==>
              gate == Err(Failure("MCP_ROUTER_ERROR", 502, router.listTools(0).error, Some(name))) &&
              trace == [ListedTools]
    ensures router.listTools(0).Ok? ==>
              (gate == Ok(None) <==> Proceeds(codec, router, router.listTools(0).value, name, arguments))
    // Secrets are looked up only for a tool that declares OAuth and was given no token.
    ensures |trace| > 1 ==> IsUnauthenticated(codec, router, name, arguments)
    // The card is the one rendered for that declaration with the client id found, marked.
    ensures gate.Ok? && gate.value.Some? ==>
              && IsUnauthenticated(codec, router, name, arguments)
              && IsCardFor(codec, router, card, FindTool(router.listTools(0).value, name).value, arguments, |trace| - 1,
                           gate.value.value)
    ensures router.listTools(0).Ok? && gate.Err? ==>
              gate.error.code == "MCP_CONFIG_ERROR" && gate.error.status == 400 && gate.error.tool == Some(name)
  {
    trace := [ListedTools];
    var listed := router.listTools(0);
    if listed.Err? {
      return Err(Failure("MCP_ROUTER_ERROR", 502, listed.error, Some(name))), trace;
    }
    var found := FindTool(listed.value, name);
    if found.None? || found.value.meta.None? {
      return Ok(None), trace;
    }
    var tool := found.value;
    FindToolIsNamed(listed.value, name);
    var meta := MetaToValue(codec, tool.meta.value);
    var declared := meta.Get("oauth");
    assert OauthOf(codec, tool) == match declared case Some(v) => v case None => Null;
    if declared.None? || !declared.value.Obj? {
      return Ok(None), trace;
    }
    HasTokenIff(declared.value, arguments);
    if HasToken(declared.value, arguments) {
      return Ok(None), trace;
    }
    var lookups;
    gate, lookups := LookUpOrSignIn(codec, router, card, tool, meta, arguments);
    trace := trace + lookups;
  }

  lemma {:induction false} FindToolIsNamed(tools: seq<Tool>, name: string)
    ensures FindTool(tools, name).Some? ==> FindTool(tools, name).value.name == name
  {
    if tools != [] {
      FindToolIsNamed(tools[1..], name);
    }
  }

  // The tool of a name is the first of that name.
  predicate IsFirstNamed(tools: seq<Tool>, name: string, i: nat) {
    i < |tools| && tools[i].name == name && forall j :: 0 <= j < i ==> tools[j].name != name
  }

  lemma {:induction false} FindToolIsFirst(tools: seq<Tool>, name: string, i: nat)
    ensures IsFirstNamed(tools, name, i) ==> FindTool(tools, name) == Some(tools[i])
    ensures (forall j :: 0 <= j < |tools| ==> tools[j].name != name) ==> FindTool(tools, name) == None
  {
    if tools != [] && tools[0].name != name {
      FindToolIsFirst(tools[1..], name, if i > 0 then i - 1 else |tools|);
      if IsFirstNamed(tools, name, i) {
        assert forall j :: 0 <= j < i - 1 ==> tools[1..][j] == tools[j + 1];
        assert IsFirstNamed(tools[1..], name, i - 1);
      }
    }
  }

  // The declaration in force: the tool's last `oauth` entry, if it is a JSON object.
  ghost predicate Declares(codec: Codec, tool: Tool, oauth: Value) {
    && oauth.Obj? && tool.meta.Some?
    && exists raw :: IsLastOf(tool.meta.value, "oauth", raw) && codec.parse(raw) == Some(oauth)
  }

  lemma {:induction false} DeclaresOauthIff(codec: Codec, tool: Tool)
    ensures DeclaresOauth(codec, tool) <==> exists oauth :: Declares(codec, tool, oauth)
    ensures forall oauth :: Declares(codec, tool, oauth) ==> OauthOf(codec, tool) == oauth
  {
    if tool.meta.Some? {
      LastEntryIs(tool.meta.value, "oauth");
      var last := LastEntry(tool.meta.value, "oauth");
      if last.Some? && DeclaresOauth(codec, tool) {
        assert IsLastOf(tool.meta.value, "oauth", last.value);
        assert Declares(codec, tool, OauthOf(codec, tool));
      }
    }
  }

  // The gate, in the words of its documentation: a tool that declares OAuth and
  // was not given a token is called only if its secret is stored; any other is
  // called.
  lemma {:induction false} GateMeaning<R>(codec: Codec, router: Router<R>, tools: seq<Tool>, name: string,
                                          arguments: Value, i: nat)
    ensures (forall j :: 0 <= j < |tools| ==> tools[j].name != name) ==>
              Proceeds(codec, router, tools, name, arguments)
    ensures IsFirstNamed(tools, name, i) && (forall oauth :: !Declares(codec, tools[i], oauth)) ==>
              Proceeds(codec, router, tools, name, arguments)
    ensures forall oauth :: IsFirstNamed(tools, name, i) && Declares(codec, tools[i], oauth) ==>
              (Proceeds(codec, router, tools, name, arguments) <==>
                 GivesToken(oauth, arguments) || TokenIsStored(codec, router, tools[i]))
  {
    FindToolIsFirst(tools, name, i);
    if IsFirstNamed(tools, name, i) {
      DeclaresOauthIff(codec, tools[i]);
    }
  }

  // Every card shown says that it is one.
  lemma {:induction false} StampMarks(card: Value)
    requires card.Obj?
    ensures IsNeedsAuthCard(Stamp(card))
    ensures forall key :: key !in {"ok", "needs_auth", "protocol"} ==> Stamp(card).Get(key) == card.Get(key)
  {
    assert |"ok"| == 2 && |"needs_auth"| == 10 && |"protocol"| == 8;
  }

  // ----- handle_invoke -----

  function MapCallError(e: CallFailure, tool: string): Failure {
    match e
    case InvalidParameters(text) => Failure("MCP_TOOL_ERROR", 400, text, Some(tool))
    case ExecutionError(text) => Failure("MCP_TOOL_ERROR", 500, text, Some(tool))
    case SchemaError(text) => Failure("MCP_TOOL_ERROR", 422, text, Some(tool))
    case UnknownTool(text) => Failure("MCP_TOOL_ERROR", 404, text, Some(tool))
    case Transport(text) => Failure("MCP_ROUTER_ERROR", 502, text, Some(tool))
  }

  // A tool's error keeps its text and names the tool; each kind has its status,
  // and only a transport error is the router's.
  lemma {:induction false} CallErrors(e: CallFailure, tool: string)
    ensures MapCallError(e, tool).tool == Some(tool) && MapCallError(e, tool).message == e.text
    ensures MapCallError(e, tool).code == if e.Transport? then "MCP_ROUTER_ERROR" else "MCP_TOOL_ERROR"
    ensures e.InvalidParameters? ==> MapCallError(e, tool).status == 400
    ensures e.ExecutionError? ==> MapCallError(e, tool).status == 500
    ensures e.SchemaError? ==> MapCallError(e, tool).status == 422
    ensures e.UnknownTool? ==> MapCallError(e, tool).status == 404
    ensures e.Transport? ==> MapCallError(e, tool).status == 502
  {
  }

  predicate NoToolCall(trace: seq<Effect>) {
    forall i :: 0 <= i < |trace| ==> !trace[i].CalledTool?
  }

  // What a call leads to. A tool is called in exactly one case, once, as the last
  // effect, with the request's own tool and arguments, and its answer is the
  // result. Otherwise the gate's card or error is.
  ghost predicate IsCallOutcome<R>(codec: Codec, router: Router<R>, card: CardRenderer, name: string, arguments: Value,
                                   result: Result<Output<R>, Failure>, trace: seq<Effect>)
  {
    && trace != [] && trace[0] == ListedTools
    && if router.listTools(0).Ok? && Proceeds(codec, router, router.listTools(0).value, name, arguments) then
      var last := |trace| - 1;
      && trace[last] == CalledTool(name, arguments) && NoToolCall(trace[..last])
      && result == match router.callTool(last, name, arguments)
                   case Ok(response) => Ok(Response(response))
                   case Err(e) => Err(MapCallError(e, name))
    else
      && NoToolCall(trace)
      && match result
         case Err(e) => e.status == (if router.listTools(0).Err? then 502 else 400)
         case Ok(SignIn(c)) => IsUnauthenticated(codec, router, name, arguments) &&
          (RendersObjects(card) ==> IsNeedsAuthCard(c))
         case Ok(_) => false
  }

  method HandleCall<R>(codec: Codec, router: Router<R>, card: CardRenderer, name: string, arguments: Value)
    returns (result: Result<Output<R>, Failure>, trace: seq<Effect>)
    ensures IsCallOutcome(codec, router, card, name, arguments, result, trace)
  {
    var gate;
    gate, trace := OauthSignInCard(codec, router, card, name, arguments);
    assert forall i :: 0 < i < |trace| ==> trace[i] == trace[1..][i - 1] && trace[i] in trace[1..];
    if gate.Err? {
      return Err(gate.error), trace;
    }
    if gate.value.Some? {
      if RendersObjects(card) {
        CardsAreMarked(codec, router, card, FindTool(router.listTools(0).value, name).value, arguments,
                       |trace| - 1, gate.value.value);
      }
      return Ok(SignIn(gate.value.value)), trace;
    }
    var answer := router.callTool(|trace|, name, arguments);
    assert NoToolCall(trace);
    trace := trace + [CalledTool(name, arguments)];
    assert trace[..|trace| - 1] + [CalledTool(name, arguments)] == trace;
    if answer.Err? {
      return Err(MapCallError(answer.error, name)), trace;
    }
    return Ok(Response(answer.value)), trace;
  }

  lemma {:induction false} CardsAreMarked<R>(codec: Codec, router: Router<R>, card: CardRenderer, tool: Tool,
                                             arguments: Value, at: nat, result: Value)
    requires RendersObjects(card) && IsCardFor(codec, router, card, tool, arguments, at, result)
    ensures IsNeedsAuthCard(result)
  {
    var oauth := OauthOf(codec, tool);
    var clientId := match ClientIdKey(oauth) case Some(key) => router.resolveSecret(at, key) case None => None;
    assert card(oauth, arguments, clientId).value.Obj?;
    StampMarks(card(oauth, arguments, clientId).value);
  }

  ghost predicate IsRequestOutcome<R>(codec: Codec, router: Router<R>, card: CardRenderer, request: ParsedRequest,
                                      result: Result<Output<R>, Failure>, trace: seq<Effect>)
  {
    match request.operation
    case Call =>
      request.tool.Some? && IsCallOutcome(codec, router, card, request.tool.value, request.arguments, result, trace)
    case List =>
      && trace == [ListedTools]
      && result == match router.listTools(0)
                   case Ok(tools) => Ok(ToolList(tools))
                   case Err(e) => Err(Failure("MCP_ROUTER_ERROR", 502, e, None))
  }

  method HandleInvoke<R>(codec: Codec, router: Router<R>, card: CardRenderer, op: string, payload: map<string, Value>)
    returns (result: Result<Output<R>, Failure>, trace: seq<Effect>)
    ensures match ParseRequest(op, payload)
            case Err(e) => result == Err(e) && trace == []
            case Ok(request) => IsRequestOutcome(codec, router, card, request, result, trace)
  {
    var parsed := ParseRequest(op, payload);
    if parsed.Err? {
      return Err(parsed.error), [];
    }
    AcceptedCallNamesTool(op, payload);
    result, trace := HandleRequest(codec, router, card, parsed.value);
  }

  method HandleRequest<R>(codec: Codec, router: Router<R>, card: CardRenderer, request: ParsedRequest)
    returns (result: Result<Output<R>, Failure>, trace: seq<Effect>)
    requires request.operation.Call? ==> request.tool.Some?
    ensures IsRequestOutcome(codec, router, card, request, result, trace)
  {
    match request.operation {
      case List =>
        trace := [ListedTools];
        var listed := router.listTools(0);
        if listed.Err? {
          return Err(Failure("MCP_ROUTER_ERROR", 502, listed.error, None)), trace;
        }
        return Ok(ToolList(listed.value)), trace;
      case Call =>
        var name := match request.tool case Some(t) => t case None => "";
        result, trace := HandleCall(codec, router, card, name, request.arguments);
    }
  }

  // The tool is called, and called once, exactly when the request is an accepted
  // call, the tools can be listed and nothing stands in the way.
  lemma {:induction false} CallsToolIff<R>(codec: Codec, router: Router<R>, card: CardRenderer, name: string,
                                           arguments: Value, result: Result<Output<R>, Failure>, trace: seq<Effect>)
    requires IsCallOutcome(codec, router, card, name, arguments, result, trace)
    ensures (exists i :: 0 <= i < |trace| && trace[i].CalledTool?) <==>
              router.listTools(0).Ok? && Proceeds(codec, router, router.listTools(0).value, name, arguments)
    ensures forall i, j ::
              0 <= i < |trace| && 0 <= j < |trace| && trace[i].CalledTool? && trace[j].CalledTool? ==> i == j
    ensures result.Ok? && result.value.Response? ==> exists i :: 0 <= i < |trace| && trace[i].CalledTool?
  {
    var last := |trace| - 1;
    assert forall i :: 0 <= i < last ==> trace[i] == trace[..last][i];
  }

  lemma {:induction false} AcceptedCallNamesTool(op: string, payload: map<string, Value>)
    ensures ParseRequest(op, payload).Ok? && ParseRequest(op, payload).value.operation.Call?
            ==> ParseRequest(op, payload).value.tool.Some?
  {
    if ParseRequest(op, payload).Ok? {
      AcceptedRequest(op, payload);
    }
  }
}
