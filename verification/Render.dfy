// Rendering of a completed tool result: the content list, the flat `messages`
// list beside it, and the annotations lifted from the content.
module Render {
  import opened Prelude
  import opened Json
  import opened Adapter

  datatype Role = User | Assistant

  datatype Annotations = Annotations(audience: Option<seq<Role>>, priority: Option<real>, timestamp: Option<string>)

  datatype ContentBlock =
    | Text(text: string, annotations: Option<Annotations>)
    | Image(data: string, mimeType: string, annotations: Option<Annotations>)
    | Audio(data: string, mimeType: string, annotations: Option<Annotations>)
    | ResourceLink(uri: string, title: Option<string>, description: Option<string>, optionalMime: Option<string>,
                   annotations: Option<Annotations>)
    | EmbeddedResource(uri: string, title: Option<string>, description: Option<string>, optionalMime: Option<string>,
                       data: string, annotations: Option<Annotations>)

  datatype Progress = Progress(progress: Option<real>, message: Option<string>, annotations: Option<Annotations>)

  datatype ToolResult = ToolResult(
    content: seq<ContentBlock>,
    structured: Option<string>,
    progress: Option<seq<Progress>>,
    meta: Option<seq<MetaEntry>>,
    isError: Option<bool>)

  // ----- What the renderer builds -----

  function TextOrNull(s: Option<string>): Value {
    match s case Some(t) => Str(t) case None => Null
  }

  function NumOrNull(x: Option<real>): Value {
    match x case Some(n) => Num(n) case None => Null
  }

  function RenderRole(r: Role): Value {
    match r case User => Str("user") case Assistant => Str("assistant")
  }

  function RenderRoles(roles: seq<Role>): seq<Value> {
    seq(|roles|, i requires 0 <= i < |roles| => RenderRole(roles[i]))
  }

  function RenderAnnotations(a: Annotations): Value {
    Obj(map[
      "audience" := match a.audience case Some(roles) => Arr(RenderRoles(roles)) case None => Null,
      "priority" := NumOrNull(a.priority),
      "timestamp" := TextOrNull(a.timestamp)])
  }

  function AnnotationsOrNull(a: Option<Annotations>): Value {
    match a case Some(x) => RenderAnnotations(x) case None => Null
  }

  function Payload(b: ContentBlock): Value {
    var annotations := AnnotationsOrNull(b.annotations);
    match b
    case Text(text, _) =>
      Obj(map["type" := Str("text"), "text" := Str(text), "annotations" := annotations])
    case Image(data, mime, _) =>
      Obj(map["type" := Str("image"), "data" := Str(data), "mime_type" := Str(mime), "annotations" := annotations])
    case Audio(data, mime, _) =>
      Obj(map["type" := Str("audio"), "data" := Str(data), "mime_type" := Str(mime), "annotations" := annotations])
    case ResourceLink(uri, title, description, mime, _) =>
      Obj(map["type" := Str("resource_link"), "uri" := Str(uri), "title" := TextOrNull(title),
              "description" := TextOrNull(description), "mime_type" := TextOrNull(mime), "annotations" := annotations])
    case EmbeddedResource(uri, title, description, mime, data, _) =>
      Obj(map["type" := Str("resource"), "uri" := Str(uri), "title" := TextOrNull(title),
              "description" := TextOrNull(description), "mime_type" := TextOrNull(mime), "data" := Str(data),
              "annotations" := annotations])
  }

  function Message(b: ContentBlock): Value {
    match b
    case Text(text, _) => Obj(map["type" := Str("text"), "text" := Str(text)])
    case Image(data, mime, _) => Obj(map["type" := Str("image"), "mime_type" := Str(mime), "data" := Str(data)])
    case Audio(data, mime, _) => Obj(map["type" := Str("audio"), "mime_type" := Str(mime), "data" := Str(data)])
    case ResourceLink(uri, title, description, _, _) =>
      Obj(map["type" := Str("resource_link"), "uri" := Str(uri), "title" := TextOrNull(title),
              "description" := TextOrNull(description)])
    case EmbeddedResource(uri, title, description, mime, _, _) =>
      Obj(map["type" := Str("resource"), "uri" := Str(uri), "title" := TextOrNull(title),
              "description" := TextOrNull(description), "mime_type" := TextOrNull(mime)])
  }

  // ----- Reading it back -----

  ghost function ReadText(v: Value, key: string): string {
    match v.GetStr(key) case Some(s) => s case None => ""
  }

  ghost function ReadRoles(vs: seq<Value>): seq<Role> {
    seq(|vs|, i requires 0 <= i < |vs| => if vs[i] == Str("assistant") then Assistant else User)
  }

  ghost function ReadAnnotations(v: Value): Option<Annotations> {
    if !v.Obj? then None
    else Some(Annotations(
      match v.GetArr("audience") case Some(vs) => Some(ReadRoles(vs)) case None => None,
      match v.Get("priority") case Some(Num(n)) => Some(n) case _ => None,
      v.GetStr("timestamp")))
  }

  ghost function ReadAnnotationsOf(v: Value): Option<Annotations> {
    match v.Get("annotations") case Some(a) => ReadAnnotations(a) case None => None
  }

  // The content block a content entry stands for.
  ghost function ReadBlock(v: Value): Option<ContentBlock> {
    var annotations := ReadAnnotationsOf(v);
    match v.GetStr("type")
    case None => None
    case Some(kind) =>
      if kind == "text" then Some(Text(ReadText(v, "text"), annotations))
      else if kind == "image" then Some(Image(ReadText(v, "data"), ReadText(v, "mime_type"), annotations))
      else if kind == "audio" then Some(Audio(ReadText(v, "data"), ReadText(v, "mime_type"), annotations))
      else if kind == "resource_link" then
        Some(ResourceLink(ReadText(v, "uri"), v.GetStr("title"), v.GetStr("description"),
                          v.GetStr("mime_type"), annotations))
      else if kind == "resource" then
        Some(EmbeddedResource(ReadText(v, "uri"), v.GetStr("title"), v.GetStr("description"), v.GetStr("mime_type"),
                              ReadText(v, "data"), annotations))
      else None
  }

  lemma {:induction false} KeysDiffer()
    ensures "type" != "text" && "type" != "data" && "type" != "uri" && "type" != "title" && "type" != "description"
    ensures "type" != "mime_type" && "type" != "annotations" && "text" != "annotations"
    ensures "data" != "uri" && "data" != "title" && "data" != "description" &&
            "data" != "mime_type" && "data" != "annotations"
    ensures "uri" != "title" && "uri" != "description" && "uri" != "mime_type" && "uri" != "annotations"
    ensures "title" != "description" && "title" != "mime_type" && "title" != "annotations"
    ensures "description" != "mime_type" && "description" != "annotations" && "mime_type" != "annotations"
  {
    assert "type"[1] == 'y' && "text"[1] == 'e' && "data"[1] == 'a';
    assert "description"[0] == 'd' && "annotations"[0] == 'a';
    assert |"type"| == 4 && |"uri"| == 3 && |"title"| == 5 && |"mime_type"| == 9 && |"description"| == 11;
  }

  lemma {:induction false} KindsDiffer()
    ensures "text" != "image" && "text" != "audio" && "text" != "resource_link" && "text" != "resource"
    ensures "image" != "audio" && "image" != "resource_link" && "image" != "resource"
    ensures "audio" != "resource_link" && "audio" != "resource" && "resource_link" != "resource"
  {
    assert |"text"| == 4 && |"resource_link"| == 13 && |"resource"| == 8;
    assert "image"[0] == 'i' && "audio"[0] == 'a';
  }

  lemma {:induction false} RolesReadBack(roles: seq<Role>)
    ensures ReadRoles(RenderRoles(roles)) == roles
  {
    assert "user"[0] == 'u' && "assistant"[0] == 'a';
  }

  lemma {:induction false} AnnotationsReadBack(a: Annotations)
    ensures ReadAnnotations(RenderAnnotations(a)) == Some(a)
  {
    assert "audience"[0] == 'a' && "priority"[0] == 'p' && "timestamp"[0] == 't';
    var v := RenderAnnotations(a);
    assert v.Get("priority") == Some(NumOrNull(a.priority));
    assert v.Get("timestamp") == Some(TextOrNull(a.timestamp));
    if a.audience.Some? {
      RolesReadBack(a.audience.value);
      assert v.GetArr("audience") == Some(RenderRoles(a.audience.value));
    }
  }

  lemma {:induction false} AnnotationsOfPayload(b: ContentBlock)
    ensures ReadAnnotationsOf(Payload(b)) == b.annotations
  {
    if b.annotations.Some? {
      AnnotationsReadBack(b.annotations.value);
    }
    assert Payload(b).Get("annotations") == Some(AnnotationsOrNull(b.annotations));
  }

  lemma {:induction false} TextReadsBack(b: ContentBlock)
    requires b.Text?
    ensures ReadBlock(Payload(b)) == Some(b)
  {
    KeysDiffer();
    AnnotationsOfPayload(b);
    var v := Payload(b);
    assert v.GetStr("type") == Some("text");
    assert v.GetStr("text") == Some(b.text);
  }

  lemma {:induction false} MediaReadsBack(b: ContentBlock)
    requires b.Image? || b.Audio?
    ensures ReadBlock(Payload(b)) == Some(b)
  {
    KeysDiffer();
    AnnotationsOfPayload(b);
    KindsDiffer();
    var v := Payload(b);
    assert v.GetStr("type") == Some(if b.Image? then "image" else "audio");
    assert v.GetStr("data") == Some(b.data);
    assert v.GetStr("mime_type") == Some(b.mimeType);
  }

  lemma {:induction false} LinkReadsBack(b: ContentBlock)
    requires b.ResourceLink?
    ensures ReadBlock(Payload(b)) == Some(b)
  {
    KeysDiffer();
    AnnotationsOfPayload(b);
    KindsDiffer();
    var v := Payload(b);
    assert v.GetStr("type") == Some("resource_link");
    assert v.GetStr("uri") == Some(b.uri);
    assert v.GetStr("title") == b.title;
    assert v.GetStr("description") == b.description;
    assert v.GetStr("mime_type") == b.optionalMime;
  }

  lemma {:induction false} ResourceReadsBack(b: ContentBlock)
    requires b.EmbeddedResource?
    ensures ReadBlock(Payload(b)) == Some(b)
  {
    KeysDiffer();
    AnnotationsOfPayload(b);
    KindsDiffer();
    var v := Payload(b);
    assert v.GetStr("type") == Some("resource");
    assert v.GetStr("uri") == Some(b.uri);
    assert v.GetStr("title") == b.title;
    assert v.GetStr("description") == b.description;
    assert v.GetStr("mime_type") == b.optionalMime;
    assert v.GetStr("data") == Some(b.data);
  }

  // The keys a message leaves out of its content entry.
  function Hidden(b: ContentBlock): set<string> {
    match b
    case ResourceLink(_, _, _, _, _) => {"annotations", "mime_type"}
    case EmbeddedResource(_, _, _, _, _, _) => {"annotations", "data"}
    case _ => {"annotations"}
  }

  lemma {:induction false} TextMessageIsContent(b: ContentBlock)
    requires b.Text?
    ensures Message(b).fields == Payload(b).fields - Hidden(b)
  {
    KeysDiffer();
  }

  lemma {:induction false} MediaMessageIsContent(b: ContentBlock)
    requires b.Image? || b.Audio?
    ensures Message(b).fields == Payload(b).fields - Hidden(b)
  {
    KeysDiffer();
  }

  lemma {:induction false} LinkMessageIsContent(b: ContentBlock)
    requires b.ResourceLink?
    ensures Message(b).fields == Payload(b).fields - Hidden(b)
  {
    KeysDiffer();
  }

  lemma {:induction false} ResourceMessageIsContent(b: ContentBlock)
    requires b.EmbeddedResource?
    ensures Message(b).fields == Payload(b).fields - Hidden(b)
  {
    KeysDiffer();
  }

  // What every message shows of its block.
  ghost predicate ShowsBlock(b: ContentBlock, message: Value) {
    match b
    case Text(text, _) => message.GetStr("text") == Some(text)
    case Image(data, mime, _) => message.GetStr("data") == Some(data) && message.GetStr("mime_type") == Some(mime)
    case Audio(data, mime, _) => message.GetStr("data") == Some(data) && message.GetStr("mime_type") == Some(mime)
    case ResourceLink(uri, title, description, _, _) =>
      && message.GetStr("uri") == Some(uri)
      && message.GetStr("title") == title && message.GetStr("description") == description
    case EmbeddedResource(uri, title, description, mime, _, _) =>
      && message.GetStr("uri") == Some(uri) && message.GetStr("mime_type") == mime
      && message.GetStr("title") == title && message.GetStr("description") == description
  }

  lemma {:induction false} MessageShows(b: ContentBlock)
    ensures ShowsBlock(b, Message(b))
  {
    KeysDiffer();
  }

  lemma {:induction false} MessageHasType(b: ContentBlock)
    ensures Message(b).GetStr("type").Some?
  {
    KeysDiffer();
  }

  // Nothing of a block is lost in its content entry; its message is that entry
  // without the hidden keys.
  ghost predicate IsRendering(b: ContentBlock, payload: Value, message: Value) {
    && ReadBlock(payload) == Some(b)
    && payload.Obj? && message == Obj(payload.fields - Hidden(b)) && message.GetStr("type").Some?
  }

  ghost predicate IsAnnotationsOf(b: ContentBlock, annotations: Option<Value>) {
    match annotations case None => b.annotations.None? case Some(v) => v.Obj? && ReadAnnotations(v) == b.annotations
  }

  method RenderContentBlock(b: ContentBlock) returns (payload: Value, message: Value, annotations: Option<Value>)
    ensures IsRendering(b, payload, message)
    ensures ShowsBlock(b, message)
    ensures IsAnnotationsOf(b, annotations)
  {
    payload, message := Payload(b), Message(b);
    annotations := match b.annotations case Some(a) => Some(RenderAnnotations(a)) case None => None;
    MessageHasType(b);
    MessageShows(b);
    if b.annotations.Some? {
      AnnotationsReadBack(b.annotations.value);
    }
    match b {
      case Text(_, _) => TextReadsBack(b); TextMessageIsContent(b);
      case Image(_, _, _) => MediaReadsBack(b); MediaMessageIsContent(b);
      case Audio(_, _, _) => MediaReadsBack(b); MediaMessageIsContent(b);
      case ResourceLink(_, _, _, _, _) => LinkReadsBack(b); LinkMessageIsContent(b);
      case EmbeddedResource(_, _, _, _, _, _) => ResourceReadsBack(b); ResourceMessageIsContent(b);
    }
  }

  // ----- The accumulating renderer -----

  // `content` and `messages` stand for `blocks`, one for one.
  ghost predicate Renders(blocks: seq<ContentBlock>, content: seq<Value>, messages: seq<Value>) {
    && |content| == |messages| == |blocks|
    && (forall i :: 0 <= i < |blocks| ==> IsRendering(blocks[i], content[i], messages[i]))
  }

  // The annotations of the first block that has any.
  ghost predicate FirstAnnotations(blocks: seq<ContentBlock>, found: Option<Value>) {
    match found
    case None => forall i :: 0 <= i < |blocks| ==> blocks[i].annotations.None?
    case Some(v) =>
      exists i :: IsFirstAnnotated(blocks, i) && ReadAnnotations(v) == blocks[i].annotations
  }

  predicate IsFirstAnnotated(blocks: seq<ContentBlock>, i: int) {
    && 0 <= i < |blocks| && blocks[i].annotations.Some?
    && forall j :: 0 <= j < i ==> blocks[j].annotations.None?
  }

  lemma {:induction false} RendersOneMore(blocks: seq<ContentBlock>, content: seq<Value>, messages: seq<Value>,
                                          b: ContentBlock, payload: Value, message: Value)
    requires Renders(blocks, content, messages) && IsRendering(b, payload, message)
    ensures Renders(blocks + [b], content + [payload], messages + [message])
  {
  }

  lemma {:induction false} AnnotationsOneMore(blocks: seq<ContentBlock>, annotations: Option<Value>, b: ContentBlock,
                                              found: Option<Value>)
    requires FirstAnnotations(blocks, annotations) && IsAnnotationsOf(b, found)
    ensures FirstAnnotations(blocks + [b], if annotations.Some? then annotations else found)
  {
    if annotations.Some? {
      var i :| IsFirstAnnotated(blocks, i) && ReadAnnotations(annotations.value) == blocks[i].annotations;
      assert IsFirstAnnotated(blocks + [b], i);
    } else if found.Some? {
      assert IsFirstAnnotated(blocks + [b], |blocks|);
    }
  }

  lemma {:induction false} OneMore(blocks: seq<ContentBlock>, k: nat, content: seq<Value>, messages: seq<Value>,
                                   annotations: Option<Value>, payload: Value, message: Value, found: Option<Value>)
    requires k < |blocks| && Renders(blocks[..k], content, messages) && FirstAnnotations(blocks[..k], annotations)
    requires IsRendering(blocks[k], payload, message) && IsAnnotationsOf(blocks[k], found)
    ensures Renders(blocks[..k + 1], content + [payload], messages + [message])
    ensures FirstAnnotations(blocks[..k + 1], if annotations.Some? then annotations else found)
  {
    RendersOneMore(blocks[..k], content, messages, blocks[k], payload, message);
    AnnotationsOneMore(blocks[..k], annotations, blocks[k], found);
    assert blocks[..k + 1] == blocks[..k] + [blocks[k]];
  }

  method RenderBlocks(blocks: seq<ContentBlock>)
    returns (content: seq<Value>, messages: seq<Value>, annotations: Option<Value>)
    ensures Renders(blocks, content, messages)
    ensures FirstAnnotations(blocks, annotations)
  {
    content, messages, annotations := [], [], None;
    for k := 0 to |blocks|
      invariant Renders(blocks[..k], content, messages)
      invariant FirstAnnotations(blocks[..k], annotations)
    {
      var block := blocks[k];
      var payload, message, found := RenderContentBlock(block);
      OneMore(blocks, k, content, messages, annotations, payload, message, found);
      messages := messages + [message];
      if annotations.None? {
        annotations := found;
      }
      content := content + [payload];
    }
    assert blocks[..|blocks|] == blocks;
  }

  // Content entries and messages have equal types, and two lists that render
  // alike are equal.
  lemma {:induction false} RenderingKeepsTypes(blocks: seq<ContentBlock>, content: seq<Value>, messages: seq<Value>,
                                               i: nat)
    requires Renders(blocks, content, messages) && i < |blocks|
    ensures messages[i].GetStr("type") == content[i].GetStr("type") && messages[i].GetStr("type").Some?
    ensures forall key :: messages[i].Get(key).Some? ==> messages[i].Get(key) == content[i].Get(key)
  {
    assert IsRendering(blocks[i], content[i], messages[i]) && ReadBlock(content[i]).Some?;
  }

  lemma {:induction false} RenderingIsFaithful(a: seq<ContentBlock>, b: seq<ContentBlock>, content: seq<Value>,
                                               ma: seq<Value>, mb: seq<Value>)
    requires Renders(a, content, ma) && Renders(b, content, mb)
    ensures a == b && ma == mb
  {
    assert forall i :: 0 <= i < |a| ==> IsRendering(a[i], content[i], ma[i]) && IsRendering(b[i], content[i], mb[i]);
  }

  function RenderProgress(ps: seq<Progress>): Value {
    Arr(seq(|ps|, i requires 0 <= i < |ps| =>
      Obj(map["progress" := NumOrNull(ps[i].progress), "message" := TextOrNull(ps[i].message),
              "annotations" := AnnotationsOrNull(ps[i].annotations)])))
  }

  function OrNull(v: Option<Value>): Value {
    match v case Some(x) => x case None => Null
  }

  // The whole answer, from its variable parts.
  function Envelope(codec: Codec, result: ToolResult, content: seq<Value>, messages: seq<Value>,
                    annotations: Option<Value>, meta: Option<Value>): Value
  {
    Obj(map["ok" := Bool(true), "result" := ResultBody(codec, result, content, annotations, meta),
            "messages" := Arr(messages), "protocol" := Str(PROTOCOL)])
  }

  function ResultBody(codec: Codec, result: ToolResult, content: seq<Value>, annotations: Option<Value>,
                      meta: Option<Value>): Value
  {
    var structured := match result.structured case Some(raw) => ParseJsonString(codec, raw) case None => Null;
    var progress := match result.progress case Some(ps) => RenderProgress(ps) case None => Null;
    var isError := match result.isError case Some(b) => Bool(b) case None => Null;
    Obj(map[
      "content" := Arr(content), "structured_content" := structured, "progress" := progress,
      "meta" := OrNull(meta), "is_error" := isError, "annotations" := OrNull(annotations)])
  }

  lemma {:induction false} EnvelopeKeysDiffer()
    ensures "ok" != "result" && "ok" != "messages" && "ok" != "protocol"
    ensures "result" != "messages" && "result" != "protocol" && "messages" != "protocol"
    ensures "content" != "structured_content" && "content" != "progress" && "content" != "meta"
    ensures "content" != "is_error" && "content" != "annotations"
    ensures "structured_content" != "progress" && "structured_content" != "meta"
    ensures "structured_content" != "is_error" && "structured_content" != "annotations" && "progress" != "meta"
    ensures "progress" != "is_error" && "progress" != "annotations" && "meta" != "is_error" && "meta" != "annotations"
    ensures "is_error" != "annotations"
  {
    assert |"ok"| == 2 && |"result"| == 6 && "messages"[0] == 'm' && "protocol"[0] == 'p';
    assert |"content"| == 7 && |"structured_content"| == 18 && |"meta"| == 4 && |"annotations"| == 11;
    assert "progress"[0] == 'p' && "is_error"[0] == 'i';
  }

  // The answer says it is one, and holds the messages beside the result.
  lemma {:induction false} EnvelopeReads(codec: Codec, result: ToolResult, content: seq<Value>, messages: seq<Value>,
                                         annotations: Option<Value>, meta: Option<Value>)
    ensures
      IsAnswer(codec, result, content, messages, annotations, meta,
               Envelope(codec, result, content, messages, annotations, meta))
  {
    EnvelopeKeysDiffer();
    BodyReads(codec, result, content, annotations, meta);
  }

  ghost predicate IsAnswer(codec: Codec, result: ToolResult, content: seq<Value>, messages: seq<Value>,
                           annotations: Option<Value>, meta: Option<Value>, answer: Value)
  {
    && answer.GetBool("ok") == Some(true) && answer.GetStr("protocol") == Some("25.06.18")
    && answer.GetArr("messages") == Some(messages) && answer.Get("result").Some?
    && HoldsResult(codec, result, content, annotations, meta, answer.Get("result").value)
  }

  // The members of the result: each given part, or null.
  ghost predicate HoldsResult(codec: Codec, result: ToolResult, content: seq<Value>, annotations: Option<Value>,
                              meta: Option<Value>, body: Value)
  {
    && body.GetArr("content") == Some(content)
    && (annotations.Some? ==> body.Get("annotations") == annotations)
    && (annotations.None? ==> body.Get("annotations") == Some(Null))
    && (meta.Some? ==> body.Get("meta") == meta) && (meta.None? ==> body.Get("meta") == Some(Null))
    && (result.isError.Some? ==> body.GetBool("is_error") == result.isError)
    && (result.isError.None? ==> body.Get("is_error") == Some(Null))
    && (result.structured.None? ==> body.Get("structured_content") == Some(Null))
    && (result.structured.Some? ==>
          var parsed := codec.parse(result.structured.value);
          body.Get("structured_content") == Some(if parsed.Some? then parsed.value else Str(result.structured.value)))
    && (result.progress.None? ==> body.Get("progress") == Some(Null))
    && (result.progress.Some? ==>
          body.GetArr("progress").Some? && ReadProgress(body.GetArr("progress").value) == result.progress.value)
  }

  ghost function ReadProgress(items: seq<Value>): seq<Progress> {
    seq(|items|, i requires 0 <= i < |items| =>
      Progress(match items[i].Get("progress") case Some(Num(n)) => Some(n) case _ => None,
               items[i].GetStr("message"), ReadAnnotationsOf(items[i])))
  }

  lemma {:induction false} ProgressReadsBack(ps: seq<Progress>)
    ensures RenderProgress(ps).Arr? && ReadProgress(RenderProgress(ps).items) == ps
  {
    var items := RenderProgress(ps).items;
    forall i | 0 <= i < |ps|
      ensures ReadProgress(items)[i] == ps[i]
    {
      ProgressItem(ps[i], items[i]);
    }
  }

  lemma {:induction false} ProgressItem(p: Progress, item: Value)
    requires item == Obj(map["progress" := NumOrNull(p.progress), "message" := TextOrNull(p.message),
                             "annotations" := AnnotationsOrNull(p.annotations)])
    ensures (match item.Get("progress") case Some(Num(n)) => Some(n) case _ => None) == p.progress
    ensures item.GetStr("message") == p.message && ReadAnnotationsOf(item) == p.annotations
  {
    assert "progress"[0] == 'p' && "message"[0] == 'm' && "annotations"[0] == 'a';
    if p.annotations.Some? {
      AnnotationsReadBack(p.annotations.value);
    }
    assert item.Get("annotations") == Some(AnnotationsOrNull(p.annotations));
    assert item.Get("message") == Some(TextOrNull(p.message));
  }

  lemma {:induction false} BodyReads(codec: Codec, result: ToolResult, content: seq<Value>, annotations: Option<Value>,
                                     meta: Option<Value>)
    ensures HoldsResult(codec, result, content, annotations, meta,
                        ResultBody(codec, result, content, annotations, meta))
  {
    EnvelopeKeysDiffer();
    if result.progress.Some? {
      ProgressReadsBack(result.progress.value);
    }
  }

  ghost predicate IsMeta(codec: Codec, entries: Option<seq<MetaEntry>>, meta: Option<Value>) {
    match entries case None => meta.None? case Some(es) => meta.Some? && IsMetaObject(codec, es, meta.value)
  }

  method RenderToolResult(codec: Codec, result: ToolResult) returns (payload: Value)
    ensures exists content, messages, annotations, meta ::
              && Renders(result.content, content, messages)
              && FirstAnnotations(result.content, annotations)
              && IsMeta(codec, result.meta, meta)
              && IsAnswer(codec, result, content, messages, annotations, meta, payload)
              && payload == Envelope(codec, result, content, messages, annotations, meta)
  {
    var content, messages, annotations := RenderBlocks(result.content);
    var meta := None;
    if result.meta.Some? {
      var fields := MetaToValue(codec, result.meta.value);
      meta := Some(fields);
    }
    EnvelopeReads(codec, result, content, messages, annotations, meta);
    return Envelope(codec, result, content, messages, annotations, meta);
  }
}
