/** JSON values as far as the conversation code looks at them. */
module JsonValues {
  import opened Basics

  type u64 = n: int | 0 <= n < 0x1_0000_0000_0000_0000

  datatype Json =
    | Null
    | Bool(truth: bool)
    | Int(number: int)
    | Float(decimal: real)
    | Str(text: string)
    | Arr(items: seq<Json>)
    | Obj(fields: map<string, Json>)
  {
    function Get(field: string): Option<Json> {
      if Obj? && field in fields then Some(fields[field]) else None
    }
  }

  function AsStr(v: Option<Json>): Option<string> {
    if v.Some? && v.value.Str? then Some(v.value.text) else None
  }

  function AsBool(v: Option<Json>): Option<bool> {
    if v.Some? && v.value.Bool? then Some(v.value.truth) else None
  }

  function AsU64(v: Option<Json>): Option<u64> {
    if v.Some? && v.value.Int? && 0 <= v.value.number < 0x1_0000_0000_0000_0000 then Some(v.value.number) else None
  }

  function OptStr(s: Option<string>): Json { if s.None? then Null else Str(s.value) }
  function OptU64(n: Option<u64>): Json { if n.None? then Null else Int(n.value) }
}

/** The events of a conversation. */
module Conversation {
  import opened Basics
  import opened JsonValues

  datatype Event =
    | UserMessage(content: string)
    | Text(content: string)
    | ToolCall(id: string, name: string, input: Json)
    | ToolResult(toolUseId: string, content: string, isError: bool, remote: bool, contentLength: Option<u64>)
    | OutOfBandOutput(name: string, command: Option<string>, content: string)
    | SystemContext(content: string)
    | SkillInvocation(name: string, arguments: Option<string>, content: string)
}

/** The stored form of an event: a type name and a JSON object. */
module EventSerde {
  import opened Basics
  import opened JsonValues
  import opened Conversation

  datatype Stored = Stored(kind: string, data: Json)

  function Serialize(e: Event): (s: Stored) {
    match e
    case UserMessage(content) => Stored("user_message", Obj(map["content" := Str(content)]))
    case Text(content) => Stored("text", Obj(map["content" := Str(content)]))
    case ToolCall(id, name, input) =>
      Stored("tool_call", Obj(map["id" := Str(id), "name" := Str(name), "input" := input]))
    case ToolResult(toolUseId, content, isError, remote, contentLength) =>
      Stored("tool_result", Obj(map["tool_use_id" := Str(toolUseId), "content" := Str(content),
                                    "is_error" := Bool(isError), "remote" := Bool(remote),
                                    "content_length" := OptU64(contentLength)]))
    case OutOfBandOutput(name, command, content) =>
      Stored("out_of_band_output",
          Obj(map["name" := Str(name), "command" := OptStr(command), "content" := Str(content)]))
    case SystemContext(content) => Stored("system_context", Obj(map["content" := Str(content)]))
    case SkillInvocation(name, arguments, content) =>
      Stored("skill_invocation",
          Obj(map["name" := Str(name), "arguments" := OptStr(arguments), "content" := Str(content)]))
  }

  function OneText(data: Json, make: string -> Event): Option<Event> {
    var content := AsStr(data.Get("content"));
    if content.None? then None else Some(make(content.value))
  }

  function ReadToolCall(data: Json): Option<Event> {
    var id, name, input := AsStr(data.Get("id")), AsStr(data.Get("name")), data.Get("input");
    if id.None? || name.None? || input.None? then None else Some(ToolCall(id.value, name.value, input.value))
  }

  function ReadToolResult(data: Json): Option<Event> {
    var id, content, isError := AsStr(data.Get("tool_use_id")), AsStr(data.Get("content")),
        AsBool(data.Get("is_error"));
    var remote := AsBool(data.Get("remote"));
    if id.None? || content.None? || isError.None? then None
    else Some(ToolResult(id.value, content.value, isError.value, remote.Some? && remote.value,
                         AsU64(data.Get("content_length"))))
  }

  function ReadOutput(data: Json): Option<Event> {
    var name, content := AsStr(data.Get("name")), AsStr(data.Get("content"));
    if name.None? || content.None? then None
    else Some(OutOfBandOutput(name.value, AsStr(data.Get("command")), content.value))
  }

  function ReadSkill(data: Json): Option<Event> {
    var name, content := AsStr(data.Get("name")), AsStr(data.Get("content"));
    if name.None? || content.None? then None
    else Some(SkillInvocation(name.value, AsStr(data.Get("arguments")), content.value))
  }

  function Deserialize(s: Stored): (r: Option<Event>) {
    if s.kind == "user_message" then OneText(s.data, content => UserMessage(content))
    else if s.kind == "text" then OneText(s.data, content => Text(content))
    else if s.kind == "tool_call" then ReadToolCall(s.data)
    else if s.kind == "tool_result" then ReadToolResult(s.data)
    else if s.kind == "out_of_band_output" then ReadOutput(s.data)
    else if s.kind == "system_context" then OneText(s.data, content => SystemContext(content))
    else if s.kind == "skill_invocation" then ReadSkill(s.data)
    else None
  }

  lemma ToolResultRoundTrip(e: Event)
    requires e.ToolResult?
    ensures ReadToolResult(Serialize(e).data) == Some(e)
  {
    var data := Serialize(e).data;
    assert data.Get("tool_use_id") == Some(Str(e.toolUseId));
    assert data.Get("content") == Some(Str(e.content));
    assert data.Get("is_error") == Some(Bool(e.isError));
    assert data.Get("remote") == Some(Bool(e.remote));
    assert data.Get("content_length") == Some(OptU64(e.contentLength));
  }

  /** Every event comes back from its stored form. */
  lemma RoundTrip(e: Event)
    ensures Deserialize(Serialize(e)) == Some(e)
  {
    match e
    case UserMessage(_) =>
    case Text(_) =>
    case SystemContext(_) =>
    case ToolCall(id, name, input) =>
      assert ReadToolCall(Serialize(e).data) == Some(e);
    case ToolResult(_, _, _, _, _) =>
      ToolResultRoundTrip(e);
    case OutOfBandOutput(name, command, content) =>
      assert ReadOutput(Serialize(e).data) == Some(e);
    case SkillInvocation(name, arguments, content) =>
      assert ReadSkill(Serialize(e).data) == Some(e);
  }

  /** Stored texts and calls, by the names they are stored under. */
  lemma StoredForms(content: string, id: string, name: string, input: Json)
    ensures Deserialize(Stored("user_message", Obj(map["content" := Str(content)]))) == Some(UserMessage(content))
    ensures Deserialize(Stored("text", Obj(map["content" := Str(content)]))) == Some(Text(content))
    ensures Deserialize(Stored("system_context", Obj(map["content" := Str(content)]))) == Some(SystemContext(content))
    ensures Deserialize(Stored("tool_call", Obj(map["id" := Str(id), "name" := Str(name), "input" := input])))
            == Some(ToolCall(id, name, input))
  {
    var call := Obj(map["id" := Str(id), "name" := Str(name), "input" := input]);
    assert call.Get("id") == Some(Str(id)) && call.Get("name") == Some(Str(name)) && call.Get("input") == Some(input);
  }

  predicate Has(fields: map<string, Json>, name: string, value: Json) {
    name in fields && fields[name] == value
  }

  /** A stored result needs its call, content and error flag; one without `remote` is local, and one without a length
      has none. */
  lemma StoredResult(fields: map<string, Json>, e: Event)
    requires e.ToolResult?
    ensures Deserialize(Stored("tool_result", Obj(fields))) == Some(e) <==>
            && Has(fields, "tool_use_id", Str(e.toolUseId))
            && Has(fields, "content", Str(e.content))
            && Has(fields, "is_error", Bool(e.isError))
            && (e.remote <==> Has(fields, "remote", Bool(true)))
            && (e.contentLength.Some? ==> Has(fields, "content_length", Int(e.contentLength.value)))
            && (e.contentLength.None? ==> forall n: u64 :: !Has(fields, "content_length", Int(n)))
  {
    var length := AsU64(Obj(fields).Get("content_length"));
    assert length.Some? ==> Has(fields, "content_length", Int(length.value));
    assert Deserialize(Stored("tool_result", Obj(fields))) == ReadToolResult(Obj(fields));
  }
}
