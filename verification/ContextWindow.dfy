/** Conversation events as API messages: adjacent text and tool calls become one assistant message. */
module Messages {
  import opened Basics
  import opened JsonValues
  import opened Conversation

  function Message(role: string, content: Json): Json { Obj(map["role" := Str(role), "content" := content]) }
  function TextBlock(text: string): Json { Obj(map["type" := Str("text"), "text" := Str(text)]) }

  function CallBlock(e: Event): Json
    requires e.ToolCall?
  {
    Obj(map["type" := Str("tool_use"), "id" := Str(e.id), "name" := Str(e.name), "input" := e.input])
  }

  function ResultBlock(e: Event): Json
    requires e.ToolResult?
  {
    if e.remote then
      var base := map["type" := Str("tool_result"), "tool_use_id" := Str(e.toolUseId), "remote" := Bool(true),
                      "is_error" := Bool(e.isError)];
      Obj(if e.contentLength.Some? then base["content_length" := Int(e.contentLength.value)] else base)
    else
      Obj(map["type" := Str("tool_result"), "tool_use_id" := Str(e.toolUseId), "content" := Str(e.content),
              "is_error" := Bool(e.isError)])
  }

  function SkillText(e: Event): string
    requires e.SkillInvocation?
  {
    var header := if e.arguments.Some? then "[Loaded skill: " + e.name + "]\n[Arguments: " + e.arguments.value + "]"
                  else "[Loaded skill: " + e.name + "]";
    header + "\n\n" + e.content
  }

  /** How many tool calls stand in front. */
  function CallRun(events: seq<Event>): (n: nat)
    ensures n <= |events|
  {
    if events == [] || !events[0].ToolCall? then 0 else 1 + CallRun(events[1..])
  }

  /** What goes into one message: an event of its own, or a run of tool calls with the text before it. */
  datatype Chunk = Single(event: Event) | Calls(text: Option<string>, calls: seq<Event>)

  /** The chunk the first event opens, if it says anything, and how many events it takes. */
  function Step(events: seq<Event>): (r: (Option<Chunk>, nat))
    requires events != []
    ensures 1 <= r.1 <= |events|
  {
    if events[0].ToolCall? then (Some(Calls(None, events[..CallRun(events)])), CallRun(events))
    else if events[0].OutOfBandOutput? || (events[0].Text? && events[0].content == "") then (None, 1)
    else
      var n := CallRun(events[1..]);
      if events[0].Text? && n > 0 then (Some(Calls(Some(events[0].content), events[1..1 + n])), 1 + n)
      else (Some(Single(events[0])), 1)
  }

  function Chunks(events: seq<Event>): seq<Chunk>
    decreases |events|
  {
    if events == [] then []
    else
      var (chunk, n) := Step(events);
      (if chunk.Some? then [chunk.value] else []) + Chunks(events[n..])
  }

  function CallBlocks(calls: seq<Event>): (blocks: seq<Json>) {
    if calls == [] || !calls[|calls| - 1].ToolCall? then []
    else CallBlocks(calls[..|calls| - 1]) + [CallBlock(calls[|calls| - 1])]
  }

  function Render(chunk: Chunk): Json {
    match chunk
    case Calls(text, calls) =>
      Message("assistant", Arr((if text.Some? then [TextBlock(text.value)] else []) + CallBlocks(calls)))
    case Single(e) =>
      match e
      case UserMessage(content) => Message("user", Str(content))
      case SystemContext(content) => Message("user", Str(content))
      case Text(content) => Message("assistant", Str(content))
      case ToolResult(_, _, _, _, _) => Message("user", Arr([ResultBlock(e)]))
      case SkillInvocation(_, _, _) => Message("user", Str(SkillText(e)))
      case _ => Null
  }

  function RenderAll(chunks: seq<Chunk>): seq<Json> {
    if chunks == [] then [] else RenderAll(chunks[..|chunks| - 1]) + [Render(chunks[|chunks| - 1])]
  }

  function ToMessages(events: seq<Event>): seq<Json> {
    RenderAll(Chunks(events))
  }

  // --- piecewise conversion ----------------------------------------------------------------------------------

  predicate NoCallFirst(events: seq<Event>) {
    events == [] || !events[0].ToolCall?
  }

  lemma {:induction false} RunsEnd(a: seq<Event>, b: seq<Event>)
    requires NoCallFirst(b)
    ensures CallRun(a + b) == CallRun(a)
  {
    if a == [] {
      assert a + b == b;
    } else {
      RunsEnd(a[1..], b);
      assert (a + b)[1..] == a[1..] + b && (a + b)[0] == a[0];
    }
  }

  /** What a step makes of its events does not depend on what follows, unless tool calls follow. */
  lemma StepIsLocal(a: seq<Event>, b: seq<Event>)
    requires a != [] && NoCallFirst(b)
    ensures Step(a + b) == Step(a)
  {
    RunsEnd(a, b);
    RunsEnd(a[1..], b);
    assert (a + b)[0] == a[0] && (a + b)[1..] == a[1..] + b;
    assert (a + b)[..CallRun(a)] == a[..CallRun(a)];
    assert (a + b)[1..1 + CallRun(a[1..])] == a[1..1 + CallRun(a[1..])];
  }

  lemma {:induction false} ChunksSplit(a: seq<Event>, b: seq<Event>)
    requires NoCallFirst(b)
    ensures Chunks(a + b) == Chunks(a) + Chunks(b)
    decreases |a|
  {
    if a == [] {
      assert a + b == b;
    } else {
      StepIsLocal(a, b);
      var n := Step(a).1;
      assert (a + b)[n..] == a[n..] + b;
      ChunksSplit(a[n..], b);
    }
  }

  lemma {:induction false} RenderSplit(a: seq<Chunk>, b: seq<Chunk>)
    ensures RenderAll(a + b) == RenderAll(a) + RenderAll(b)
  {
    if b == [] {
      assert a + b == a;
    } else {
      var init, last := b[..|b| - 1], b[|b| - 1];
      RenderSplit(a, init);
      assert (a + b)[..|a + b| - 1] == a + init && (a + b)[|a + b| - 1] == last;
    }
  }

  /** Converting piecewise gives the same messages when no piece begins with a tool call. */
  lemma MessagesSplit(a: seq<Event>, b: seq<Event>)
    requires NoCallFirst(b)
    ensures ToMessages(a + b) == ToMessages(a) + ToMessages(b)
  {
    ChunksSplit(a, b);
    RenderSplit(Chunks(a), Chunks(b));
  }

  // --- the loop --------------------------------------------------------------------------------------------------

  /** The calls in front of `events[start..]`, one by one. */
  method CollectCalls(events: seq<Event>, start: nat) returns (blocks: seq<Json>, i: nat)
    requires start <= |events|
    ensures i == start + CallRun(events[start..]) && blocks == CallBlocks(events[start..i])
  {
    i, blocks := start, [];
    while i < |events| && events[i].ToolCall?
      invariant start <= i <= |events|
      invariant i + CallRun(events[i..]) == start + CallRun(events[start..])
      invariant blocks == CallBlocks(events[start..i])
    {
      assert events[i..][1..] == events[i + 1..];
      assert events[start..i + 1] == events[start..i] + [events[i]];
      blocks := blocks + [CallBlock(events[i])];
      i := i + 1;
    }
  }

  function StepMessages(events: seq<Event>): seq<Json>
    requires events != []
  {
    if Step(events).0.Some? then [Render(Step(events).0.value)] else []
  }

  /** One turn of the loop: the event at `start`, and the calls that join it. */
  method Convert(events: seq<Event>, start: nat) returns (out: seq<Json>, i: nat)
    requires start < |events|
    ensures i == start + Step(events[start..]).1 && out == StepMessages(events[start..])
  {
    i, out := start + 1, [];
    ghost var rest := events[start..];
    assert rest[1..] == events[start + 1..];
    match events[start] {
      case OutOfBandOutput(_, _, _) =>
      case ToolCall(_, _, _) =>
        var blocks;
        blocks, i := CollectCalls(events, start);
        assert rest[..CallRun(rest)] == events[start..i];
        out := [Message("assistant", Arr(blocks))];
        assert [] + blocks == blocks;
      case Text(content) =>
        if content != "" {
          if i < |events| && events[i].ToolCall? {
            var blocks;
            blocks, i := CollectCalls(events, i);
            assert rest[1..1 + CallRun(rest[1..])] == events[start + 1..i];
            out := [Message("assistant", Arr([TextBlock(content)] + blocks))];
          } else {
            out := [Render(Single(events[start]))];
          }
        }
      case _ =>
        out := [Render(Single(events[start]))];
    }
  }

  lemma MessagesStep(events: seq<Event>)
    requires events != []
    ensures ToMessages(events) == StepMessages(events) + ToMessages(events[Step(events).1..])
  {
    var (chunk, n) := Step(events);
    var first := if chunk.Some? then [chunk.value] else [];
    RenderSplit(first, Chunks(events[n..]));
    assert RenderAll(first) == StepMessages(events) by {
      if chunk.Some? {
        assert first[..0] == [];
      }
    }
  }

  method EventsToMessages(events: seq<Event>) returns (messages: seq<Json>)
    ensures messages == ToMessages(events)
  {
    messages := [];
    var i := 0;
    assert events[0..] == events;
    while i < |events|
      invariant i <= |events|
      invariant messages + ToMessages(events[i..]) == ToMessages(events)
    {
      MessagesStep(events[i..]);
      var out, next := Convert(events, i);
      assert events[i..][next - i..] == events[next..];
      messages := messages + out;
      i := next;
    }
  }

  // --- reading messages back -------------------------------------------------------------------------------------

  /** What a message says, as the model reads it. */
  datatype Saying =
    | FromUser(text: string)
    | FromAssistant(text: string)
    | Call(id: string, name: string, input: Json)
    | Result(id: string, isError: bool, content: Option<string>, length: Option<u64>)

  /** A block of a message, with exactly the fields its type has. */
  function ReadBlock(role: string, block: Json): Option<Saying> {
    if !block.Obj? then None
    else
      var kind := AsStr(block.Get("type"));
      if role == "assistant" && kind == Some("text") then ReadText(block)
      else if role == "assistant" && kind == Some("tool_use") then ReadCall(block)
      else if role == "user" && kind == Some("tool_result") then ReadResult(block)
      else None
  }

  function ReadText(block: Json): Option<Saying>
    requires block.Obj?
  {
    var text := AsStr(block.Get("text"));
    if text.None? || block.fields.Keys != {"type", "text"} then None else Some(FromAssistant(text.value))
  }

  function ReadCall(block: Json): Option<Saying>
    requires block.Obj?
  {
    var id, name, input := AsStr(block.Get("id")), AsStr(block.Get("name")), block.Get("input");
    if id.None? || name.None? || input.None? || block.fields.Keys != {"type", "id", "name", "input"} then None
    else Some(Call(id.value, name.value, input.value))
  }

  function ReadResult(block: Json): Option<Saying>
    requires block.Obj?
  {
    var id, isError := AsStr(block.Get("tool_use_id")), AsBool(block.Get("is_error"));
    var content, length := AsStr(block.Get("content")), AsU64(block.Get("content_length"));
    var common := {"type", "tool_use_id", "is_error"};
    var rest := block.fields.Keys - common;
    if id.None? || isError.None? then None
    else if rest == {"content"} && content.Some? then Some(Result(id.value, isError.value, content, None))
    else if block.Get("remote") != Some(Bool(true)) then None
    else if rest == {"remote"} then Some(Result(id.value, isError.value, None, None))
    else if rest == {"remote", "content_length"} && length.Some? then
      Some(Result(id.value, isError.value, None, length))
    else None
  }

  function ReadBlocks(role: string, blocks: seq<Json>): Option<seq<Saying>> {
    if blocks == [] then Some([])
    else
      var init := ReadBlocks(role, blocks[..|blocks| - 1]);
      var last := ReadBlock(role, blocks[|blocks| - 1]);
      if init.None? || last.None? then None else Some(init.value + [last.value])
  }

  /** A message is a role and a content: a text, or blocks and at least one. */
  function ReadMessage(m: Json): Option<seq<Saying>> {
    if !m.Obj? || m.fields.Keys != {"role", "content"} then None
    else
      match m.fields["content"]
      case Str(text) =>
        if m.fields["role"] == Str("user") then Some([FromUser(text)])
        else if m.fields["role"] == Str("assistant") then Some([FromAssistant(text)])
        else None
      case Arr(items) =>
        if items != [] && m.fields["role"].Str? then ReadBlocks(m.fields["role"].text, items) else None
      case _ => None
  }

  function All<T, U>(s: seq<T>, read: T -> Option<seq<U>>): Option<seq<U>> {
    if s == [] then Some([])
    else
      var first, rest := read(s[0]), All(s[1..], read);
      if first.None? || rest.None? then None else Some(first.value + rest.value)
  }

  lemma {:induction false} AllSplit<T, U>(a: seq<T>, b: seq<T>, read: T -> Option<seq<U>>, x: seq<U>, y: seq<U>)
    requires All(a, read) == Some(x) && All(b, read) == Some(y)
    ensures All(a + b, read) == Some(x + y)
  {
    if a == [] {
      assert a + b == b && x + y == y;
    } else {
      var first, rest := read(a[0]).value, All(a[1..], read).value;
      AllSplit(a[1..], b, read, rest, y);
      assert (a + b)[0] == a[0] && (a + b)[1..] == a[1..] + b;
      assert x + y == first + (rest + y);
    }
  }

  lemma AllOne<T, U>(x: T, read: T -> Option<seq<U>>)
    ensures All([x], read) == read(x)
  {
    assert [x][1..] == [];
    assert read(x).Some? ==> read(x).value + [] == read(x).value;
  }

  function ReadMessages(messages: seq<Json>): Option<seq<Saying>> { All(messages, ReadMessage) }

  /** What an event says to the model: an empty text and output out of band say nothing. */
  function Says(e: Event): seq<Saying> {
    match e
    case UserMessage(content) => [FromUser(content)]
    case SystemContext(content) => [FromUser(content)]
    case Text(content) => if content == "" then [] else [FromAssistant(content)]
    case ToolCall(id, name, input) => [Call(id, name, input)]
    case ToolResult(id, content, isError, remote, length) =>
      [if remote then Result(id, isError, None, length) else Result(id, isError, Some(content), None)]
    case OutOfBandOutput(_, _, _) => []
    case SkillInvocation(name, arguments, content) =>
      [FromUser("[Loaded skill: " + name + "]"
          + (if arguments.Some? then "\n[Arguments: " + arguments.value + "]" else "") + "\n\n" + content)]
  }

  function Each<T, U>(s: seq<T>, f: T -> seq<U>): seq<U> {
    if s == [] then [] else f(s[0]) + Each(s[1..], f)
  }

  lemma {:induction false} EachSplit<T, U>(a: seq<T>, b: seq<T>, f: T -> seq<U>)
    ensures Each(a + b, f) == Each(a, f) + Each(b, f)
  {
    if a == [] {
      assert a + b == b;
    } else {
      EachSplit(a[1..], b, f);
      assert (a + b)[0] == a[0] && (a + b)[1..] == a[1..] + b;
    }
  }

  lemma EachOne<T, U>(x: T, f: T -> seq<U>)
    ensures Each([x], f) == f(x)
  {
    assert [x][1..] == [] && f(x) + [] == f(x);
  }

  function SaysAll(events: seq<Event>): seq<Saying> { Each(events, Says) }

  lemma SaysSplit(a: seq<Event>, b: seq<Event>)
    ensures SaysAll(a + b) == SaysAll(a) + SaysAll(b)
  {
    EachSplit(a, b, Says);
  }

  lemma SaysCut(events: seq<Event>, n: nat)
    requires n <= |events|
    ensures SaysAll(events) == SaysAll(events[..n]) + SaysAll(events[n..])
  {
    assert events == events[..n] + events[n..];
    SaysSplit(events[..n], events[n..]);
  }

  lemma CallBlockReads(e: Event)
    requires e.ToolCall?
    ensures ReadBlock("assistant", CallBlock(e)) == Some(Call(e.id, e.name, e.input))
  {
    var fields := CallBlock(e).fields;
    assert fields.Keys == {"type", "id", "name", "input"};
    assert fields["type"] == Str("tool_use") && fields["id"] == Str(e.id) && fields["name"] == Str(e.name);
    assert fields["input"] == e.input;
  }

  lemma TextBlockReads(text: string)
    ensures ReadBlock("assistant", TextBlock(text)) == Some(FromAssistant(text))
  {
    var fields := TextBlock(text).fields;
    assert fields.Keys == {"type", "text"};
    assert fields["type"] == Str("text") && fields["text"] == Str(text);
  }

  lemma ResultBlockReads(e: Event)
    requires e.ToolResult?
    ensures ReadBlock("user", ResultBlock(e)) == Some(Says(e)[0])
  {
    var fields := ResultBlock(e).fields;
    assert fields["type"] == Str("tool_result") && fields["tool_use_id"] == Str(e.toolUseId);
    assert fields["is_error"] == Bool(e.isError);
    var rest := fields.Keys - {"type", "tool_use_id", "is_error"};
    if !e.remote {
      assert fields["content"] == Str(e.content) && rest == {"content"};
    } else if e.contentLength.None? {
      assert fields["remote"] == Bool(true) && rest == {"remote"};
      assert rest != {"content"} by { assert "remote" in rest; }
    } else {
      assert fields["content_length"] == Int(e.contentLength.value) && rest == {"remote", "content_length"};
      assert fields["remote"] == Bool(true);
      assert rest != {"content"} by { assert "remote" in rest; }
      assert rest != {"remote"} by { assert "content_length" in rest; }
    }
  }

  lemma BlocksSnoc(role: string, blocks: seq<Json>, block: Json, said: seq<Saying>, last: Saying)
    requires ReadBlocks(role, blocks) == Some(said) && ReadBlock(role, block) == Some(last)
    ensures ReadBlocks(role, blocks + [block]) == Some(said + [last])
  {
    assert (blocks + [block])[..|blocks|] == blocks;
  }

  lemma CallsSnoc(calls: seq<Event>, last: Event)
    requires last.ToolCall?
    ensures CallBlocks(calls + [last]) == CallBlocks(calls) + [CallBlock(last)]
    ensures SaysAll(calls + [last]) == SaysAll(calls) + [Call(last.id, last.name, last.input)]
  {
    assert (calls + [last])[..|calls|] == calls;
    SaysSplit(calls, [last]);
    EachOne(last, Says);
  }

  lemma Regroup<T>(a: seq<T>, b: seq<T>, c: T)
    ensures a + (b + [c]) == a + b + [c]
  {
  }

  /** A run of calls reads as its calls, behind whatever stood before it. */
  lemma {:induction false} CallsRead(blocks: seq<Json>, calls: seq<Event>, said: seq<Saying>)
    requires forall i :: 0 <= i < |calls| ==> calls[i].ToolCall?
    requires ReadBlocks("assistant", blocks) == Some(said)
    ensures ReadBlocks("assistant", blocks + CallBlocks(calls)) == Some(said + SaysAll(calls))
    ensures calls != [] ==> CallBlocks(calls) != []
    decreases |calls|
  {
    if calls == [] {
      assert blocks + CallBlocks(calls) == blocks && said + SaysAll(calls) == said;
    } else {
      var init, last := calls[..|calls| - 1], calls[|calls| - 1];
      assert calls == init + [last];
      CallsRead(blocks, init, said);
      CallsSnoc(init, last);
      CallBlockReads(last);
      BlocksSnoc("assistant", blocks + CallBlocks(init), CallBlock(last), said + SaysAll(init), Says(last)[0]);
      Regroup(blocks, CallBlocks(init), CallBlock(last));
      Regroup(said, SaysAll(init), Says(last)[0]);
    }
  }

  lemma BlocksMessageReads(role: string, blocks: seq<Json>)
    requires blocks != []
    ensures ReadMessage(Message(role, Arr(blocks))) == ReadBlocks(role, blocks)
  {
    MessageReads(role, Arr(blocks));
  }

  lemma MessageReads(role: string, content: Json)
    ensures Message(role, content).fields.Keys == {"role", "content"}
    ensures Message(role, content).fields["role"] == Str(role)
    ensures Message(role, content).fields["content"] == content
  {
  }

  /** The events a chunk was made of, when it was made by a step. */
  lemma {:induction false} RunIsCalls(events: seq<Event>)
    ensures forall i :: 0 <= i < CallRun(events) ==> events[i].ToolCall?
  {
    if events != [] && events[0].ToolCall? {
      RunIsCalls(events[1..]);
      forall i | 0 <= i < CallRun(events) ensures events[i].ToolCall? {
        if i > 0 {
          assert events[i] == events[1..][i - 1];
        }
      }
    }
  }

  lemma CallsMessageReads(text: Option<string>, calls: seq<Event>)
    requires calls != [] && forall i :: 0 <= i < |calls| ==> calls[i].ToolCall?
    ensures ReadMessage(Render(Calls(text, calls))) ==
            Some((if text.Some? then [FromAssistant(text.value)] else []) + SaysAll(calls))
  {
    var blocks := if text.Some? then [TextBlock(text.value)] else [];
    var said := if text.Some? then [FromAssistant(text.value)] else [];
    assert ReadBlocks("assistant", []) == Some([]);
    if text.Some? {
      TextBlockReads(text.value);
      BlocksSnoc("assistant", [], TextBlock(text.value), [], FromAssistant(text.value));
      assert blocks == [] + [TextBlock(text.value)] && said == [] + [FromAssistant(text.value)];
    }
    CallsRead(blocks, calls, said);
    BlocksMessageReads("assistant", blocks + CallBlocks(calls));
  }

  lemma TextMessageReads(text: string)
    ensures ReadMessage(Message("user", Str(text))) == Some([FromUser(text)])
    ensures ReadMessage(Message("assistant", Str(text))) == Some([FromAssistant(text)])
  {
    MessageReads("user", Str(text));
    MessageReads("assistant", Str(text));
    assert "user" != "assistant";
  }

  lemma ResultMessageReads(e: Event)
    requires e.ToolResult?
    ensures ReadMessage(Message("user", Arr([ResultBlock(e)]))) == Some([Says(e)[0]])
  {
    ResultBlockReads(e);
    BlocksSnoc("user", [], ResultBlock(e), [], Says(e)[0]);
    assert [] + [ResultBlock(e)] == [ResultBlock(e)] && [] + [Says(e)[0]] == [Says(e)[0]];
    BlocksMessageReads("user", [ResultBlock(e)]);
  }

  lemma SkillSays(e: Event)
    requires e.SkillInvocation?
    ensures Says(e) == [FromUser(SkillText(e))]
  {
    assert SkillText(e) == Says(e)[0].text;
  }

  lemma SingleReads(e: Event)
    requires !e.ToolCall? && Says(e) != []
    ensures ReadMessage(Render(Single(e))) == Some(Says(e))
  {
    match e
    case UserMessage(content) => TextMessageReads(content);
    case SystemContext(content) => TextMessageReads(content);
    case Text(content) => TextMessageReads(content);
    case SkillInvocation(_, _, _) =>
      SkillSays(e);
      TextMessageReads(SkillText(e));
    case ToolResult(_, _, _, _, _) =>
      ResultMessageReads(e);
  }

  lemma StepReads(events: seq<Event>)
    requires events != []
    ensures ReadMessages(StepMessages(events)) == Some(SaysAll(events[..Step(events).1]))
  {
    var (chunk, n) := Step(events);
    var taken := events[..n];
    assert taken[0] == events[0] && SaysAll(taken) == Says(taken[0]) + SaysAll(taken[1..]);
    if chunk.Some? {
      if chunk.value.Calls? {
        if events[0].ToolCall? {
          RunIsCalls(events);
          assert chunk.value.calls == taken;
        } else {
          RunIsCalls(events[1..]);
          assert chunk.value.calls == taken[1..];
        }
        CallsMessageReads(chunk.value.text, chunk.value.calls);
        assert (if chunk.value.text.Some? then [FromAssistant(chunk.value.text.value)] else [])
             + SaysAll(chunk.value.calls) == SaysAll(taken);
      } else {
        SingleReads(events[0]);
        assert SaysAll(taken) == Says(events[0]);
      }
      AllOne(Render(chunk.value), ReadMessage);
    }
  }

  lemma ReadSplit(a: seq<Json>, b: seq<Json>, x: seq<Saying>, y: seq<Saying>)
    requires ReadMessages(a) == Some(x) && ReadMessages(b) == Some(y)
    ensures ReadMessages(a + b) == Some(x + y)
  {
    AllSplit(a, b, ReadMessage, x, y);
  }

  /** The messages say what the events say, in order, and nothing else. */
  lemma {:induction false} MessagesReadBack(events: seq<Event>)
    ensures ReadMessages(ToMessages(events)) == Some(SaysAll(events))
    decreases |events|
  {
    if events != [] {
      var n := Step(events).1;
      MessagesReadBack(events[n..]);
      MessagesStep(events);
      StepReads(events);
      SaysCut(events, n);
      ReadSplit(StepMessages(events), ToMessages(events[n..]), SaysAll(events[..n]), SaysAll(events[n..]));
    }
  }

  /** How many messages events take, when the event before them can be joined or not: a tool call right behind a tool
      call or a text joins its message; everything else that says something opens one. */
  function Openings(events: seq<Event>, joins: bool): nat {
    if events == [] then 0
    else
      var e := events[0];
      (if Says(e) == [] || (e.ToolCall? && joins) then 0 else 1)
      + Openings(events[1..], e.ToolCall? || (e.Text? && e.content != ""))
  }

  lemma {:induction false} JoinedCallsOpenNothing(events: seq<Event>)
    ensures Openings(events, true) == Openings(events[CallRun(events)..], false)
  {
    if events != [] && events[0].ToolCall? {
      JoinedCallsOpenNothing(events[1..]);
      assert events[1..][CallRun(events[1..])..] == events[CallRun(events)..];
    } else {
      assert events[0..] == events;
    }
  }

  lemma StepOpens(events: seq<Event>)
    requires events != []
    ensures Openings(events, false) == |StepMessages(events)| + Openings(events[Step(events).1..], false)
  {
    var rest := events[1..];
    JoinedCallsOpenNothing(rest);
    var k := CallRun(rest);
    assert rest[k..] == events[1 + k..];
    if k == 0 {
      assert rest[0..] == rest;
    }
  }

  /** The messages are as many as the events open. */
  lemma {:induction false} MessagesCount(events: seq<Event>)
    ensures |ToMessages(events)| == Openings(events, false)
    decreases |events|
  {
    if events != [] {
      MessagesCount(events[Step(events).1..]);
      MessagesStep(events);
      StepOpens(events);
    }
  }
}

/** The context window: a frozen first turn, the longest tail that fits, and a marker where turns were dropped. */
module ContextWindow {
  import opened Basics
  import opened JsonValues
  import opened Conversation
  import opened Messages

  // --- turns -----------------------------------------------------------------------------------------------------

  predicate IsBoundary(e: Event) { e.UserMessage? || e.SystemContext? }

  /** The first boundary at or behind `i`, or the end. */
  function Next(events: seq<Event>, i: nat): (n: nat)
    requires i <= |events|
    ensures i <= n <= |events| && (n < |events| ==> IsBoundary(events[n]))
    decreases |events| - i
  {
    if i == |events| || IsBoundary(events[i]) then i else Next(events, i + 1)
  }

  datatype Range = Range(start: nat, end: nat)

  /** The turns of the events from `from` on: each runs from its first event up to the next boundary. */
  function Turns(events: seq<Event>, from: nat): seq<Range>
    requires from <= |events|
    decreases |events| - from
  {
    if from == |events| then []
    else
      var n := Next(events, from + 1);
      [Range(from, n)] + Turns(events, n)
  }

  /** What it means for ranges to be the turns: they follow each other without gaps, and start exactly at the
      boundaries. */
  predicate Partition(events: seq<Event>, ranges: seq<Range>, from: nat)
    requires from <= |events|
    decreases |ranges|
  {
    if ranges == [] then from == |events|
    else
      var r := ranges[0];
      && r.start == from < r.end <= |events|
      && (forall i :: from < i < r.end ==> !IsBoundary(events[i]))
      && (r.end < |events| ==> IsBoundary(events[r.end]))
      && Partition(events, ranges[1..], r.end)
  }

  lemma {:induction false} NextIs(events: seq<Event>, i: nat, n: nat)
    requires i <= |events|
    ensures n == Next(events, i) <==>
            && i <= n <= |events| && (forall j :: i <= j < n ==> !IsBoundary(events[j]))
            && (n < |events| ==> IsBoundary(events[n]))
    decreases |events| - i
  {
    if i < |events| && !IsBoundary(events[i]) {
      NextIs(events, i + 1, n);
    }
  }

  /** The turns are the only such partition. */
  lemma {:induction false} TurnsPartition(events: seq<Event>, ranges: seq<Range>, from: nat)
    requires from <= |events|
    ensures Partition(events, ranges, from) <==> ranges == Turns(events, from)
    decreases |events| - from, |ranges|
  {
    if from < |events| && ranges != [] {
      var r, n := ranges[0], Next(events, from + 1);
      NextIs(events, from + 1, r.end);
      if r == Range(from, n) {
        TurnsPartition(events, ranges[1..], n);
        assert ranges == [r] + ranges[1..];
      }
    } else if from == |events| && ranges != [] {
      assert !Partition(events, ranges, from);
    }
  }

  lemma {:induction false} TurnsStartBehind(events: seq<Event>, from: nat)
    requires from <= |events|
    ensures forall r :: r in Turns(events, from) ==> r.start >= from
    decreases |events| - from
  {
    if from < |events| {
      TurnsStartBehind(events, Next(events, from + 1));
    }
  }

  /** Behind the first event a turn starts exactly where a user message or a system context stands. */
  lemma {:induction false} TurnsStartIff(events: seq<Event>, from: nat, i: nat)
    requires from < i < |events|
    ensures (exists r :: r in Turns(events, from) && r.start == i) <==>
            events[i].UserMessage? || events[i].SystemContext?
    decreases |events| - from
  {
    var n := Next(events, from + 1);
    NextIs(events, from + 1, n);
    TurnsStartBehind(events, n);
    if i < n {
      assert !IsBoundary(events[i]);
    } else if i == n {
      assert Range(n, Next(events, n + 1)) in Turns(events, n);
      assert Range(n, Next(events, n + 1)) in Turns(events, from);
    } else {
      TurnsStartIff(events, n, i);
      if exists r :: r in Turns(events, n) && r.start == i {
        var r :| r in Turns(events, n) && r.start == i;
        assert r in Turns(events, from);
      }
    }
  }

  method GroupIntoTurns(events: seq<Event>) returns (turns: seq<Range>)
    ensures turns == Turns(events, 0)
  {
    turns := [];
    var start := 0;
    for i := 0 to |events|
      invariant start <= i && (start < |events| || i == 0)
      invariant turns + Turns(events, start) == Turns(events, 0)
      invariant start < i ==> Next(events, start + 1) == Next(events, i)
    {
      if i > start && IsBoundary(events[i]) {
        turns := turns + [Range(start, i)];
        start := i;
      }
    }
    if start < |events| {
      turns := turns + [Range(start, |events|)];
    }
  }

  // --- sizes ---------------------------------------------------------------------------------------------------------

  function Sum(s: seq<nat>): nat {
    if s == [] then 0 else s[0] + Sum(s[1..])
  }

  /** `size` is the length of a message as JSON text. */
  function Chars(messages: seq<Json>, size: Json -> nat): nat {
    if messages == [] then 0 else size(messages[0]) + Chars(messages[1..], size)
  }

  lemma {:induction false} CharsAppend(a: seq<Json>, b: seq<Json>, size: Json -> nat)
    ensures Chars(a + b, size) == Chars(a, size) + Chars(b, size)
  {
    if a == [] {
      assert a + b == b;
    } else {
      CharsAppend(a[1..], b, size);
      assert (a + b)[1..] == a[1..] + b;
    }
  }

  /** The messages of each turn from `from` on. */
  function TurnMessages(events: seq<Event>, from: nat): (r: seq<seq<Json>>)
    requires from <= |events|
    ensures |r| == |Turns(events, from)|
    decreases |events| - from
  {
    if from == |events| then []
    else
      var n := Next(events, from + 1);
      [ToMessages(events[from..n])] + TurnMessages(events, n)
  }

  function TurnChars(messages: seq<seq<Json>>, size: Json -> nat): (r: seq<nat>)
    ensures |r| == |messages|
  {
    if messages == [] then [] else [Chars(messages[0], size)] + TurnChars(messages[1..], size)
  }

  lemma {:induction false} CharsOfAll(messages: seq<seq<Json>>, size: Json -> nat)
    ensures Chars(Concat(messages), size) == Sum(TurnChars(messages, size))
  {
    if messages != [] {
      CharsOfAll(messages[1..], size);
      CharsAppend(messages[0], Concat(messages[1..]), size);
    }
  }

  lemma {:induction false} CharsOfTail(messages: seq<seq<Json>>, size: Json -> nat, k: nat)
    requires k <= |messages|
    ensures TurnChars(messages[k..], size) == TurnChars(messages, size)[k..]
  {
    if k > 0 {
      CharsOfTail(messages[1..], size, k - 1);
      assert messages[1..][k - 1..] == messages[k..];
    } else {
      assert messages[0..] == messages;
    }
  }

  // --- the window --------------------------------------------------------------------------------------------------

  /** The message that stands where turns were dropped. */
  function TruncationMarker(): Json { Message("user", Str(OMITTED)) }

  const OMITTED: string :=
    "[Earlier conversation context was omitted to fit within the context window. The conversation continues below.]"

  /** Backwards from `k`, over the turns that still fit; the first turn is never part of the tail. */
  function TailStart(chars: seq<nat>, left: nat, k: nat): (r: nat)
    requires k <= |chars|
    ensures r <= k && (k >= 1 ==> r >= 1)
  {
    if k > 1 && chars[k - 1] <= left then TailStart(chars, left - chars[k - 1], k - 1) else k
  }

  function Left(chars: seq<nat>, budget: nat, marker: nat): nat
    requires chars != []
  {
    if chars[0] + marker <= budget then budget - (chars[0] + marker) else 0
  }

  /** The first turn of the tail: as many turns as fit, and at least the last. */
  function KeptFrom(chars: seq<nat>, budget: nat, marker: nat): (k: nat)
    requires chars != []
    ensures 1 <= k <= |chars| && (|chars| > 1 ==> k < |chars|)
  {
    var k := TailStart(chars, Left(chars, budget, marker), |chars|);
    if k >= |chars| && |chars| > 1 then |chars| - 1 else k
  }

  function Truncated(messages: seq<seq<Json>>, k: nat, marker: Json): seq<Json>
    requires 1 <= k <= |messages|
  {
    messages[0] + (if k > 1 then [marker] else []) + Concat(messages[k..])
  }

  function Window(messages: seq<seq<Json>>, budget: nat, size: Json -> nat, marker: Json): seq<Json> {
    var chars := TurnChars(messages, size);
    if Sum(chars) <= budget then Concat(messages)
    else Truncated(messages, KeptFrom(chars, budget, size(marker)), marker)
  }

  /** The whole builder on events. */
  function Built(events: seq<Event>, budget: nat, size: Json -> nat, marker: Json): seq<Json> {
    Window(TurnMessages(events, 0), budget, size, marker)
  }

  lemma {:induction false} SumSnoc(s: seq<nat>, n: nat)
    ensures Sum(s + [n]) == Sum(s) + n
  {
    if s == [] {
      assert s + [n] == [n] && [n][1..] == [];
    } else {
      SumSnoc(s[1..], n);
      assert (s + [n])[1..] == s[1..] + [n];
    }
  }

  lemma {:induction false} TurnCharsSnoc(messages: seq<seq<Json>>, last: seq<Json>, size: Json -> nat)
    ensures TurnChars(messages + [last], size) == TurnChars(messages, size) + [Chars(last, size)]
  {
    if messages == [] {
      assert messages + [last] == [last] && [last][1..] == [];
    } else {
      TurnCharsSnoc(messages[1..], last, size);
      assert (messages + [last])[1..] == messages[1..] + [last];
    }
  }

  lemma TurnAt(events: seq<Event>, turns: seq<Range>, i: nat, from: nat)
    requires i < |turns| && from <= |events| && turns[i..] == Turns(events, from)
    ensures from < |events| && turns[i] == Range(from, Next(events, from + 1))
    ensures turns[i + 1..] == Turns(events, turns[i].end)
    ensures TurnMessages(events, from) == [ToMessages(events[from..turns[i].end])] + TurnMessages(events, turns[i].end)
  {
    assert turns[i] == turns[i..][0] && turns[i..][1..] == turns[i + 1..];
  }

  method ConvertTurns(events: seq<Event>, turns: seq<Range>) returns (messages: seq<seq<Json>>)
    requires turns == Turns(events, 0)
    ensures messages == TurnMessages(events, 0)
  {
    messages := [];
    ghost var from: nat := 0;
    for i := 0 to |turns|
      invariant from <= |events| && turns[i..] == Turns(events, from)
      invariant messages + TurnMessages(events, from) == TurnMessages(events, 0)
    {
      TurnAt(events, turns, i, from);
      var m := EventsToMessages(events[turns[i].start..turns[i].end]);
      from := turns[i].end;
      messages := messages + [m];
    }
  }

  method MeasureTurns(messages: seq<seq<Json>>, size: Json -> nat) returns (chars: seq<nat>, total: nat)
    ensures chars == TurnChars(messages, size) && total == Sum(chars)
  {
    chars, total := [], 0;
    for i := 0 to |messages|
      invariant chars == TurnChars(messages[..i], size) && total == Sum(chars)
    {
      var c := Chars(messages[i], size);
      assert messages[..i + 1] == messages[..i] + [messages[i]];
      TurnCharsSnoc(messages[..i], messages[i], size);
      SumSnoc(chars, c);
      chars, total := chars + [c], total + c;
    }
    assert messages[..|messages|] == messages;
  }

  /** The loop over the tail turns, from the last backwards. */
  method FindTail(chars: seq<nat>, budget: nat, marker: nat) returns (k: nat)
    requires chars != []
    ensures k == KeptFrom(chars, budget, marker)
  {
    var remaining: nat := if chars[0] + marker <= budget then budget - (chars[0] + marker) else 0;
    k := |chars|;
    var i := |chars|;
    while i > 1
      invariant 1 <= i <= |chars| && k == i
      invariant TailStart(chars, remaining, i) == TailStart(chars, Left(chars, budget, marker), |chars|)
      decreases i
    {
      i := i - 1;
      if chars[i] <= remaining {
        remaining := remaining - chars[i];
        k := i;
      } else {
        break;
      }
    }
    if k >= |chars| && |chars| > 1 {
      k := |chars| - 1;
    }
  }

  method BuildWith(events: seq<Event>, budget: nat, size: Json -> nat, marker: Json) returns (result: seq<Json>)
    ensures result == Built(events, budget, size, marker)
  {
    if events == [] {
      return [];
    }
    var turns := GroupIntoTurns(events);
    var messages := ConvertTurns(events, turns);
    var chars, total := MeasureTurns(messages, size);
    if total <= budget {
      return Concat(messages);
    }
    var k := FindTail(chars, budget, size(marker));
    result := messages[0];
    if k > 1 {
      result := result + [marker];
    }
    result := result + Concat(messages[k..]);
  }

  method Build(events: seq<Event>, budget: nat, size: Json -> nat) returns (result: seq<Json>)
    ensures result == Built(events, budget, size, TruncationMarker())
  {
    result := BuildWith(events, budget, size, TruncationMarker());
  }

  // --- what the window is ------------------------------------------------------------------------------------------

  /** Where turn number `k`, counted from the one at `from`, starts. */
  function Cut(events: seq<Event>, from: nat, k: nat): (at: nat)
    requires from <= |events|
    ensures from <= at <= |events| && (from < at < |events| ==> IsBoundary(events[at]))
    ensures k > 0 && from < |events| ==> from < at
    decreases k
  {
    if k == 0 || from == |events| then from else Cut(events, Next(events, from + 1), k - 1)
  }

  lemma DropBehindFirst<T>(first: T, rest: seq<T>, k: nat)
    requires 1 <= k <= |rest| + 1
    ensures ([first] + rest)[k..] == rest[k - 1..]
  {
  }

  /** The messages from turn `k` on are the messages of the events from its start on: no message spans a boundary. */
  lemma {:induction false} TailIsSuffix(events: seq<Event>, from: nat, k: nat)
    requires from <= |events| && k <= |Turns(events, from)|
    ensures TurnMessages(events, from)[k..] == TurnMessages(events, Cut(events, from, k))
    decreases k
  {
    if k > 0 {
      var n := Next(events, from + 1);
      TailIsSuffix(events, n, k - 1);
      DropBehindFirst(ToMessages(events[from..n]), TurnMessages(events, n), k);
    }
  }

  lemma SplitAtBoundary(events: seq<Event>, from: nat, n: nat)
    requires from <= n <= |events| && (n < |events| ==> IsBoundary(events[n]))
    ensures ToMessages(events[from..]) == ToMessages(events[from..n]) + ToMessages(events[n..])
  {
    MessagesSplit(events[from..n], events[n..]);
    assert events[from..] == events[from..n] + events[n..];
  }

  lemma {:induction false} TurnwiseIsWhole(events: seq<Event>, from: nat)
    requires from <= |events|
    ensures Concat(TurnMessages(events, from)) == ToMessages(events[from..])
    decreases |events| - from
  {
    if from < |events| {
      var n := Next(events, from + 1);
      TurnwiseIsWhole(events, n);
      SplitAtBoundary(events, from, n);
      ConcatCons(ToMessages(events[from..n]), TurnMessages(events, n));
    }
  }

  /**
   What the builder sends: within the budget all messages; otherwise the messages of the events before one turn
   boundary, a marker exactly if something is left out, and the messages of the events from another turn boundary on.
   Events with no boundary between them, such as a tool call and its result, are therefore kept or dropped together.
   */
  lemma BuiltIsWholeOrCut(events: seq<Event>, budget: nat, size: Json -> nat, marker: Json)
      returns (first: nat, tail: nat)
    requires events != []
    ensures first == Cut(events, 0, 1) && tail == TailCut(events, budget, size, marker)
    ensures 0 < first <= tail <= |events|
    ensures first < |events| ==> IsBoundary(events[first])
    ensures tail < |events| ==> IsBoundary(events[tail])
    ensures tail == |events| ==> first == |events|
    ensures Built(events, budget, size, marker) ==
            if Chars(ToMessages(events), size) <= budget then ToMessages(events)
            else ToMessages(events[..first]) + (if first < tail then [marker] else []) + ToMessages(events[tail..])
  {
    var messages := TurnMessages(events, 0);
    var k := KeptFrom(TurnChars(messages, size), budget, size(marker));
    first, tail := Cut(events, 0, 1), Cut(events, 0, k);
    CutsOfWindow(events, k);
    WholeMessages(events, size);
    TailIsSuffix(events, 0, k);
    TurnwiseIsWhole(events, tail);
    FirstMessages(events);
  }

  lemma ThreeRead(a: seq<Json>, b: seq<Json>, c: seq<Json>, x: seq<Saying>, y: seq<Saying>, z: seq<Saying>)
    requires ReadMessages(a) == Some(x) && ReadMessages(b) == Some(y) && ReadMessages(c) == Some(z)
    ensures ReadMessages(a + b + c) == Some(x + y + z)
  {
    ReadSplit(a, b, x, y);
    ReadSplit(a + b, c, x + y, z);
  }

  lemma NoticeReads(notice: string, shown: bool)
    ensures ReadMessages(if shown then [Message("user", Str(notice))] else []) ==
            Some(if shown then [FromUser(notice)] else [])
  {
    TextMessageReads(notice);
    AllOne(Message("user", Str(notice)), ReadMessage);
  }

  /** What the model is told, with any notice as the marker: everything, or the first turn, the notice exactly if
      something is left out, and the tail. */
  lemma WindowSays(events: seq<Event>, budget: nat, size: Json -> nat, notice: string)
    requires events != []
    ensures var marker := Message("user", Str(notice));
            var first, tail := Cut(events, 0, 1), TailCut(events, budget, size, marker);
            ReadMessages(Built(events, budget, size, marker)) ==
            if Chars(ToMessages(events), size) <= budget then Some(SaysAll(events))
            else Some(SaysAll(events[..first]) + (if first < tail then [FromUser(notice)] else [])
                      + SaysAll(events[tail..]))
  {
    var marker := Message("user", Str(notice));
    var first, tail := BuiltIsWholeOrCut(events, budget, size, marker);
    MessagesReadBack(events);
    MessagesReadBack(events[..first]);
    MessagesReadBack(events[tail..]);
    NoticeReads(notice, first < tail);
    ThreeRead(ToMessages(events[..first]), if first < tail then [marker] else [], ToMessages(events[tail..]),
              SaysAll(events[..first]), if first < tail then [FromUser(notice)] else [], SaysAll(events[tail..]));
  }

  /** Where the kept tail starts. */
  function TailCut(events: seq<Event>, budget: nat, size: Json -> nat, marker: Json): nat
    requires events != []
  {
    Cut(events, 0, KeptFrom(TurnChars(TurnMessages(events, 0), size), budget, size(marker)))
  }

  lemma WholeMessages(events: seq<Event>, size: Json -> nat)
    ensures Concat(TurnMessages(events, 0)) == ToMessages(events)
    ensures Sum(TurnChars(TurnMessages(events, 0), size)) == Chars(ToMessages(events), size)
  {
    TurnwiseIsWhole(events, 0);
    assert events[0..] == events;
    CharsOfAll(TurnMessages(events, 0), size);
  }

  lemma FirstMessages(events: seq<Event>)
    requires events != []
    ensures |TurnMessages(events, 0)| >= 1
    ensures TurnMessages(events, 0)[0] == ToMessages(events[..Cut(events, 0, 1)])
  {
    var n := Next(events, 1);
    assert Cut(events, 0, 1) == Cut(events, n, 0) == n;
    assert events[0..n] == events[..n];
  }

  lemma {:induction false} CutGrows(events: seq<Event>, from: nat, j: nat, k: nat)
    requires from <= |events| && j < k && j < |Turns(events, from)|
    ensures Cut(events, from, j) < Cut(events, from, k)
    decreases j
  {
    if j > 0 {
      CutGrows(events, Next(events, from + 1), j - 1, k - 1);
    }
  }

  lemma CutsOfWindow(events: seq<Event>, k: nat)
    requires events != [] && 1 <= k <= |Turns(events, 0)| && (|Turns(events, 0)| > 1 ==> k < |Turns(events, 0)|)
    ensures var first, tail := Cut(events, 0, 1), Cut(events, 0, k);
            first <= tail && (first < tail <==> k > 1) && (tail == |events| ==> first == |events|)
  {
    if k > 1 {
      CutGrows(events, 0, 1, k);
    }
    if |Turns(events, 0)| > 1 {
      CutGrows(events, 0, k, k + 1);
    }
  }

  // --- the frozen prefix ---------------------------------------------------------------------------------------------

  lemma {:induction false} NextStays(events: seq<Event>, more: seq<Event>, i: nat)
    requires i <= |events| && (Next(events, i) < |events| || more == [] || IsBoundary(more[0]))
    ensures Next(events + more, i) == Next(events, i)
    decreases |events| - i
  {
    var all := events + more;
    if i < |events| {
      assert all[i] == events[i];
      if !IsBoundary(events[i]) {
        NextStays(events, more, i + 1);
      }
    } else if more != [] {
      assert all[i] == more[0];
    }
  }

  lemma FirstTurnStays(events: seq<Event>, more: seq<Event>)
    requires events != []
    requires Next(events, 1) < |events| || more == [] || IsBoundary(more[0])
    ensures (events + more)[..Next(events + more, 1)] == events[..Next(events, 1)]
  {
    NextStays(events, more, 1);
  }

  /** The messages of the first turn lead every window, and appending further turns never changes them. */
  lemma FirstTurnIsFrozen(events: seq<Event>, more: seq<Event>, budget: nat, size: Json -> nat, marker: Json)
    requires events != []
    requires Next(events, 1) < |events| || more == [] || IsBoundary(more[0])
    ensures ToMessages(events[..Next(events, 1)]) <= Built(events, budget, size, marker)
    ensures ToMessages(events[..Next(events, 1)]) <= Built(events + more, budget, size, marker)
  {
    FirstTurnStays(events, more);
    LeadsWindow(events, budget, size, marker);
    LeadsWindow(events + more, budget, size, marker);
  }

  lemma LeadsWindow(events: seq<Event>, budget: nat, size: Json -> nat, marker: Json)
    requires events != []
    ensures ToMessages(events[..Next(events, 1)]) <= Built(events, budget, size, marker)
  {
    var messages := TurnMessages(events, 0);
    assert events[0..Next(events, 1)] == events[..Next(events, 1)];
    assert messages[0] == ToMessages(events[..Next(events, 1)]);
    ConcatCons(messages[0], messages[1..]);
    assert messages == [messages[0]] + messages[1..];
  }

  // --- how much it keeps -------------------------------------------------------------------------------------------

  lemma SumUpTo(chars: seq<nat>, j: nat, k: nat)
    requires j < k <= |chars|
    ensures Sum(chars[j..k]) == Sum(chars[j..k - 1]) + chars[k - 1]
  {
    SumSnoc(chars[j..k - 1], chars[k - 1]);
    assert chars[j..k] == chars[j..k - 1] + [chars[k - 1]];
  }

  /** The tail fits. */
  lemma {:induction false} TailIsWithin(chars: seq<nat>, left: nat, k: nat)
    requires 1 <= k <= |chars|
    ensures Sum(chars[TailStart(chars, left, k)..k]) <= left
    decreases k
  {
    var t := TailStart(chars, left, k);
    if t < k {
      TailIsWithin(chars, left - chars[k - 1], k - 1);
      SumUpTo(chars, t, k);
    } else {
      assert chars[k..k] == [];
    }
  }

  /** No longer tail does. */
  lemma {:induction false} LongerTailIsTooLong(chars: seq<nat>, left: nat, k: nat, j: nat)
    requires k <= |chars| && 1 <= j < TailStart(chars, left, k)
    ensures Sum(chars[j..k]) > left
    decreases k
  {
    SumUpTo(chars, j, k);
    if TailStart(chars, left, k) < k {
      LongerTailIsTooLong(chars, left - chars[k - 1], k - 1, j);
    }
  }

  lemma LastSum(chars: seq<nat>)
    requires chars != []
    ensures Sum(chars[|chars| - 1..]) == chars[|chars| - 1]
  {
    assert chars[|chars| - 1..] == [chars[|chars| - 1]];
  }

  /** Turns from `j` on fit beside the first turn and the marker. */
  predicate TailFits(chars: seq<nat>, budget: nat, marker: nat, j: nat)
    requires chars != [] && j <= |chars|
  {
    chars[0] + marker + Sum(chars[j..]) <= budget
  }

  /** Of any turn sizes: no longer tail fits, and what does not fit takes no room unless it is the last turn. */
  lemma LongestOfSizes(chars: seq<nat>, budget: nat, marker: nat)
    requires |chars| > 1
    ensures var k := KeptFrom(chars, budget, marker);
            && (forall j :: 1 <= j < k ==> !TailFits(chars, budget, marker, j))
            && (TailFits(chars, budget, marker, |chars| - 1) ==> TailFits(chars, budget, marker, k))
            && (!TailFits(chars, budget, marker, |chars| - 1) ==> k == |chars| - 1 || Sum(chars[k..]) == 0)
  {
    var left, n := Left(chars, budget, marker), |chars|;
    var t := TailStart(chars, left, n);
    TailIsWithin(chars, left, n);
    LastSum(chars);
    assert chars[t..n] == chars[t..];
    forall j | 1 <= j < t ensures !TailFits(chars, budget, marker, j) {
      LongerTailIsTooLong(chars, left, n, j);
      assert chars[j..n] == chars[j..];
    }
  }

  /** No message has an empty JSON text. */
  ghost predicate NeverEmpty(size: Json -> nat) {
    forall m :: size(m) > 0
  }

  /** A boundary event always has a message. */
  lemma BoundaryHasMessages(events: seq<Event>)
    requires events != [] && IsBoundary(events[0])
    ensures ToMessages(events) != []
  {
    assert Step(events) == (Some(Single(events[0])), 1);
    MessagesStep(events);
  }

  /** So every turn but the first has messages. */
  lemma {:induction false} TurnsHaveMessages(events: seq<Event>, from: nat, k: nat)
    requires from <= |events| && k < |TurnMessages(events, from)|
    requires k > 0 || IsBoundary(events[from])
    ensures TurnMessages(events, from)[k] != []
    decreases k
  {
    var n := Next(events, from + 1);
    if k == 0 {
      BoundaryHasMessages(events[from..n]);
    } else {
      assert n < |events|;
      TurnsHaveMessages(events, n, k - 1);
    }
  }

  lemma {:induction false} TurnCharsAt(messages: seq<seq<Json>>, size: Json -> nat, k: nat)
    requires k < |messages|
    ensures TurnChars(messages, size)[k] == Chars(messages[k], size)
  {
    if k > 0 {
      TurnCharsAt(messages[1..], size, k - 1);
    }
  }

  lemma {:induction false} SumIncludes(s: seq<nat>, k: nat)
    requires k < |s|
    ensures Sum(s) >= s[k]
  {
    if k > 0 {
      SumIncludes(s[1..], k - 1);
    }
  }

  lemma TailsTakeRoom(events: seq<Event>, size: Json -> nat, k: nat)
    requires NeverEmpty(size)
    requires 1 <= k < |TurnMessages(events, 0)|
    ensures Sum(TurnChars(TurnMessages(events, 0), size)[k..]) > 0
  {
    var messages := TurnMessages(events, 0);
    var chars := TurnChars(messages, size);
    TurnsHaveMessages(events, 0, k);
    TurnCharsAt(messages, size, k);
    assert Chars(messages[k], size) >= size(messages[k][0]);
    assert chars[k..][0] == chars[k];
    SumIncludes(chars[k..], 0);
  }

  /**
   The tail the builder keeps, a message's JSON text never being empty: the longest suffix of turns that fits beside the
   first turn and the marker, or the last turn if not even that fits.
   */
  lemma KeepsTheLongestTail(events: seq<Event>, budget: nat, size: Json -> nat, marker: Json)
    requires NeverEmpty(size)
    requires |TurnMessages(events, 0)| > 1
    ensures var chars := TurnChars(TurnMessages(events, 0), size);
            var k, last := KeptFrom(chars, budget, size(marker)), |chars| - 1;
            && (forall j :: 1 <= j < k ==> !TailFits(chars, budget, size(marker), j))
            && (TailFits(chars, budget, size(marker), last) ==> TailFits(chars, budget, size(marker), k))
            && (!TailFits(chars, budget, size(marker), last) ==> k == last)
  {
    var chars := TurnChars(TurnMessages(events, 0), size);
    var k := KeptFrom(chars, budget, size(marker));
    LongestOfSizes(chars, budget, size(marker));
    TailsTakeRoom(events, size, k);
  }

  lemma CharsOfOne(m: Json, size: Json -> nat)
    ensures Chars([m], size) == size(m)
  {
    assert [m][1..] == [];
  }

  lemma CharsOfTruncated(messages: seq<seq<Json>>, size: Json -> nat, k: nat, marker: Json)
    requires 1 <= k <= |messages|
    ensures var chars := TurnChars(messages, size);
            Chars(Truncated(messages, k, marker), size)
                == chars[0] + (if k > 1 then size(marker) else 0) + Sum(chars[k..])
  {
    var first, middle, tail := messages[0], if k > 1 then [marker] else [], Concat(messages[k..]);
    CharsAppend(first + middle, tail, size);
    CharsAppend(first, middle, size);
    CharsOfOne(marker, size);
    assert Chars(tail, size) == Sum(TurnChars(messages, size)[k..]) by {
      CharsOfAll(messages[k..], size);
      CharsOfTail(messages, size, k);
    }
  }

  /** Everything fits, or the first turn, the marker and the last turn do together. */
  predicate Fits(chars: seq<nat>, budget: nat, marker: nat) {
    Sum(chars) <= budget || (|chars| > 1 && TailFits(chars, budget, marker, |chars| - 1))
  }

  lemma FittingWindow(messages: seq<seq<Json>>, budget: nat, size: Json -> nat, marker: Json)
    requires Fits(TurnChars(messages, size), budget, size(marker))
    ensures Chars(Window(messages, budget, size, marker), size) <= budget
  {
    var chars := TurnChars(messages, size);
    if Sum(chars) <= budget {
      CharsOfAll(messages, size);
    } else {
      LongestOfSizes(chars, budget, size(marker));
      CharsOfTruncated(messages, size, KeptFrom(chars, budget, size(marker)), marker);
    }
  }

  /** What does not fit is sent all the same: the first turn alone, or first and last turn with the marker between. */
  lemma OversizedWindow(chars: seq<nat>, budget: nat, marker: nat, k: nat)
    requires chars != [] && !Fits(chars, budget, marker) && k == (if |chars| > 1 then |chars| - 1 else 1)
    ensures chars[0] + (if k > 1 then marker else 0) + Sum(chars[k..]) > budget
  {
    LastSum(chars);
    if |chars| == 1 {
      assert chars[1..] == [];
    } else if |chars| == 2 {
      assert Sum(chars) == chars[0] + Sum(chars[1..]);
    }
  }

  /** The window of a conversation is within the budget exactly when everything is, or first turn, marker and last turn
      together are. */
  lemma WithinBudgetIff(events: seq<Event>, budget: nat, size: Json -> nat, marker: Json)
    requires NeverEmpty(size)
    ensures Chars(Built(events, budget, size, marker), size) <= budget
            <==> Fits(TurnChars(TurnMessages(events, 0), size), budget, size(marker))
  {
    var messages := TurnMessages(events, 0);
    var chars := TurnChars(messages, size);
    if Fits(chars, budget, size(marker)) {
      FittingWindow(messages, budget, size, marker);
    } else {
      var k := KeptFrom(chars, budget, size(marker));
      if |chars| > 1 {
        KeepsTheLongestTail(events, budget, size, marker);
      }
      OversizedWindow(chars, budget, size(marker), k);
      CharsOfTruncated(messages, size, k, marker);
    }
  }
}
