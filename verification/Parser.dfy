/** From one decoded transcript record to the events it stands for. */
module TranscriptParser {
  import opened Basics
  import opened JsonValues

  datatype AgentEvent =
    | ToolStart(id: string, name: string, sub: bool, parent: Option<string>)
    | ToolDone(id: string, sub: bool, parent: Option<string>)
    | TurnEnd
    | Active
    | TextIdle

  // ----- specification -----

  function NameOf(block: Json): string {
    var n := AsStr(Field(block, "name"));
    if n.Some? then n.value else ""
  }

  /** Tool starts of the tool_use blocks that carry an id, in order. */
  function Starts(content: seq<Json>, parent: Option<string>): seq<AgentEvent> {
    if content == [] then []
    else
      var block := content[|content| - 1];
      var id := AsStr(Field(block, "id"));
      Starts(content[..|content| - 1], parent) +
      if IsType(block, "tool_use") && id.Some?
      then [ToolStart(id.value, NameOf(block), parent.Some?, parent)] else []
  }

  /** Tool ends of the tool_result blocks that carry an id, in order. */
  function Dones(content: seq<Json>, parent: Option<string>): seq<AgentEvent> {
    if content == [] then []
    else
      var block := content[|content| - 1];
      var id := AsStr(Field(block, "tool_use_id"));
      Dones(content[..|content| - 1], parent) +
      if IsType(block, "tool_result") && id.Some?
      then [ToolDone(id.value, parent.Some?, parent)] else []
  }

  predicate AnyOfType(content: seq<Json>, t: string) {
    exists i :: 0 <= i < |content| && IsType(content[i], t)
  }

  function AssistantEvents(content: Json, hadTools: bool): seq<AgentEvent> {
    if !content.Arr? then []
    else if AnyOfType(content.items, "tool_use") then [Active] + Starts(content.items, None)
    else if !hadTools && AnyOfType(content.items, "text") then [TextIdle]
    else []
  }

  function UserEvents(content: Json): seq<AgentEvent> {
    if content.Arr? then
      if AnyOfType(content.items, "tool_result") then Dones(content.items, None) else [Active]
    else if content.Str? then [Active]
    else []
  }

  function ProgressEvents(parentId: string, data: Json): seq<AgentEvent> {
    var msg := Field(data, "message");
    var content := Field(Field(msg, "message"), "content");
    if IsType(data, "bash_progress") || IsType(data, "mcp_progress") || !msg.Obj? || !content.Arr? then []
    else if IsType(msg, "assistant") then Starts(content.items, Some(parentId))
    else if IsType(msg, "user") then Dones(content.items, Some(parentId))
    else []
  }

  /** The events of a record; a line that is no JSON has none. */
  function EventsOf(record: Option<Json>, hadTools: bool): seq<AgentEvent> {
    if record.None? then []
    else
      var r := record.value;
      var content := Field(Field(r, "message"), "content");
      if IsType(r, "assistant") then AssistantEvents(content, hadTools)
      else if IsType(r, "user") then UserEvents(content)
      else if IsType(r, "system") then
        if AsStr(Field(r, "subtype")) == Some("turn_duration") then [TurnEnd] else []
      else if IsType(r, "progress") then
        var parent := AsStr(Field(r, "parentToolUseID"));
        if parent.Some? then ProgressEvents(parent.value, Field(r, "data")) else []
      else []
  }

  // ----- the parser, with its loops -----

  method HasBlock(content: seq<Json>, t: string) returns (found: bool)
    ensures found == AnyOfType(content, t)
  {
    for i := 0 to |content|
      invariant forall j | 0 <= j < i :: !IsType(content[j], t)
    {
      if IsType(content[i], t) {
        return true;
      }
    }
    return false;
  }

  method PushStarts(content: seq<Json>, parent: Option<string>, before: seq<AgentEvent>)
    returns (events: seq<AgentEvent>)
    ensures events == before + Starts(content, parent)
  {
    events := before;
    for i := 0 to |content|
      invariant events == before + Starts(content[..i], parent)
    {
      assert content[..i + 1][..i] == content[..i];
      if IsType(content[i], "tool_use") {
        var id := AsStr(Field(content[i], "id"));
        if id.Some? {
          events := events + [ToolStart(id.value, NameOf(content[i]), parent.Some?, parent)];
        }
      }
    }
    assert content[..|content|] == content;
  }

  method PushDones(content: seq<Json>, parent: Option<string>) returns (events: seq<AgentEvent>)
    ensures events == Dones(content, parent)
  {
    events := [];
    for i := 0 to |content|
      invariant events == Dones(content[..i], parent)
    {
      assert content[..i + 1][..i] == content[..i];
      if IsType(content[i], "tool_result") {
        var id := AsStr(Field(content[i], "tool_use_id"));
        if id.Some? {
          events := events + [ToolDone(id.value, parent.Some?, parent)];
        }
      }
    }
    assert content[..|content|] == content;
  }

  method ParseProgress(parentId: string, data: Json) returns (events: seq<AgentEvent>)
    ensures events == ProgressEvents(parentId, data)
  {
    events := [];
    if IsType(data, "bash_progress") || IsType(data, "mcp_progress") {
      return;
    }
    var msg := Field(data, "message");
    if msg.Obj? {
      var content := Field(Field(msg, "message"), "content");
      if content.Arr? {
        if IsType(msg, "assistant") {
          events := PushStarts(content.items, Some(parentId), []);
          assert [] + Starts(content.items, Some(parentId)) == Starts(content.items, Some(parentId));
        } else if IsType(msg, "user") {
          events := PushDones(content.items, Some(parentId));
        }
      }
    }
  }

  /** `parse_jsonl_line`, its text already decoded. */
  method ParseLine(record: Option<Json>, hadTools: bool) returns (events: seq<AgentEvent>)
    ensures events == EventsOf(record, hadTools)
  {
    events := [];
    if record.None? {
      return;
    }
    var r := record.value;
    var content := Field(Field(r, "message"), "content");
    if IsType(r, "assistant") {
      if content.Arr? {
        var uses := HasBlock(content.items, "tool_use");
        var text := HasBlock(content.items, "text");
        if uses {
          events := PushStarts(content.items, None, [Active]);
        } else if !hadTools && text {
          events := [TextIdle];
        }
      }
    } else if IsType(r, "user") {
      if content.Arr? {
        var results := HasBlock(content.items, "tool_result");
        if results {
          events := PushDones(content.items, None);
        } else {
          events := [Active];
        }
      } else if content.Str? {
        events := [Active];
      }
    } else if IsType(r, "system") {
      if AsStr(Field(r, "subtype")) == Some("turn_duration") {
        events := [TurnEnd];
      }
    } else if IsType(r, "progress") {
      var parent := AsStr(Field(r, "parentToolUseID"));
      if parent.Some? {
        events := ParseProgress(parent.value, Field(r, "data"));
      }
    }
  }

  // ----- properties -----

  /** Sub-agent events, and only they, name a parent. */
  predicate WellScoped(e: AgentEvent) {
    (e.ToolStart? || e.ToolDone?) ==> e.sub == e.parent.Some?
  }

  lemma {:induction false} BlocksScoped(content: seq<Json>, parent: Option<string>)
    ensures forall e | e in Starts(content, parent) :: e.ToolStart? && WellScoped(e)
    ensures forall e | e in Dones(content, parent) :: e.ToolDone? && WellScoped(e)
  {
    if content != [] {
      BlocksScoped(content[..|content| - 1], parent);
    }
  }

  predicate AllScoped(es: seq<AgentEvent>) {
    forall i | 0 <= i < |es| :: WellScoped(es[i])
  }

  lemma AssistantScoped(content: Json, hadTools: bool)
    ensures AllScoped(AssistantEvents(content, hadTools))
  {
    if content.Arr? {
      BlocksScoped(content.items, None);
    }
  }

  lemma UserScoped(content: Json)
    ensures AllScoped(UserEvents(content))
  {
    if content.Arr? {
      BlocksScoped(content.items, None);
    }
  }

  lemma ProgressScoped(parentId: string, data: Json)
    ensures AllScoped(ProgressEvents(parentId, data))
  {
    var content := Field(Field(Field(data, "message"), "message"), "content");
    if content.Arr? {
      BlocksScoped(content.items, Some(parentId));
    }
  }

  lemma RecordScoped(r: Json, hadTools: bool)
    ensures AllScoped(EventsOf(Some(r), hadTools))
  {
    var content := Field(Field(r, "message"), "content");
    AssistantScoped(content, hadTools);
    UserScoped(content);
    var parent := AsStr(Field(r, "parentToolUseID"));
    if parent.Some? {
      ProgressScoped(parent.value, Field(r, "data"));
    }
  }

  lemma EventsScoped(record: Option<Json>, hadTools: bool)
    ensures forall e | e in EventsOf(record, hadTools) :: WellScoped(e)
  {
    if record.Some? {
      RecordScoped(record.value, hadTools);
    }
  }

  /** The sampled flag can only suppress a TextIdle; every other event is a function of the record alone. */
  lemma HadToolsOnlyHidesTextIdle(record: Option<Json>)
    ensures || EventsOf(record, true) == EventsOf(record, false)
            || (EventsOf(record, true) == [] && EventsOf(record, false) == [TextIdle])
    ensures TextIdle !in EventsOf(record, true)
    ensures TextIdle in EventsOf(record, false) ==> EventsOf(record, false) == [TextIdle]
  {
    if record.Some? {
      var r := record.value;
      var content := Field(Field(r, "message"), "content");
      if content.Arr? {
        BlocksScoped(content.items, None);
      }
      var parent := AsStr(Field(r, "parentToolUseID"));
      var inner := Field(Field(Field(Field(r, "data"), "message"), "message"), "content");
      if parent.Some? && inner.Arr? {
        BlocksScoped(inner.items, parent);
      }
    }
  }
}
