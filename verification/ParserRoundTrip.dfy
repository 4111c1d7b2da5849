/** Transcript records written out with their literal field names, and what the parser makes of them. */
module ParserRoundTrip {
  import opened Basics
  import opened JsonValues
  import opened TranscriptParser

  type Members = seq<(string, Json)>

  /** A content block; any other members may precede those that matter. */
  datatype Block =
    | Use(id: Option<string>, name: Option<string>, more: Members)
    | Result(id: Option<string>, more: Members)
    | Text(more: Members)
    | Other(kind: string, more: Members)

  predicate BlockOk(b: Block) {
    b.Other? ==> b.kind != "tool_use" && b.kind != "tool_result" && b.kind != "text"
  }

  function Maybe(s: Option<string>): Json {
    if s.Some? then Str(s.value) else Null
  }

  function Written(b: Block): Json {
    match b
    case Use(id, name, more) => Obj(more + [("type", Str("tool_use"))] + [("id", Maybe(id))] + [("name", Maybe(name))])
    case Result(id, more) => Obj(more + [("type", Str("tool_result"))] + [("tool_use_id", Maybe(id))])
    case Text(more) => Obj(more + [("type", Str("text"))])
    case Other(kind, more) => Obj(more + [("type", Str(kind))])
  }

  function WrittenAll(bs: seq<Block>): (r: seq<Json>)
    ensures |r| == |bs|
  {
    seq(|bs|, i requires 0 <= i < |bs| => Written(bs[i]))
  }

  /** The events the blocks stand for, in order; blocks without an id stand for none. */
  function StartsOf(bs: seq<Block>, parent: Option<string>): seq<AgentEvent> {
    if bs == [] then []
    else
      var b := bs[|bs| - 1];
      StartsOf(bs[..|bs| - 1], parent) +
      if b.Use? && b.id.Some?
      then [ToolStart(b.id.value, if b.name.Some? then b.name.value else "", parent != None, parent)] else []
  }

  function DonesOf(bs: seq<Block>, parent: Option<string>): seq<AgentEvent> {
    if bs == [] then []
    else
      var b := bs[|bs| - 1];
      DonesOf(bs[..|bs| - 1], parent) +
      if b.Result? && b.id.Some? then [ToolDone(b.id.value, parent != None, parent)] else []
  }

  lemma FieldLast(more: Members, k: string, v: Json, key: string)
    ensures Field(Obj(more + [(k, v)]), key) == if key == k then v else Field(Obj(more), key)
  {
    assert (more + [(k, v)])[..|more|] == more;
  }

  lemma BlockRead(b: Block)
    requires BlockOk(b)
    ensures IsType(Written(b), "tool_use") <==> b.Use?
    ensures IsType(Written(b), "tool_result") <==> b.Result?
    ensures IsType(Written(b), "text") <==> b.Text?
    ensures b.Use? ==> AsStr(Field(Written(b), "id")) == b.id
    ensures b.Use? ==> NameOf(Written(b)) == if b.name.Some? then b.name.value else ""
    ensures b.Result? ==> AsStr(Field(Written(b), "tool_use_id")) == b.id
  {
    match b
    case Use(id, name, more) =>
      var m1 := more + [("type", Str("tool_use"))];
      var m2 := m1 + [("id", Maybe(id))];
      forall key ensures Field(Written(b), key) ==
                         if key == "name" then Maybe(name) else if key == "id" then Maybe(id)
                         else if key == "type" then Str("tool_use") else Field(Obj(more), key) {
        FieldLast(more, "type", Str("tool_use"), key);
        FieldLast(m1, "id", Maybe(id), key);
        FieldLast(m2, "name", Maybe(name), key);
      }
    case Result(id, more) =>
      var m1 := more + [("type", Str("tool_result"))];
      forall key ensures Field(Written(b), key) ==
                         if key == "tool_use_id" then Maybe(id)
                         else if key == "type" then Str("tool_result") else Field(Obj(more), key) {
        FieldLast(more, "type", Str("tool_result"), key);
        FieldLast(m1, "tool_use_id", Maybe(id), key);
      }
    case Text(more) => FieldLast(more, "type", Str("text"), "type");
    case Other(kind, more) => FieldLast(more, "type", Str(kind), "type");
  }

  predicate AllOk(bs: seq<Block>) {
    forall i | 0 <= i < |bs| :: BlockOk(bs[i])
  }

  lemma {:induction false} StartsRead(bs: seq<Block>, parent: Option<string>)
    requires AllOk(bs)
    ensures Starts(WrittenAll(bs), parent) == StartsOf(bs, parent)
  {
    if bs != [] {
      var n := |bs| - 1;
      StartsRead(bs[..n], parent);
      assert WrittenAll(bs)[..n] == WrittenAll(bs[..n]);
      BlockRead(bs[n]);
    }
  }

  lemma {:induction false} DonesRead(bs: seq<Block>, parent: Option<string>)
    requires AllOk(bs)
    ensures Dones(WrittenAll(bs), parent) == DonesOf(bs, parent)
  {
    if bs != [] {
      var n := |bs| - 1;
      DonesRead(bs[..n], parent);
      assert WrittenAll(bs)[..n] == WrittenAll(bs[..n]);
      BlockRead(bs[n]);
    }
  }

  predicate AnyUse(bs: seq<Block>) {
    exists i :: 0 <= i < |bs| && bs[i].Use?
  }

  predicate AnyResult(bs: seq<Block>) {
    exists i :: 0 <= i < |bs| && bs[i].Result?
  }

  predicate AnyText(bs: seq<Block>) {
    exists i :: 0 <= i < |bs| && bs[i].Text?
  }

  lemma KindsRead(bs: seq<Block>)
    requires AllOk(bs)
    ensures AnyOfType(WrittenAll(bs), "tool_use") <==> AnyUse(bs)
    ensures AnyOfType(WrittenAll(bs), "tool_result") <==> AnyResult(bs)
    ensures AnyOfType(WrittenAll(bs), "text") <==> AnyText(bs)
  {
    forall i | 0 <= i < |bs|
      ensures IsType(WrittenAll(bs)[i], "tool_use") <==> bs[i].Use?
      ensures IsType(WrittenAll(bs)[i], "tool_result") <==> bs[i].Result?
      ensures IsType(WrittenAll(bs)[i], "text") <==> bs[i].Text?
    {
      assert BlockOk(bs[i]);
      BlockRead(bs[i]);
    }
  }

  // ----- records -----

  /** A record of the given type with a message that has the given content. */
  function MessageRecord(kind: string, content: Json, more: Members, inner: Members): Json {
    Obj(more + [("type", Str(kind))] + [("message", Obj(inner + [("content", content)]))])
  }

  lemma MessageRead(kind: string, content: Json, more: Members, inner: Members)
    ensures var r := MessageRecord(kind, content, more, inner);
            AsStr(Field(r, "type")) == Some(kind) && Field(Field(r, "message"), "content") == content
  {
    var m1 := more + [("type", Str(kind))];
    var message := Obj(inner + [("content", content)]);
    FieldLast(more, "type", Str(kind), "type");
    FieldLast(m1, "message", message, "type");
    FieldLast(m1, "message", message, "message");
    FieldLast(inner, "content", content, "content");
  }

  /** An assistant record starts its tools after becoming active; without tools, text is an idle hint exactly if the
      turn had none. */
  lemma AssistantRoundTrip(bs: seq<Block>, more: Members, inner: Members, hadTools: bool)
    requires AllOk(bs)
    ensures EventsOf(Some(MessageRecord("assistant", Arr(WrittenAll(bs)), more, inner)), hadTools) ==
            if AnyUse(bs) then [Active] + StartsOf(bs, None)
            else if AnyText(bs) && !hadTools then [TextIdle]
            else []
  {
    MessageRead("assistant", Arr(WrittenAll(bs)), more, inner);
    KindsRead(bs);
    StartsRead(bs, None);
  }

  /** A user record finishes the tools whose results it brings; without results it is the user's activity. */
  lemma UserRoundTrip(bs: seq<Block>, more: Members, inner: Members, hadTools: bool)
    requires AllOk(bs)
    ensures EventsOf(Some(MessageRecord("user", Arr(WrittenAll(bs)), more, inner)), hadTools) ==
            if AnyResult(bs) then DonesOf(bs, None) else [Active]
  {
    MessageRead("user", Arr(WrittenAll(bs)), more, inner);
    KindsRead(bs);
    DonesRead(bs, None);
  }

  lemma PromptRoundTrip(text: string, more: Members, inner: Members, hadTools: bool)
    ensures EventsOf(Some(MessageRecord("user", Str(text), more, inner)), hadTools) == [Active]
  {
    MessageRead("user", Str(text), more, inner);
  }

  function SystemRecord(subtype: string, more: Members): Json {
    Obj(more + [("type", Str("system"))] + [("subtype", Str(subtype))])
  }

  /** A system record ends the turn exactly if it reports the turn's duration. */
  lemma SystemRoundTrip(subtype: string, more: Members, hadTools: bool)
    ensures EventsOf(Some(SystemRecord(subtype, more)), hadTools) ==
            if subtype == "turn_duration" then [TurnEnd] else []
  {
    var m1 := more + [("type", Str("system"))];
    FieldLast(more, "type", Str("system"), "type");
    FieldLast(m1, "subtype", Str(subtype), "type");
    FieldLast(m1, "subtype", Str(subtype), "subtype");
  }

  /** Progress of a sub-agent: a whole record, wrapped, under the tool that started it. */
  function ProgressRecord(parent: Json, kind: string, message: Json, more: Members, inner: Members): Json {
    Obj(more + [("type", Str("progress"))] + [("parentToolUseID", parent)] +
        [("data", Obj(inner + [("type", Str(kind))] + [("message", message)]))])
  }

  lemma ProgressRead(parent: Json, kind: string, message: Json, more: Members, inner: Members)
    ensures var r := ProgressRecord(parent, kind, message, more, inner);
            && AsStr(Field(r, "type")) == Some("progress") && Field(r, "parentToolUseID") == parent
            && AsStr(Field(Field(r, "data"), "type")) == Some(kind) && Field(Field(r, "data"), "message") == message
  {
    var m1 := more + [("type", Str("progress"))];
    var m2 := m1 + [("parentToolUseID", parent)];
    var i1 := inner + [("type", Str(kind))];
    var data := Obj(i1 + [("message", message)]);
    FieldLast(more, "type", Str("progress"), "type");
    FieldLast(m1, "parentToolUseID", parent, "type");
    FieldLast(m1, "parentToolUseID", parent, "parentToolUseID");
    FieldLast(m2, "data", data, "type");
    FieldLast(m2, "data", data, "parentToolUseID");
    FieldLast(m2, "data", data, "data");
    FieldLast(inner, "type", Str(kind), "type");
    FieldLast(i1, "message", message, "type");
    FieldLast(i1, "message", message, "message");
  }

  /** A sub-agent's own assistant and user records start and finish tools under the parent; progress of a shell command
      or of a server means nothing, and neither does any without a parent. */
  lemma ProgressRoundTrip(parent: Option<string>, kind: string, role: string, bs: seq<Block>, more: Members,
                          inner: Members, outer: Members, deep: Members, hadTools: bool)
    requires AllOk(bs)
    ensures var message := MessageRecord(role, Arr(WrittenAll(bs)), outer, deep);
            EventsOf(Some(ProgressRecord(Maybe(parent), kind, message, more, inner)), hadTools) ==
            if parent.None? || kind == "bash_progress" || kind == "mcp_progress" then []
            else if role == "assistant" then StartsOf(bs, parent)
            else if role == "user" then DonesOf(bs, parent)
            else []
  {
    var message := MessageRecord(role, Arr(WrittenAll(bs)), outer, deep);
    var r := ProgressRecord(Maybe(parent), kind, message, more, inner);
    ProgressRead(Maybe(parent), kind, message, more, inner);
    RecordIsProgress(r, hadTools);
    if parent.Some? {
      SubAgentRead(parent.value, Field(r, "data"), kind, role, bs, outer, deep);
    }
  }

  lemma RecordIsProgress(r: Json, hadTools: bool)
    requires AsStr(Field(r, "type")) == Some("progress")
    ensures EventsOf(Some(r), hadTools) ==
            var parent := AsStr(Field(r, "parentToolUseID"));
            if parent.Some? then ProgressEvents(parent.value, Field(r, "data")) else []
  {
  }

  lemma SubAgentRead(parent: string, data: Json, kind: string, role: string, bs: seq<Block>, outer: Members,
                     deep: Members)
    requires AllOk(bs) && AsStr(Field(data, "type")) == Some(kind)
    requires Field(data, "message") == MessageRecord(role, Arr(WrittenAll(bs)), outer, deep)
    ensures ProgressEvents(parent, data) ==
            if kind == "bash_progress" || kind == "mcp_progress" then []
            else if role == "assistant" then StartsOf(bs, Some(parent))
            else if role == "user" then DonesOf(bs, Some(parent))
            else []
  {
    MessageRead(role, Arr(WrittenAll(bs)), outer, deep);
    StartsRead(bs, Some(parent));
    DonesRead(bs, Some(parent));
  }

  /** Records of any other type, and lines that are no JSON, mean nothing. */
  lemma OthersMeanNothing(kind: string, more: Members, hadTools: bool)
    requires kind != "assistant" && kind != "user" && kind != "system" && kind != "progress"
    ensures EventsOf(Some(Obj(more + [("type", Str(kind))])), hadTools) == [] && EventsOf(None, hadTools) == []
  {
    FieldLast(more, "type", Str(kind), "type");
  }
}
