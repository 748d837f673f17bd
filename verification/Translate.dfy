/**
 Claude assistant turns sent to OpenAI clients and back again as history, and the message loop of
 OpenAI to Claude requests. Objects list their keys in order, as serde_json's maps do.
 */
module Translate {
  import opened Options
  import opened Json

  type Parser = string -> Option<Value>

  const NO_INPUT := Object([])

  function Else<T>(o: Option<T>, default: T): T {
    match o
    case Some(v) => v
    case None => default
  }

  function Items(v: Option<Value>): seq<Value> {
    if v.Some? && v.value.Array? then v.value.items else []
  }

  // ----- Claude to OpenAI -----

  /** The text of a text block; a text that is no string counts as empty. */
  function BlockText(block: Value): Option<string> {
    if GetStr(block, "type") != Some("text") then None
    else match block.Get("text")
      case Some(t) => Some(Else(t.AsStr(), ""))
      case None => None
  }

  function TextOf(blocks: seq<Value>): string {
    if blocks == [] then "" else Else(BlockText(blocks[0]), "") + TextOf(blocks[1..])
  }

  predicate IsToolUse(block: Value) {
    GetStr(block, "type") == Some("tool_use")
  }

  function InputOf(block: Value): Value {
    Else(block.Get("input"), NO_INPUT)
  }

  /** One element of `claude_tool_use_to_openai`. */
  function CallFor(block: Value): Value {
    Object([
      Entry("function", Object([Entry("arguments", String(Text(InputOf(block)))),
                                Entry("name", String(Else(GetStr(block, "name"), "")))])),
      Entry("id", Else(block.Get("id"), String(""))),
      Entry("type", String("function"))])
  }

  /** `claude_tool_use_to_openai`, on the blocks of an array. */
  function CallsFor(blocks: seq<Value>): seq<Value> {
    if blocks == [] then []
    else (if IsToolUse(blocks[0]) then [CallFor(blocks[0])] else []) + CallsFor(blocks[1..])
  }

  /** The message of `translate_response`: null content only when there is nothing but tool calls. */
  function MessageFor(content: Option<Value>): Value {
    var text, calls := TextOf(Items(content)), CallsFor(Items(content));
    var shown := if text != "" || calls == [] then String(text) else Null;
    Object([Entry("content", shown), Entry("role", String("assistant"))]
           + if calls == [] then [] else [Entry("tool_calls", Array(calls))])
  }

  // ----- OpenAI to Claude -----

  /** What `serde_json::from_str(..).unwrap_or({})` makes of the arguments. */
  function Parsed(parse: Parser, arguments: string): Value {
    Else(parse(arguments), NO_INPUT)
  }

  /** A call `openai_tool_calls_to_claude` keeps: a function with a string name and some arguments. */
  predicate WellFormedCall(call: Value) {
    match call.Get("function")
    case Some(f) => GetStr(f, "name").Some? && f.Get("arguments").Some?
    case None => false
  }

  function CallId(call: Value): string {
    Else(GetStr(call, "id"), "")
  }

  function ToolUseFor(parse: Parser, call: Value): Value
    requires WellFormedCall(call)
  {
    var f := call.Get("function").value;
    Object([
      Entry("id", String(CallId(call))),
      Entry("input", Parsed(parse, Else(GetStr(f, "arguments"), "{}"))),
      Entry("name", String(GetStr(f, "name").value)),
      Entry("type", String("tool_use"))])
  }

  function ToolUsesFor(parse: Parser, calls: seq<Value>): seq<Value> {
    if calls == [] then []
    else (if WellFormedCall(calls[0]) then [ToolUseFor(parse, calls[0])] else []) + ToolUsesFor(parse, calls[1..])
  }

  function TextBlock(text: string): Value {
    Object([Entry("text", String(text)), Entry("type", String("text"))])
  }

  /** The blocks of an assistant turn; never none. */
  function BlocksFor(parse: Parser, message: Value): (blocks: seq<Value>)
    ensures blocks != []
  {
    var text := Else(GetStr(message, "content"), "");
    var blocks := (if text != "" then [TextBlock(text)] else []) + ToolUsesFor(parse, Items(message.Get("tool_calls")));
    if blocks == [] then [TextBlock("")] else blocks
  }

  // ----- the round trip of one turn -----

  /** A tool call as its block holds it, with fields of any type or missing. */
  datatype ToolUse = ToolUse(id: Option<Value>, name: Option<Value>, input: Option<Value>)

  function ToolOf(block: Value): ToolUse {
    ToolUse(block.Get("id"), block.Get("name"), block.Get("input"))
  }

  function Tools(blocks: seq<Value>): seq<ToolUse> {
    if blocks == [] then []
    else (if IsToolUse(blocks[0]) then [ToolOf(blocks[0])] else []) + Tools(blocks[1..])
  }

  /** A field as a string: blank if it is missing or no string. */
  function StringIn(field: Option<Value>): string {
    match field
    case Some(v) => Else(v.AsStr(), "")
    case None => ""
  }

  /** A tool call after the round trip: id and name as strings, the input through its text and back. */
  function Returned(parse: Parser, tool: ToolUse): ToolUse {
    ToolUse(Some(String(StringIn(tool.id))), Some(String(StringIn(tool.name))),
            Some(Parsed(parse, Text(Else(tool.input, NO_INPUT)))))
  }

  function AllReturned(parse: Parser, tools: seq<ToolUse>): seq<ToolUse> {
    if tools == [] then [] else [Returned(parse, tools[0])] + AllReturned(parse, tools[1..])
  }

  /** A call with a string id, a string name and an input that comes back from its own text. */
  predicate ComesBack(parse: Parser, tool: ToolUse) {
    && tool.id.Some? && tool.id.value.String?
    && tool.name.Some? && tool.name.value.String?
    && tool.input.Some? && Parsed(parse, Text(tool.input.value)) == tool.input.value
  }

  lemma CallForFields(block: Value)
    ensures var call := CallFor(block);
            var f := call.Get("function");
            && f.Some? && GetStr(f.value, "name") == Some(Else(GetStr(block, "name"), ""))
            && GetStr(f.value, "arguments") == Some(Text(InputOf(block)))
            && call.Get("id") == Some(Else(block.Get("id"), String("")))
            && WellFormedCall(call) && CallId(call) == Else(GetStr(block, "id"), "")
  {
    var call := CallFor(block);
    var entries := call.entries;
    assert call.Get("function") == Some(entries[0].value);
    var f := entries[0].value;
    assert f.Get("arguments") == Some(f.entries[0].value);
    assert f.entries[0].key[0] != "name"[0];
    assert f.entries[1..][0] == f.entries[1];
    assert Lookup(f.entries[1..], "name") == Some(f.entries[1].value);
    assert f.Get("name") == Some(f.entries[1].value);
    assert entries[0].key[0] != "id"[0];
    assert entries[1..][0] == entries[1];
    assert Lookup(entries[1..], "id") == Some(entries[1].value);
    assert call.Get("id") == Some(entries[1].value);
  }

  lemma ToolUseForFields(parse: Parser, call: Value)
    requires WellFormedCall(call)
    ensures var block, f := ToolUseFor(parse, call), call.Get("function").value;
            && IsToolUse(block) && BlockText(block) == None
            && ToolOf(block) == ToolUse(Some(String(CallId(call))), Some(String(GetStr(f, "name").value)),
                                        Some(Parsed(parse, Else(GetStr(f, "arguments"), "{}"))))
  {
    var block := ToolUseFor(parse, call);
    var e := block.entries;
    assert e[1..][0] == e[1] && e[2..][0] == e[2] && e[3..][0] == e[3];
    assert e[1..][1..] == e[2..] && e[2..][1..] == e[3..];
    assert e[0].key[1] != "input"[1] && e[0].key[0] != "name"[0] && e[0].key[0] != "type"[0];
    assert e[1].key[0] != "name"[0] && e[1].key[0] != "type"[0] && e[2].key[0] != "type"[0];
    assert Lookup(e[3..], "type") == Some(e[3].value);
    assert Lookup(e[2..], "type") == Some(e[3].value);
    assert Lookup(e[2..], "name") == Some(e[2].value);
    assert Lookup(e[1..], "type") == Some(e[3].value);
    assert Lookup(e[1..], "name") == Some(e[2].value);
    assert Lookup(e[1..], "input") == Some(e[1].value);
    assert block.Get("type") == Some(e[3].value);
    assert block.Get("name") == Some(e[2].value);
    assert block.Get("input") == Some(e[1].value);
    assert block.Get("id") == Some(e[0].value);
    assert "tool_use"[1] != "text"[1];
  }

  lemma TextBlockFields(text: string)
    ensures BlockText(TextBlock(text)) == Some(text) && !IsToolUse(TextBlock(text))
  {
    var e := TextBlock(text).entries;
    assert e[0].key[1] != "type"[1];
    assert e[1..][0] == e[1];
    assert Lookup(e, "type") == Some(e[1].value);
    assert Lookup(e, "text") == Some(e[0].value);
    assert "tool_use"[1] != "text"[1];
  }

  lemma {:induction false} ToolUsesAreBack(parse: Parser, blocks: seq<Value>)
    ensures var back := ToolUsesFor(parse, CallsFor(blocks));
            && Tools(back) == AllReturned(parse, Tools(blocks))
            && TextOf(back) == ""
            && (back == [] <==> CallsFor(blocks) == [])
  {
    if blocks != [] {
      ToolUsesAreBack(parse, blocks[1..]);
      if IsToolUse(blocks[0]) {
        OneToolIsBack(parse, blocks[0], CallsFor(blocks[1..]), Tools(blocks[1..]));
        assert CallsFor(blocks) == [CallFor(blocks[0])] + CallsFor(blocks[1..]);
        assert Tools(blocks) == [ToolOf(blocks[0])] + Tools(blocks[1..]);
      } else {
        assert CallsFor(blocks) == CallsFor(blocks[1..]);
        assert Tools(blocks) == Tools(blocks[1..]);
      }
    }
  }

  lemma OneToolIsBack(parse: Parser, block: Value, calls: seq<Value>, tools: seq<ToolUse>)
    ensures var back := ToolUsesFor(parse, [CallFor(block)] + calls);
            && back != []
            && Tools(back) == [Returned(parse, ToolOf(block))] + Tools(ToolUsesFor(parse, calls))
            && TextOf(back) == TextOf(ToolUsesFor(parse, calls))
    ensures AllReturned(parse, [ToolOf(block)] + tools) == [Returned(parse, ToolOf(block))] + AllReturned(parse, tools)
  {
    var call := CallFor(block);
    CallForFields(block);
    ToolUseForFields(parse, call);
    assert ([call] + calls)[1..] == calls;
    var rest := ToolUsesFor(parse, calls);
    assert ([ToolUseFor(parse, call)] + rest)[1..] == rest;
    assert ([ToolOf(block)] + tools)[1..] == tools;
  }

  lemma MessageForFields(content: Option<Value>)
    ensures var m, text, calls := MessageFor(content), TextOf(Items(content)), CallsFor(Items(content));
            && GetStr(m, "role") == Some("assistant")
            && Else(GetStr(m, "content"), "") == text
            && Items(m.Get("tool_calls")) == calls
  {
    var e := MessageFor(content).entries;
    assert e[1..][0] == e[1];
    assert e[0].key[0] != "role"[0] && e[0].key[0] != "tool_calls"[0] && e[1].key[0] != "tool_calls"[0];
    assert Lookup(e[1..], "role") == Some(e[1].value);
    assert Lookup(e, "role") == Some(e[1].value);
    assert Lookup(e, "content") == Some(e[0].value);
    if |e| == 3 {
      assert e[1..][1..] == e[2..] && e[2..][0] == e[2];
      assert Lookup(e[2..], "tool_calls") == Some(e[2].value);
      assert Lookup(e[1..], "tool_calls") == Some(e[2].value);
      assert Lookup(e, "tool_calls") == Some(e[2].value);
    } else {
      assert e[1..][1..] == [];
      assert Lookup(e[1..], "tool_calls") == None;
      assert Lookup(e, "tool_calls") == None;
    }
  }

  lemma {:induction false} ToolUsesHaveNoText(parse: Parser, calls: seq<Value>)
    ensures TextOf(ToolUsesFor(parse, calls)) == ""
  {
    if calls != [] {
      ToolUsesHaveNoText(parse, calls[1..]);
      if WellFormedCall(calls[0]) {
        ToolUseForFields(parse, calls[0]);
        var use, rest := ToolUseFor(parse, calls[0]), ToolUsesFor(parse, calls[1..]);
        assert ToolUsesFor(parse, calls) == [use] + rest;
        assert ([use] + rest)[1..] == rest && "" + "" == "";
      } else {
        assert ToolUsesFor(parse, calls) == ToolUsesFor(parse, calls[1..]);
      }
    }
  }

  /** Prepending a text block, or standing in for no block at all. */
  lemma BlocksForContents(parse: Parser, message: Value)
    ensures var blocks := BlocksFor(parse, message);
            && TextOf(blocks) == Else(GetStr(message, "content"), "")
            && Tools(blocks) == Tools(ToolUsesFor(parse, Items(message.Get("tool_calls"))))
  {
    var text, uses := Else(GetStr(message, "content"), ""), ToolUsesFor(parse, Items(message.Get("tool_calls")));
    ToolUsesHaveNoText(parse, Items(message.Get("tool_calls")));
    TextBlockFields(text);
    TextBlockFields("");
    assert ([TextBlock(text)] + uses)[1..] == uses;
    assert [TextBlock("")][1..] == [];
    assert text + "" == text;
    assert [] + uses == uses;
  }

  /** The text of an assistant message, whose content is a string or an array of parts. */
  function HistoryText(content: Option<Value>): string {
    match content
    case Some(String(text)) => text
    case _ => TextOf(Items(content))
  }

  /** An assistant message in the history keeps its text exactly when its content is no array that holds any. */
  lemma HistoryTextSurvives(parse: Parser, message: Value)
    ensures var content := message.Get("content");
            TextOf(BlocksFor(parse, message)) == HistoryText(content) <==>
            !(content.Some? && content.value.Array? && TextOf(content.value.items) != "")
  {
    BlocksForContents(parse, message);
  }

  lemma {:induction false} AllComeBack(parse: Parser, tools: seq<ToolUse>)
    ensures |AllReturned(parse, tools)| == |tools|
    ensures AllReturned(parse, tools) == tools <==> forall i | 0 <= i < |tools| :: ComesBack(parse, tools[i])
  {
    if tools != [] {
      AllComeBack(parse, tools[1..]);
      var back := AllReturned(parse, tools);
      assert tools == [tools[0]] + tools[1..];
      assert back[0] == Returned(parse, tools[0]) && back[1..] == AllReturned(parse, tools[1..]);
      assert back[0] == tools[0] <==> ComesBack(parse, tools[0]);
      assert back == tools <==> back[0] == tools[0] && back[1..] == tools[1..];
      assert forall i | 0 <= i < |tools[1..]| :: tools[1..][i] == tools[i + 1];
      assert forall i | 1 <= i < |tools| :: tools[i] == tools[1..][i - 1];
    }
  }

  /**
   An assistant turn after the round trip, for every content array: the same text, and its tool calls
   in their order. A call keeps an id and a name that are strings, and one that is no string, or
   missing, comes back blank; so the calls are the same exactly when each has both as strings and an
   input that comes back from its own text.
   */
  lemma AssistantTurnSurvives(parse: Parser, content: Option<Value>)
    ensures var blocks, back := Items(content), BlocksFor(parse, MessageFor(content));
            && TextOf(back) == TextOf(blocks)
            && Tools(back) == AllReturned(parse, Tools(blocks))
            && (Tools(back) == Tools(blocks) <==>
                forall i | 0 <= i < |Tools(blocks)| :: ComesBack(parse, Tools(blocks)[i]))
  {
    MessageForFields(content);
    ToolUsesAreBack(parse, Items(content));
    BlocksForContents(parse, MessageFor(content));
    AllComeBack(parse, Tools(Items(content)));
  }

  // ----- a whole conversation -----

  /** The JSON parser, and the conversions of user and system contents. */
  datatype Converters = Converters(parse: Parser, user: Value -> Value, system: Value -> seq<Value>)

  datatype Request = Request(system: seq<Value>, messages: seq<Value>)

  function RoleOf(message: Value): string {
    Else(GetStr(message, "role"), "")
  }

  /** `message[key]`: null where there is no such field. */
  function At(message: Value, key: string): Value {
    Else(message.Get(key), Null)
  }

  function TurnObject(role: string, content: Value): Value {
    Object([Entry("content", content), Entry("role", String(role))])
  }

  function ToolResult(message: Value): Value {
    Object([
      Entry("content", At(message, "content")),
      Entry("tool_use_id", At(message, "tool_call_id")),
      Entry("type", String("tool_result"))])
  }

  /** What one message becomes; system messages go elsewhere and unknown roles are dropped. */
  function TurnFor(c: Converters, message: Value): seq<Value> {
    var role := RoleOf(message);
    if role == "user" then [TurnObject("user", c.user(At(message, "content")))]
    else if role == "assistant" then [TurnObject("assistant", Array(BlocksFor(c.parse, message)))]
    else if role == "tool" then [TurnObject("user", Array([ToolResult(message)]))]
    else []
  }

  /** What one message adds to the system field. */
  function SystemFor(c: Converters, message: Value): seq<Value> {
    if RoleOf(message) == "system" then c.system(message) else []
  }

  function Turns(c: Converters, messages: seq<Value>): seq<Value> {
    if messages == [] then [] else Turns(c, messages[..|messages| - 1]) + TurnFor(c, messages[|messages| - 1])
  }

  function SystemBlocks(c: Converters, messages: seq<Value>): seq<Value> {
    if messages == [] then []
    else SystemBlocks(c, messages[..|messages| - 1]) + SystemFor(c, messages[|messages| - 1])
  }

  lemma NextMessage(c: Converters, messages: seq<Value>, i: nat)
    requires i < |messages|
    ensures SystemBlocks(c, messages[..i + 1]) == SystemBlocks(c, messages[..i]) + SystemFor(c, messages[i])
    ensures Turns(c, messages[..i + 1]) == Turns(c, messages[..i]) + TurnFor(c, messages[i])
  {
    assert messages[..i + 1][..i] == messages[..i];
  }

  function JsonHint(body: Value): seq<Value> {
    if GetStr(At(body, "response_format"), "type") == Some("json_object")
    then [TextBlock("Respond only with valid JSON.")] else []
  }

  /** The message loop of `translate_request`; a missing or empty list is an error. */
  method TranslateRequest(c: Converters, body: Value) returns (request: Option<Request>)
    ensures request == var messages := Items(body.Get("messages"));
                       if messages == [] then None
                       else Some(Request(SystemBlocks(c, messages) + JsonHint(body), Turns(c, messages)))
  {
    var messages := Items(body.Get("messages"));
    if messages == [] { return None; }
    var system: seq<Value>, turns: seq<Value> := [], [];
    for i := 0 to |messages|
      invariant system == SystemBlocks(c, messages[..i]) && turns == Turns(c, messages[..i])
    {
      NextMessage(c, messages, i);
      var blocks, turn := TranslateMessage(c, messages[i]);
      system := system + blocks;
      turns := turns + turn;
    }
    assert messages[..|messages|] == messages;
    var hint := if GetStr(At(body, "response_format"), "type") == Some("json_object")
                then [TextBlock("Respond only with valid JSON.")] else [];
    return Some(Request(system + hint, turns));
  }

  /** The body of the loop. */
  method TranslateMessage(c: Converters, message: Value) returns (system: seq<Value>, turn: seq<Value>)
    ensures system == SystemFor(c, message) && turn == TurnFor(c, message)
  {
    system, turn := [], [];
    var role := RoleOf(message);
    if role == "system" {
      system := c.system(message);
      RolesDiffer();
    } else if role == "user" {
      turn := [TurnObject("user", c.user(At(message, "content")))];
    } else if role == "assistant" {
      var blocks := AssistantBlocks(c.parse, message);
      turn := [TurnObject("assistant", Array(blocks))];
    } else if role == "tool" {
      turn := [TurnObject("user", Array([ToolResult(message)]))];
    }
  }

  /** The assistant arm of the loop. */
  method AssistantBlocks(parse: Parser, message: Value) returns (blocks: seq<Value>)
    ensures blocks == BlocksFor(parse, message)
  {
    blocks := [];
    var text := At(message, "content").AsStr();
    if text.Some? && text.value != "" { blocks := blocks + [TextBlock(text.value)]; }
    var calls := At(message, "tool_calls");
    if calls != Null { blocks := blocks + ToolUsesFor(parse, Items(Some(calls))); }
    if blocks == [] { blocks := blocks + [TextBlock("")]; }
  }

  // ----- tool results answer earlier tool uses -----

  predicate HasToolUse(blocks: seq<Value>, id: string) {
    blocks != [] && ((IsToolUse(blocks[0]) && Else(GetStr(blocks[0], "id"), "") == id) || HasToolUse(blocks[1..], id))
  }

  predicate HasCall(calls: seq<Value>, id: string) {
    calls != [] && ((WellFormedCall(calls[0]) && CallId(calls[0]) == id) || HasCall(calls[1..], id))
  }

  /** An assistant message that makes a well-formed call under the id. */
  predicate Calls(message: Value, id: string) {
    RoleOf(message) == "assistant" && HasCall(Items(message.Get("tool_calls")), id)
  }

  /** A Claude assistant turn that uses a tool under the id. */
  predicate Uses(turn: Value, id: string) {
    RoleOf(turn) == "assistant" && HasToolUse(Items(turn.Get("content")), id)
  }

  lemma TurnObjectFields(role: string, content: Value)
    ensures var turn := TurnObject(role, content);
            turn.Get("content") == Some(content) && GetStr(turn, "role") == Some(role)
  {
    var e := TurnObject(role, content).entries;
    assert e[1..][0] == e[1];
    assert e[0].key[0] != "role"[0];
    assert Lookup(e[1..], "role") == Some(e[1].value);
    assert Lookup(e, "role") == Some(e[1].value);
  }

  /** Such a message: one text part, and nothing of it left. */
  lemma ArrayTextIsLost(parse: Parser, text: string)
    requires text != ""
    ensures var message := TurnObject("assistant", Array([TextBlock(text)]));
            HistoryText(message.Get("content")) == text && TextOf(BlocksFor(parse, message)) == ""
  {
    TurnObjectFields("assistant", Array([TextBlock(text)]));
    OnePartText(text);
    BlocksForContents(parse, TurnObject("assistant", Array([TextBlock(text)])));
  }

  lemma OnePartText(text: string)
    ensures TextOf([TextBlock(text)]) == text
  {
    TextBlockFields(text);
    var none := [TextBlock(text)][1..];
    assert none == [] && TextOf(none) == "" && text + "" == text;
  }

  lemma {:induction false} ToolUsesHaveIds(parse: Parser, calls: seq<Value>, id: string)
    ensures HasToolUse(ToolUsesFor(parse, calls), id) == HasCall(calls, id)
  {
    if calls != [] {
      ToolUsesHaveIds(parse, calls[1..], id);
      if WellFormedCall(calls[0]) {
        ToolUseForFields(parse, calls[0]);
        var use, rest := ToolUseFor(parse, calls[0]), ToolUsesFor(parse, calls[1..]);
        assert ToolUsesFor(parse, calls) == [use] + rest;
        assert ([use] + rest)[1..] == rest;
        assert ToolOf(use).id == Some(String(CallId(calls[0])));
      } else {
        assert ToolUsesFor(parse, calls) == ToolUsesFor(parse, calls[1..]);
      }
    }
  }

  lemma BlocksHaveIds(parse: Parser, message: Value, id: string)
    ensures HasToolUse(BlocksFor(parse, message), id) == HasCall(Items(message.Get("tool_calls")), id)
  {
    var text, uses := Else(GetStr(message, "content"), ""), ToolUsesFor(parse, Items(message.Get("tool_calls")));
    ToolUsesHaveIds(parse, Items(message.Get("tool_calls")), id);
    TextBlockFields(text);
    TextBlockFields("");
    assert ([TextBlock(text)] + uses)[1..] == uses;
    assert [TextBlock("")][1..] == [];
    assert [] + uses == uses;
  }

  lemma RolesDiffer()
    ensures "user" != "assistant" && "tool" != "assistant" && "tool" != "user"
    ensures "system" != "user" && "system" != "assistant" && "system" != "tool"
  {
    assert |"user"| != |"assistant"| && |"tool"| != |"assistant"| && "tool"[0] != "user"[0];
    assert |"system"| != |"user"| && |"system"| != |"assistant"| && |"system"| != |"tool"|;
  }

  /** A message uses a tool in its Claude turn exactly when it makes a well-formed call. */
  lemma TurnUses(c: Converters, message: Value, id: string)
    ensures Calls(message, id) ==> |TurnFor(c, message)| == 1
    ensures TurnFor(c, message) != [] ==> (Uses(TurnFor(c, message)[0], id) <==> Calls(message, id))
  {
    RolesDiffer();
    var role := RoleOf(message);
    if role == "assistant" {
      TurnObjectFields("assistant", Array(BlocksFor(c.parse, message)));
      BlocksHaveIds(c.parse, message, id);
    } else if role == "user" {
      TurnObjectFields("user", c.user(At(message, "content")));
    } else if role == "tool" {
      TurnObjectFields("user", Array([ToolResult(message)]));
    }
  }

  ghost predicate AnyUses(turns: seq<Value>, id: string) {
    exists p :: 0 <= p < |turns| && Uses(turns[p], id)
  }

  ghost predicate AnyCalls(messages: seq<Value>, id: string) {
    exists k :: 0 <= k < |messages| && Calls(messages[k], id)
  }

  lemma AnyAppend(turns: seq<Value>, more: seq<Value>, id: string)
    requires |more| <= 1
    ensures AnyUses(turns + more, id) <==> AnyUses(turns, id) || (more != [] && Uses(more[0], id))
  {
    if AnyUses(turns, id) {
      var p :| 0 <= p < |turns| && Uses(turns[p], id);
      assert (turns + more)[p] == turns[p];
    }
    if more != [] && Uses(more[0], id) {
      assert (turns + more)[|turns|] == more[0];
    }
  }

  lemma LastCalls(messages: seq<Value>, id: string)
    requires messages != []
    ensures AnyCalls(messages, id) <==>
            AnyCalls(messages[..|messages| - 1], id) || Calls(messages[|messages| - 1], id)
  {
    var front := messages[..|messages| - 1];
    assert forall k | 0 <= k < |front| :: front[k] == messages[k];
  }

  lemma {:induction false} TurnsUseWhatMessagesCall(c: Converters, messages: seq<Value>, id: string)
    ensures AnyUses(Turns(c, messages), id) <==> AnyCalls(messages, id)
  {
    if messages != [] {
      var last := messages[|messages| - 1];
      TurnsUseWhatMessagesCall(c, messages[..|messages| - 1], id);
      LastCalls(messages, id);
      TurnUses(c, last, id);
      AnyAppend(Turns(c, messages[..|messages| - 1]), TurnFor(c, last), id);
    }
  }

  /** A prefix of the conversation gives a prefix of the turns, and the next message the next turn. */
  lemma {:induction false} TurnsOfPrefix(c: Converters, messages: seq<Value>, m: nat)
    requires m < |messages|
    ensures var before, turns := Turns(c, messages[..m]), Turns(c, messages);
            before + TurnFor(c, messages[m]) <= turns
  {
    if m == |messages| - 1 {
    } else {
      var front := messages[..|messages| - 1];
      TurnsOfPrefix(c, front, m);
      assert front[..m] == messages[..m];
    }
  }

  /**
   Every tool message becomes a turn with one tool result under its id, and a tool use under that id
   stands in an earlier turn exactly when an earlier assistant message made a well-formed call under it.
   */
  lemma ToolResultsAnswerToolUses(c: Converters, messages: seq<Value>, m: nat, id: string)
    requires m < |messages| && RoleOf(messages[m]) == "tool" && At(messages[m], "tool_call_id") == String(id)
    ensures var turns, q := Turns(c, messages), |Turns(c, messages[..m])|;
            && q < |turns|
            && RoleOf(turns[q]) == "user" && turns[q].Get("content") == Some(Array([ToolResult(messages[m])]))
            && ToolResult(messages[m]).Get("content") == Some(At(messages[m], "content"))
            && ToolResult(messages[m]).Get("tool_use_id") == Some(String(id))
            && GetStr(ToolResult(messages[m]), "type") == Some("tool_result")
            && (AnyUses(turns[..q], id) <==> AnyCalls(messages[..m], id))
  {
    RolesDiffer();
    TurnsOfPrefix(c, messages, m);
    TurnsUseWhatMessagesCall(c, messages[..m], id);
    TurnObjectFields("user", Array([ToolResult(messages[m])]));
    ToolResultFields(messages[m]);
    var before, turns := Turns(c, messages[..m]), Turns(c, messages);
    assert turns[..|before|] == before;
    assert turns[|before|] == TurnFor(c, messages[m])[0];
  }

  lemma ToolResultFields(message: Value)
    ensures var r := ToolResult(message);
            && r.Get("content") == Some(At(message, "content"))
            && r.Get("tool_use_id") == Some(At(message, "tool_call_id")) && GetStr(r, "type") == Some("tool_result")
  {
    var e := ToolResult(message).entries;
    assert e[1..][0] == e[1] && e[2..][0] == e[2] && e[1..][1..] == e[2..];
    assert e[0].key[0] != "tool_use_id"[0] && e[0].key[0] != "type"[0] && e[1].key[1] != "type"[1];
    assert Lookup(e[2..], "type") == Some(e[2].value);
    assert Lookup(e[1..], "type") == Some(e[2].value);
    assert Lookup(e[1..], "tool_use_id") == Some(e[1].value);
    assert Lookup(e, "tool_use_id") == Some(e[1].value);
    assert Lookup(e, "type") == Some(e[2].value);
  }

  lemma {:induction false} CallsForHaveIds(blocks: seq<Value>, id: string)
    ensures HasCall(CallsFor(blocks), id) == HasToolUse(blocks, id)
  {
    if blocks != [] {
      CallsForHaveIds(blocks[1..], id);
      if IsToolUse(blocks[0]) {
        CallForFields(blocks[0]);
        var rest := CallsFor(blocks[1..]);
        assert CallsFor(blocks) == [CallFor(blocks[0])] + rest;
        assert ([CallFor(blocks[0])] + rest)[1..] == rest;
      } else {
        assert CallsFor(blocks) == CallsFor(blocks[1..]);
      }
    }
  }

  /** Every tool use of a Claude answer is a well-formed call of the message a client sends back. */
  lemma ConvertedUsesAreCalls(content: Option<Value>, id: string)
    ensures Calls(MessageFor(content), id) <==> HasToolUse(Items(content), id)
  {
    MessageForFields(content);
    CallsForHaveIds(Items(content), id);
  }
}
