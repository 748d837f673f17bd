/** What the translated conversations say, message by message and key by key. */
module TranslateTurns {
  import opened Options
  import opened Json
  import opened Strings
  import opened Translate

  // ----- one turn -----

  predicate Has(v: Value, key: string, field: Value) {
    v.Get(key) == Some(field)
  }

  predicate Is(message: Value, role: string) {
    Has(message, "role", Value.String(role))
  }

  function Field(message: Value, key: string): Value {
    match message.Get(key)
    case Some(field) => field
    case None => Null
  }

  predicate Speaks(turn: Value, role: string, content: Value) {
    Has(turn, "role", Value.String(role)) && Has(turn, "content", content)
  }

  /** A call of a function with a string name and arguments of any kind. */
  predicate IsCall(call: Value) {
    match call.Get("function")
    case Some(f) => f.Get("name").Some? && f.Get("name").value.String? && f.Get("arguments").Some?
    case None => false
  }

  function CallsIn(calls: seq<Value>): seq<Value> {
    if calls == [] then []
    else if IsCall(calls[0]) then [calls[0]] + CallsIn(calls[1..])
    else CallsIn(calls[1..])
  }

  function ArrayIn(message: Value, key: string): seq<Value> {
    if Field(message, key).Array? then Field(message, key).items else []
  }

  /** The arguments as JSON: an empty object if they are no string that the parser reads. */
  function ReadArguments(parse: Parser, arguments: Value): Value {
    var read := parse(if arguments.String? then arguments.s else "{}");
    if read.Some? then read.value else Object([])
  }

  /** The tool use of a call: its id, blank unless it is a string, its name, and its arguments as JSON. */
  predicate UseSays(parse: Parser, block: Value, call: Value)
    requires IsCall(call)
  {
    var f, id := call.Get("function").value, Field(call, "id");
    && Has(block, "type", Value.String("tool_use")) && Has(block, "name", f.Get("name").value)
    && Has(block, "id", if id.String? then id else Value.String(""))
    && Has(block, "input", ReadArguments(parse, f.Get("arguments").value))
  }

  predicate AllUse(parse: Parser, blocks: seq<Value>, calls: seq<Value>) {
    |blocks| == |calls| && forall k | 0 <= k < |calls| :: IsCall(calls[k]) && UseSays(parse, blocks[k], calls[k])
  }

  predicate TextSays(block: Value, text: string) {
    Has(block, "type", Value.String("text")) && Has(block, "text", Value.String(text))
  }

  /** The text first, if it is a string and not empty; then the calls in order; an empty text in place of nothing. */
  predicate BlocksSay(parse: Parser, message: Value, blocks: seq<Value>) {
    var content, calls := Field(message, "content"), CallsIn(ArrayIn(message, "tool_calls"));
    var lead := if content.String? && content.s != "" then 1 else 0;
    if lead == 0 && calls == [] then |blocks| == 1 && TextSays(blocks[0], "")
    else
      && |blocks| >= lead && (lead == 1 ==> TextSays(blocks[0], content.s)) && AllUse(parse, blocks[lead..], calls)
  }

  predicate ResultSays(block: Value, message: Value) {
    && Has(block, "type", Value.String("tool_result"))
    && Has(block, "tool_use_id", Field(message, "tool_call_id")) && Has(block, "content", Field(message, "content"))
  }

  /** Users and tools speak as the user, assistants as themselves. */
  ghost predicate TurnSays(c: Converters, turn: Value, message: Value) {
    || (Is(message, "user") && Speaks(turn, "user", c.user(Field(message, "content"))))
    || (Is(message, "assistant")
        && exists blocks :: Speaks(turn, "assistant", Array(blocks)) && BlocksSay(c.parse, message, blocks))
    || (Is(message, "tool")
        && exists result :: Speaks(turn, "user", Array([result])) && ResultSays(result, message))
  }

  predicate HasTurn(message: Value) {
    Is(message, "user") || Is(message, "assistant") || Is(message, "tool")
  }

  // ----- the blocks of an assistant -----

  lemma WellFormedIsCall(call: Value)
    ensures WellFormedCall(call) <==> IsCall(call)
  {
  }

  lemma UseOf(parse: Parser, call: Value)
    requires IsCall(call)
    ensures UseSays(parse, ToolUseFor(parse, call), call)
  {
    var block := ToolUseFor(parse, call);
    ToolUseForFields(parse, call);
    assert ToolOf(block).name == block.Get("name") && ToolOf(block).id == block.Get("id");
    assert ToolOf(block).input == block.Get("input");
  }

  lemma UseMore(parse: Parser, block: Value, call: Value, blocks: seq<Value>, calls: seq<Value>)
    requires IsCall(call) && UseSays(parse, block, call) && AllUse(parse, blocks, calls)
    ensures AllUse(parse, [block] + blocks, [call] + calls)
  {
  }

  lemma {:induction false} UsesInOrder(parse: Parser, calls: seq<Value>)
    ensures AllUse(parse, ToolUsesFor(parse, calls), CallsIn(calls))
  {
    if calls != [] {
      UsesInOrder(parse, calls[1..]);
      WellFormedIsCall(calls[0]);
      if IsCall(calls[0]) {
        UseOf(parse, calls[0]);
        UseMore(parse, ToolUseFor(parse, calls[0]), calls[0], ToolUsesFor(parse, calls[1..]), CallsIn(calls[1..]));
      } else {
        assert [] + ToolUsesFor(parse, calls[1..]) == ToolUsesFor(parse, calls[1..]);
      }
    }
  }

  lemma TextOfBlock(text: string)
    ensures TextSays(TextBlock(text), text)
  {
    var e := TextBlock(text).entries;
    assert e[0].key[1] != "type"[1];
    LookupAt(e, "text", 0);
    LookupAt(e, "type", 1);
  }

  lemma AssistantSays(parse: Parser, message: Value)
    ensures BlocksSay(parse, message, BlocksFor(parse, message))
  {
    var content := Field(message, "content");
    var uses := ToolUsesFor(parse, ArrayIn(message, "tool_calls"));
    UsesInOrder(parse, ArrayIn(message, "tool_calls"));
    TextOfBlock("");
    assert [] + uses == uses && forall block :: ([block] + uses)[1..] == uses;
    if content.String? { TextOfBlock(content.s); }
    assert Items(message.Get("tool_calls")) == ArrayIn(message, "tool_calls");
    assert Else(GetStr(message, "content"), "") == if content.String? then content.s else "";
  }

  // ----- the turns of a conversation -----

  /** How many messages have a turn. */
  function Spoken(messages: seq<Value>): nat {
    if messages == [] then 0
    else Spoken(messages[..|messages| - 1]) + if HasTurn(messages[|messages| - 1]) then 1 else 0
  }

  lemma RoleIs(message: Value, role: string)
    requires role != ""
    ensures RoleOf(message) == role <==> Is(message, role)
  {
  }

  lemma OneTurn(c: Converters, message: Value)
    ensures |TurnFor(c, message)| == if HasTurn(message) then 1 else 0
    ensures HasTurn(message) ==> TurnSays(c, TurnFor(c, message)[0], message)
  {
    RolesDiffer();
    RoleIs(message, "user");
    RoleIs(message, "assistant");
    RoleIs(message, "tool");
    if Is(message, "user") {
      TurnObjectFields("user", c.user(At(message, "content")));
    } else if Is(message, "assistant") {
      AssistantSays(c.parse, message);
      TurnObjectFields("assistant", Array(BlocksFor(c.parse, message)));
    } else if Is(message, "tool") {
      ToolResultFields(message);
      TurnObjectFields("user", Array([ToolResult(message)]));
      assert ResultSays(ToolResult(message), message);
    }
  }

  lemma {:induction false} TurnsAreSpoken(c: Converters, messages: seq<Value>)
    ensures |Turns(c, messages)| == Spoken(messages)
  {
    if messages != [] {
      TurnsAreSpoken(c, messages[..|messages| - 1]);
      OneTurn(c, messages[|messages| - 1]);
    }
  }

  /** Each message of a user, an assistant or a tool has one turn, in order, that says the same; others have none. */
  lemma TurnsSayMessages(c: Converters, messages: seq<Value>, m: nat)
    requires m < |messages| && HasTurn(messages[m])
    ensures |Turns(c, messages)| == Spoken(messages) && Spoken(messages[..m]) < |Turns(c, messages)|
    ensures TurnSays(c, Turns(c, messages)[Spoken(messages[..m])], messages[m])
  {
    TurnsAreSpoken(c, messages);
    TurnsAreSpoken(c, messages[..m]);
    TurnsOfPrefix(c, messages, m);
    OneTurn(c, messages[m]);
    var before, turns := Turns(c, messages[..m]), Turns(c, messages);
    assert turns[|before|] == (before + TurnFor(c, messages[m]))[|before|];
  }

  // ----- the system field -----

  lemma {:induction false} SystemAppend(c: Converters, a: seq<Value>, b: seq<Value>)
    ensures SystemBlocks(c, a + b) == SystemBlocks(c, a) + SystemBlocks(c, b)
  {
    if b == [] {
      assert a + b == a;
    } else {
      var front, last := b[..|b| - 1], b[|b| - 1];
      SystemAppend(c, a, front);
      assert (a + b)[..|a + b| - 1] == a + front;
      Assoc(SystemBlocks(c, a), SystemBlocks(c, front), SystemFor(c, last));
    }
  }

  /** Wherever a message stands, it adds its blocks to the system field if it is a system message, and else nothing. */
  lemma SystemSaysMessages(c: Converters, before: seq<Value>, message: Value, after: seq<Value>)
    ensures SystemBlocks(c, []) == []
    ensures SystemBlocks(c, before + [message] + after) ==
            SystemBlocks(c, before) + (if Is(message, "system") then c.system(message) else []) + SystemBlocks(c, after)
  {
    RoleIs(message, "system");
    SystemAppend(c, before, [message]);
    SystemAppend(c, before + [message], after);
    assert [message][..0] == [];
    assert [] + SystemFor(c, message) == SystemFor(c, message);
  }

  /** A request for a JSON object adds one block that asks for it; any other request adds none. */
  lemma HintSays(body: Value)
    ensures var asked := Field(Field(body, "response_format"), "type") == Value.String("json_object");
            && |JsonHint(body)| == (if asked then 1 else 0)
            && (asked ==> TextSays(JsonHint(body)[0], "Respond only with valid JSON."))
  {
    TextOfBlock("Respond only with valid JSON.");
  }

  // ----- Claude answers as OpenAI messages -----

  function UsesIn(blocks: seq<Value>): seq<Value> {
    if blocks == [] then []
    else if Has(blocks[0], "type", Value.String("tool_use")) then [blocks[0]] + UsesIn(blocks[1..])
    else UsesIn(blocks[1..])
  }

  predicate FunctionSays(f: Value, block: Value) {
    var name, input := Field(block, "name"), block.Get("input");
    && Has(f, "name", if name.String? then name else Value.String(""))
    && Has(f, "arguments", Value.String(Text(if input.Some? then input.value else Object([]))))
  }

  /** The call of a tool use: its id, its name, and the text of its input. */
  ghost predicate CallSays(call: Value, block: Value) {
    && Has(call, "type", Value.String("function"))
    && Has(call, "id", if block.Get("id").Some? then block.Get("id").value else Value.String(""))
    && exists f :: Has(call, "function", f) && FunctionSays(f, block)
  }

  lemma CallOf(block: Value)
    ensures CallSays(CallFor(block), block)
  {
    var call := CallFor(block);
    CallForFields(block);
    assert call.entries[2].key[0] == 't' && call.entries[0].key[0] == 'f' && call.entries[1].key[0] == 'i';
    LookupAt(call.entries, "type", 2);
    var f := call.Get("function").value;
    assert FunctionSays(f, block);
  }

  ghost predicate AllCall(calls: seq<Value>, uses: seq<Value>) {
    |calls| == |uses| && forall k | 0 <= k < |uses| :: CallSays(calls[k], uses[k])
  }

  lemma CallMore(call: Value, use: Value, calls: seq<Value>, uses: seq<Value>)
    requires CallSays(call, use) && AllCall(calls, uses)
    ensures AllCall([call] + calls, [use] + uses)
  {
  }

  lemma {:induction false} CallsInOrder(blocks: seq<Value>)
    ensures AllCall(CallsFor(blocks), UsesIn(blocks))
  {
    if blocks != [] {
      CallsInOrder(blocks[1..]);
      if IsToolUse(blocks[0]) {
        CallOf(blocks[0]);
        CallMore(CallFor(blocks[0]), blocks[0], CallsFor(blocks[1..]), UsesIn(blocks[1..]));
      } else {
        assert [] + CallsFor(blocks[1..]) == CallsFor(blocks[1..]);
      }
    }
  }

  /** The text of one block of an answer. */
  function Said(block: Value): string {
    var text := Field(block, "text");
    if Has(block, "type", Value.String("text")) && text.String? then text.s else ""
  }

  function AllSaid(blocks: seq<Value>): string {
    if blocks == [] then "" else Said(blocks[0]) + AllSaid(blocks[1..])
  }

  lemma {:induction false} TextIsSaid(blocks: seq<Value>)
    ensures TextOf(blocks) == AllSaid(blocks)
  {
    if blocks != [] { TextIsSaid(blocks[1..]); }
  }

  /**
   The message of an answer: the texts of its text blocks as content, null if there are only calls; a
   call for each tool use, in order, and no list of calls if there is none.
   */
  lemma MessageSays(blocks: seq<Value>)
    ensures var m, text, uses := MessageFor(Some(Array(blocks))), AllSaid(blocks), UsesIn(blocks);
            && Is(m, "assistant")
            && Has(m, "content", if text == "" && uses != [] then Null else Value.String(text))
            && (uses == [] <==> m.Get("tool_calls").None?)
            && (uses != [] ==> exists calls :: Has(m, "tool_calls", Array(calls)) && AllCall(calls, uses))
  {
    CallsInOrder(blocks);
    TextIsSaid(blocks);
    MessageKeys(Some(Array(blocks)));
  }

  lemma MessageKeys(content: Option<Value>)
    ensures var m, text, calls := MessageFor(content), TextOf(Items(content)), CallsFor(Items(content));
            && Is(m, "assistant") && Has(m, "content", if text == "" && calls != [] then Null else Value.String(text))
            && (calls == [] ==> m.Get("tool_calls").None?) && (calls != [] ==> Has(m, "tool_calls", Array(calls)))
  {
    var e := MessageFor(content).entries;
    assert e[0].key == "content" && e[1].key == "role" && |"content"| == 7 && |"role"| == 4 && |"tool_calls"| == 10;
    LookupAt(e, "content", 0);
    LookupAt(e, "role", 1);
    if |e| == 3 {
      LookupAt(e, "tool_calls", 2);
    } else {
      assert e[1..] == [e[1]] && e[1..][1..] == [];
      assert Lookup(e[1..], "tool_calls") == None;
    }
  }
}
