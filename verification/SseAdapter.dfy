/**
 Conversion of an OpenAI Responses event stream into OpenAI chat or Anthropic Messages events:
 what one upstream event turns into, and the state threaded from one event to the next.
 */
module SseConvert {
  import opened Options
  import opened Strings
  import Json
  import CanonicalJson
  import opened SseText
  import opened SsePrint

  /** The two client formats a Responses stream is converted to; `route` asks for no other. */
  datatype Endpoint = ChatCompletions | Messages

  /** `ResponsesStreamState`. */
  datatype State = State(id: Option<string>, model: Option<string>, messagesStarted: bool, done: bool)

  const InitialState := State(None, None, false, false)

  /** A named upstream event with its parsed JSON payload. */
  datatype Payload = Payload(name: Option<string>, value: Json.Value)

  /** One event of the converted stream. */
  datatype Frame =
    | ChatDelta(id: string, model: string, text: string)
    | ChatFinish(id: string, model: string)
    | ChatDone
    | ChatError(error: Json.Value)
    | MessageStart(id: string, model: string)
    | BlockStart
    | BlockDelta(text: string)
    | BlockStop
    | MessageDelta
    | MessageStop
    | MessagesError(error: Json.Value)

  // ----- the text of a frame -----

  function Str(s: string): Json.Value {
    Json.String(s)
  }

  function Zero(): Json.Value {
    Json.Num(Json.PosInt(0))
  }

  function ChatChunk(id: string, model: string, delta: Json.Value, finish: Json.Value): Json.Value {
    Json.Object([
      Json.Entry("id", Str(id)),
      Json.Entry("object", Str("chat.completion.chunk")),
      Json.Entry("model", Str(model)),
      Json.Entry("choices", Json.Array([Json.Object([
        Json.Entry("index", Zero()), Json.Entry("delta", delta), Json.Entry("finish_reason", finish)])]))])
  }

  function MessageStartBody(id: string, model: string): Json.Value {
    Json.Object([
      Json.Entry("type", Str("message_start")),
      Json.Entry("message", Json.Object([
        Json.Entry("id", Str(id)), Json.Entry("type", Str("message")), Json.Entry("role", Str("assistant")),
        Json.Entry("model", Str(model)), Json.Entry("content", Json.Array([])),
        Json.Entry("stop_reason", Json.Null), Json.Entry("stop_sequence", Json.Null),
        Json.Entry("usage", Json.Object([
          Json.Entry("input_tokens", Zero()), Json.Entry("output_tokens", Zero())]))]))])
  }

  function BlockDeltaBody(text: string): Json.Value {
    Json.Object([
      Json.Entry("type", Str("content_block_delta")),
      Json.Entry("index", Zero()),
      Json.Entry("delta", Json.Object([Json.Entry("type", Str("text_delta")), Json.Entry("text", Str(text))]))])
  }

  // The source spells these four out; their keys are in the order given here.

  function BlockStartBody(): Json.Value {
    Json.Object([
      Json.Entry("type", Str("content_block_start")),
      Json.Entry("index", Zero()),
      Json.Entry("content_block", Json.Object([Json.Entry("type", Str("text")), Json.Entry("text", Str(""))]))])
  }

  function BlockStopBody(): Json.Value {
    Json.Object([Json.Entry("type", Str("content_block_stop")), Json.Entry("index", Zero())])
  }

  function MessageDeltaBody(): Json.Value {
    Json.Object([
      Json.Entry("type", Str("message_delta")),
      Json.Entry("delta", Json.Object([
        Json.Entry("stop_reason", Str("end_turn")), Json.Entry("stop_sequence", Json.Null)])),
      Json.Entry("usage", Json.Object([Json.Entry("output_tokens", Zero())]))])
  }

  function MessageStopBody(): Json.Value {
    Json.Object([Json.Entry("type", Str("message_stop"))])
  }

  function FrameName(f: Frame): Option<string> {
    match f
    case MessageStart(_, _) => Some("message_start")
    case BlockStart => Some("content_block_start")
    case BlockDelta(_) => Some("content_block_delta")
    case BlockStop => Some("content_block_stop")
    case MessageDelta => Some("message_delta")
    case MessageStop => Some("message_stop")
    case MessagesError(_) => Some("error")
    case _ => None
  }

  /** The data of a frame; serde_json prints the keys of the objects it builds in order. */
  function FrameData(f: Frame): string {
    match f
    case ChatDelta(id, model, text) =>
      CanonicalJson.Canonical(ChatChunk(id, model, Json.Object([Json.Entry("content", Str(text))]), Json.Null))
    case ChatFinish(id, model) => CanonicalJson.Canonical(ChatChunk(id, model, Json.Object([]), Str("stop")))
    case ChatDone => "[DONE]"
    case ChatError(error) => CanonicalJson.Canonical(Json.Object([Json.Entry("error", error)]))
    case MessageStart(id, model) => CanonicalJson.Canonical(MessageStartBody(id, model))
    case BlockStart => Json.Text(BlockStartBody())
    case BlockDelta(text) => CanonicalJson.Canonical(BlockDeltaBody(text))
    case BlockStop => Json.Text(BlockStopBody())
    case MessageDelta => Json.Text(MessageDeltaBody())
    case MessageStop => Json.Text(MessageStopBody())
    case MessagesError(error) => CanonicalJson.Canonical(Json.Object([Json.Entry("error", error)]))
  }

  function FrameEvent(f: Frame): Event {
    Event(FrameName(f), FrameData(f))
  }

  function FrameText(f: Frame): string {
    NameLine(FrameName(f)) + "data: " + FrameData(f) + "\n\n"
  }

  function FramesText(frames: seq<Frame>): string {
    if frames == [] then [] else FrameText(frames[0]) + FramesText(frames[1..])
  }

  // ----- reading a payload -----

  type Parser = string -> Option<Json.Value>

  /** The payload of an event, unless it is empty, the end marker or not JSON. */
  function EventPayload(parse: Parser, e: Event): Option<Payload> {
    if e.data == "" || e.data == "[DONE]" then None
    else
      match parse(e.data)
      case Some(v) => Some(Payload(e.name, v))
      case None => None
  }

  /** `response_sse_payload`, on the events of a block: the first that has a payload. */
  function FirstPayload(parse: Parser, events: seq<Event>): Option<Payload> {
    if events == [] then None
    else
      match EventPayload(parse, events[0])
      case Some(p) => Some(p)
      case None => FirstPayload(parse, events[1..])
  }

  /** `update_responses_stream_state`. */
  function UpdateState(v: Json.Value, st: State): State {
    var response := match v.Get("response") case Some(r) => r case None => v;
    var st := match Json.GetStr(response, "id") case Some(id) => st.(id := Some(id)) case None => st;
    match Json.GetStr(response, "model") case Some(m) => st.(model := Some(m)) case None => st
  }

  /** The upstream reported an error, or the response failed. */
  predicate Failed(v: Json.Value) {
    v.Get("error").Some?
    || match v.Get("response")
       case Some(r) => Json.GetStr(r, "status") == Some("failed")
       case None => false
  }

  /** `response_error_to_openai_error`: the payload of the error event. */
  function ErrorOf(v: Json.Value): Json.Value {
    match v.Get("error")
    case Some(e) => e
    case None =>
      match v.Get("response")
      case Some(r) => (
        match r.Get("error")
        case Some(e) => e
        case None => NoErrorGiven())
      case None => NoErrorGiven()
  }

  function NoErrorGiven(): Json.Value {
    Json.Object([Json.Entry("message", Str("responses stream failed"))])
  }

  predicate NameEndsWith(p: Payload, suffix: string) {
    match p.name
    case Some(n) => EndsWith(n, suffix)
    case None => false
  }

  /** The text delta an upstream event carries for the client. */
  function DeltaOf(p: Payload): Option<string> {
    if NameEndsWith(p, "output_text.delta") then Json.GetStr(p.value, "delta") else None
  }

  function OrElse(o: Option<string>, default: string): string {
    match o
    case Some(s) => s
    case None => default
  }

  // ----- one event -----

  function StartFrame(st: State): Frame {
    MessageStart(OrElse(st.id, "msg_kou_router"), OrElse(st.model, ""))
  }

  /** `responses_messages_stop_event`. */
  function StopFrames(st: State): seq<Frame> {
    (if st.messagesStarted then [] else [StartFrame(st)]) + [BlockStop, MessageDelta, MessageStop]
  }

  /** `responses_sse_event_to_chat_event` after the payload was read. */
  function ChatStep(p: Payload, before: State): (seq<Frame>, State) {
    var st := UpdateState(p.value, before);
    var id, model := OrElse(st.id, "chatcmpl_kou_router"), OrElse(st.model, "");
    if Failed(p.value) then
      ([ChatError(ErrorOf(p.value))], st.(done := true))
    else if DeltaOf(p).Some? then
      ([ChatDelta(id, model, DeltaOf(p).value)], st)
    else if NameEndsWith(p, "completed") then
      ([ChatFinish(id, model), ChatDone], st.(done := true))
    else
      ([], st)
  }

  /** `responses_sse_event_to_messages_event` after the payload was read. */
  function MessagesStep(p: Payload, before: State): (seq<Frame>, State) {
    var st := UpdateState(p.value, before);
    if Failed(p.value) then
      ([MessagesError(ErrorOf(p.value))], st.(done := true))
    else if DeltaOf(p).Some? then
      var opening := if st.messagesStarted then [] else [StartFrame(st), BlockStart];
      (opening + [BlockDelta(DeltaOf(p).value)], st.(messagesStarted := true))
    else if NameEndsWith(p, "completed") then
      (StopFrames(st), st.(messagesStarted := true, done := true))
    else
      ([], st)
  }

  function Step(endpoint: Endpoint, p: Payload, st: State): (seq<Frame>, State) {
    if endpoint.ChatCompletions? then ChatStep(p, st) else MessagesStep(p, st)
  }

  // ----- a whole stream -----

  datatype Converted = Converted(frames: seq<Frame>, state: State)

  /** All payloads in order, threading the state. */
  function Fold(endpoint: Endpoint, payloads: seq<Payload>, st: State): Converted {
    if payloads == [] then Converted([], st)
    else
      var (frames, st') := Step(endpoint, payloads[0], st);
      var rest := Fold(endpoint, payloads[1..], st');
      Converted(frames + rest.frames, rest.state)
  }

  /** What is sent when the upstream ended without a terminal event. */
  function Closing(endpoint: Endpoint, st: State): seq<Frame> {
    if st.done then []
    else if endpoint.Messages? then StopFrames(st)
    else [ChatDone]
  }

  function ConvertAll(endpoint: Endpoint, payloads: seq<Payload>): seq<Frame> {
    var c := Fold(endpoint, payloads, InitialState);
    c.frames + Closing(endpoint, c.state)
  }

  /** The payloads of parsed events. */
  function PayloadsOf(parse: Parser, events: seq<Event>): seq<Payload> {
    if events == [] then []
    else
      (match EventPayload(parse, events[0]) case Some(p) => [p] case None => [])
      + PayloadsOf(parse, events[1..])
  }

  lemma {:induction false} FoldAppend(endpoint: Endpoint, a: seq<Payload>, b: seq<Payload>, st: State)
    ensures var first := Fold(endpoint, a, st);
            var second := Fold(endpoint, b, first.state);
            Fold(endpoint, a + b, st) == Converted(first.frames + second.frames, second.state)
  {
    if a == [] {
      assert a + b == b;
    } else {
      var (frames, st') := Step(endpoint, a[0], st);
      FoldAppend(endpoint, a[1..], b, st');
      assert (a + b)[1..] == a[1..] + b;
      var mid := Fold(endpoint, a[1..], st');
      Assoc(frames, mid.frames, Fold(endpoint, b, mid.state).frames);
    }
  }

  lemma {:induction false} PayloadsAppend(parse: Parser, a: seq<Event>, b: seq<Event>)
    ensures PayloadsOf(parse, a + b) == PayloadsOf(parse, a) + PayloadsOf(parse, b)
  {
    if a == [] {
      assert a + b == b;
    } else {
      PayloadsAppend(parse, a[1..], b);
      assert (a + b)[1..] == a[1..] + b;
      var first := match EventPayload(parse, a[0]) case Some(p) => [p] case None => [];
      Assoc(first, PayloadsOf(parse, a[1..]), PayloadsOf(parse, b));
    }
  }
}
