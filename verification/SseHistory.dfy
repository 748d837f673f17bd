/**
 The converted stream as a function of the upstream events alone: what each event sends, given the
 events before it, without the state the converters thread through.
 */
module SseHistory {
  import opened Options
  import opened Strings
  import Json
  import CanonicalJson
  import SseText
  import opened SseConvert
  import opened SseStream

  // ----- what an upstream event says -----

  /** The object an event names its id and model in: its response, or the event itself. */
  function Subject(v: Json.Value): Json.Value {
    match v.Get("response")
    case Some(response) => response
    case None => v
  }

  predicate Names(p: Payload, key: string) {
    match Subject(p.value).Get(key)
    case Some(field) => field.String?
    case None => false
  }

  /** The string under a key in the last event that has one there. */
  function LastNamed(payloads: seq<Payload>, key: string): (name: Option<string>)
    ensures name.None? <==> forall j | 0 <= j < |payloads| :: !Names(payloads[j], key)
    ensures name.Some? ==>
              exists j | 0 <= j < |payloads| ::
                Names(payloads[j], key) && Subject(payloads[j].value).Get(key).value.s == name.value
                && forall i | j < i < |payloads| :: !Names(payloads[i], key)
  {
    if payloads == [] then None
    else
      var last := payloads[|payloads| - 1];
      if Names(last, key) then Some(Subject(last.value).Get(key).value.s)
      else LastNamed(payloads[..|payloads| - 1], key)
  }

  function Shown(payloads: seq<Payload>, key: string, default: string): string {
    match LastNamed(payloads, key)
    case Some(name) => name
    case None => default
  }

  /** What an event means to the client; an error counts before everything else. */
  datatype Meaning = Failure(error: Json.Value) | Delta(text: string) | Completion | Nothing

  function ReportedError(v: Json.Value): Option<Json.Value> {
    match (v.Get("error"), v.Get("response"))
    case (Some(error), _) => Some(error)
    case (None, Some(response)) =>
      if response.Get("status") != Some(Json.String("failed")) then None
      else (
        match response.Get("error")
        case Some(error) => Some(error)
        case None => Some(Json.Object([Json.Entry("message", Json.String("responses stream failed"))])))
    case _ => None
  }

  function MeaningOf(p: Payload): Meaning {
    var name := match p.name case Some(n) => n case None => "";
    match (ReportedError(p.value), p.value.Get("delta"))
    case (Some(error), _) => Failure(error)
    case (None, Some(String(text))) =>
      if EndsWith(name, "output_text.delta") then Delta(text)
      else if EndsWith(name, "completed") then Completion else Nothing
    case _ => if EndsWith(name, "completed") then Completion else Nothing
  }

  /** Some event had text or completed the answer. */
  predicate Opened(payloads: seq<Payload>) {
    exists j | 0 <= j < |payloads| :: MeaningOf(payloads[j]).Delta? || MeaningOf(payloads[j]).Completion?
  }

  /** Some event ended the answer. */
  predicate Ended(payloads: seq<Payload>) {
    exists j | 0 <= j < |payloads| :: MeaningOf(payloads[j]).Failure? || MeaningOf(payloads[j]).Completion?
  }

  // ----- what is sent -----

  function Start(payloads: seq<Payload>): Frame {
    MessageStart(Shown(payloads, "id", "msg_kou_router"), Shown(payloads, "model", ""))
  }

  function Stop(payloads: seq<Payload>, begun: bool): seq<Frame> {
    (if begun then [] else [Start(payloads)]) + [BlockStop, MessageDelta, MessageStop]
  }

  /** The frames the last of these events sends. */
  function SentByLast(endpoint: Endpoint, payloads: seq<Payload>): seq<Frame>
    requires payloads != []
  {
    var begun := Opened(payloads[..|payloads| - 1]);
    var id, model := Shown(payloads, "id", "chatcmpl_kou_router"), Shown(payloads, "model", "");
    match (endpoint, MeaningOf(payloads[|payloads| - 1]))
    case (_, Nothing) => []
    case (ChatCompletions, Failure(error)) => [ChatError(error)]
    case (ChatCompletions, Delta(text)) => [ChatDelta(id, model, text)]
    case (ChatCompletions, Completion) => [ChatFinish(id, model), ChatDone]
    case (Messages, Failure(error)) => [MessagesError(error)]
    case (Messages, Delta(text)) =>
      (if begun then [] else [Start(payloads), BlockStart]) + [BlockDelta(text)]
    case (Messages, Completion) => Stop(payloads, begun)
  }

  function SentAlong(endpoint: Endpoint, payloads: seq<Payload>): seq<Frame> {
    if payloads == [] then []
    else SentAlong(endpoint, payloads[..|payloads| - 1]) + SentByLast(endpoint, payloads)
  }

  /** The frames sent when the upstream stops without having ended the answer. */
  function SentAtEnd(endpoint: Endpoint, payloads: seq<Payload>): seq<Frame> {
    if Ended(payloads) then []
    else if endpoint.ChatCompletions? then [ChatDone]
    else Stop(payloads, Opened(payloads))
  }

  // ----- the state is the history -----

  predicate Recalls(endpoint: Endpoint, st: State, payloads: seq<Payload>) {
    && st.id == LastNamed(payloads, "id") && st.model == LastNamed(payloads, "model")
    && (st.done <==> Ended(payloads))
    && (endpoint.Messages? ==> (st.messagesStarted <==> Opened(payloads)))
  }

  lemma NamesSnoc(front: seq<Payload>, p: Payload, key: string)
    ensures LastNamed(front + [p], key)
         == if Names(p, key) then Some(Subject(p.value).Get(key).value.s) else LastNamed(front, key)
  {
    assert (front + [p])[..|front|] == front;
  }

  lemma OpenedSnoc(front: seq<Payload>, p: Payload)
    ensures Opened(front + [p]) <==> Opened(front) || MeaningOf(p).Delta? || MeaningOf(p).Completion?
    ensures Ended(front + [p]) <==> Ended(front) || MeaningOf(p).Failure? || MeaningOf(p).Completion?
  {
    var all := front + [p];
    assert all[|front|] == p;
    assert forall j | 0 <= j < |front| :: all[j] == front[j];
  }

  lemma UpdateRecalls(p: Payload, before: State, front: seq<Payload>)
    requires before.id == LastNamed(front, "id") && before.model == LastNamed(front, "model")
    ensures var st := UpdateState(p.value, before);
            && st.id == LastNamed(front + [p], "id") && st.model == LastNamed(front + [p], "model")
            && st.done == before.done && st.messagesStarted == before.messagesStarted
  {
    NamesSnoc(front, p, "id");
    NamesSnoc(front, p, "model");
  }

  /** The branches of the converters are the meanings. */
  lemma BranchesAreMeanings(p: Payload)
    ensures Failed(p.value) <==> MeaningOf(p).Failure?
    ensures Failed(p.value) ==> MeaningOf(p) == Failure(ErrorOf(p.value))
    ensures !Failed(p.value) ==>
              MeaningOf(p) == if DeltaOf(p).Some? then Delta(DeltaOf(p).value)
                              else if NameEndsWith(p, "completed") then Completion else Nothing
  {
    var nameless := "";
    assert |nameless| < |"completed"| && |nameless| < |"output_text.delta"|;
    ErrorsAreReported(p.value);
  }

  lemma ErrorsAreReported(v: Json.Value)
    ensures ReportedError(v) == if Failed(v) then Some(ErrorOf(v)) else None
  {
  }

  lemma StepSends(endpoint: Endpoint, front: seq<Payload>, p: Payload, before: State)
    requires Recalls(endpoint, before, front)
    ensures var (frames, after) := Step(endpoint, p, before);
            frames == SentByLast(endpoint, front + [p]) && Recalls(endpoint, after, front + [p])
  {
    var payloads := front + [p];
    assert payloads[..|payloads| - 1] == front && payloads[|payloads| - 1] == p;
    UpdateRecalls(p, before, front);
    BranchesAreMeanings(p);
    OpenedSnoc(front, p);
  }

  lemma {:induction false} FoldSends(endpoint: Endpoint, payloads: seq<Payload>)
    ensures var c := Fold(endpoint, payloads, InitialState);
            c.frames == SentAlong(endpoint, payloads) && Recalls(endpoint, c.state, payloads)
  {
    if payloads != [] {
      var front, last := payloads[..|payloads| - 1], payloads[|payloads| - 1];
      assert payloads == front + [last];
      FoldSends(endpoint, front);
      FoldOne(endpoint, front, Some(last), InitialState);
      StepSends(endpoint, front, last, Fold(endpoint, front, InitialState).state);
    }
  }

  /**
   The conversion is its history: each event sends what it means, under the id and model named last
   so far, with an opening before the first text, and nothing depends on anything else.
   */
  lemma ConversionIsHistory(endpoint: Endpoint, payloads: seq<Payload>)
    ensures ConvertAll(endpoint, payloads) == SentAlong(endpoint, payloads) + SentAtEnd(endpoint, payloads)
  {
    FoldSends(endpoint, payloads);
  }

  // ----- the names a client sees -----

  /** A frame that shows an id and a model, and the fallback for the id. */
  predicate ShowsNames(f: Frame, payloads: seq<Payload>) {
    match f
    case ChatDelta(id, model, _) =>
      id == Shown(payloads, "id", "chatcmpl_kou_router") && model == Shown(payloads, "model", "")
    case ChatFinish(id, model) =>
      id == Shown(payloads, "id", "chatcmpl_kou_router") && model == Shown(payloads, "model", "")
    case MessageStart(id, model) =>
      id == Shown(payloads, "id", "msg_kou_router") && model == Shown(payloads, "model", "")
    case _ => true
  }

  predicate AllShow(frames: seq<Frame>, payloads: seq<Payload>) {
    forall i | 0 <= i < |frames| :: ShowsNames(frames[i], payloads)
  }

  lemma StopShows(payloads: seq<Payload>, begun: bool)
    ensures AllShow(Stop(payloads, begun), payloads)
  {
  }

  lemma LastShows(endpoint: Endpoint, payloads: seq<Payload>)
    requires payloads != []
    ensures AllShow(SentByLast(endpoint, payloads), payloads)
  {
    StopShows(payloads, true);
    StopShows(payloads, false);
  }

  lemma EndShows(endpoint: Endpoint, payloads: seq<Payload>)
    ensures AllShow(SentAtEnd(endpoint, payloads), payloads)
  {
  }

  /** The frames of the k-th event stand between those of the events before it and those after it. */
  lemma {:induction false} FramesOfEvent(endpoint: Endpoint, payloads: seq<Payload>, k: nat) returns (after: seq<Frame>)
    requires k < |payloads|
    ensures SentAlong(endpoint, payloads)
         == SentAlong(endpoint, payloads[..k]) + SentByLast(endpoint, payloads[..k + 1]) + after
  {
    var front, here := payloads[..|payloads| - 1], SentByLast(endpoint, payloads[..k + 1]);
    if k == |payloads| - 1 {
      assert payloads[..k + 1] == payloads;
      after := [];
      assert SentAlong(endpoint, front) + here + [] == SentAlong(endpoint, front) + here;
    } else {
      assert front[..k] == payloads[..k] && front[..k + 1] == payloads[..k + 1];
      var rest := FramesOfEvent(endpoint, front, k);
      after := rest + SentByLast(endpoint, payloads);
      Assoc(SentAlong(endpoint, payloads[..k]) + here, rest, SentByLast(endpoint, payloads));
    }
  }

  /**
   Every id and model a client is shown comes from upstream: the frames of the k-th event, which follow
   those of the k events before it, show the id and the model named last by the events up to it, and
   the closing frames those named last of all; where none was named, the fallback.
   */
  lemma NamesAreUpstreams(endpoint: Endpoint, payloads: seq<Payload>, k: nat) returns (after: seq<Frame>)
    requires k < |payloads|
    ensures var upTo := payloads[..k + 1];
            && ConvertAll(endpoint, payloads)
               == SentAlong(endpoint, payloads[..k]) + SentByLast(endpoint, upTo) + after
                  + SentAtEnd(endpoint, payloads)
            && AllShow(SentByLast(endpoint, upTo), upTo)
    ensures AllShow(SentAtEnd(endpoint, payloads), payloads)
  {
    ConversionIsHistory(endpoint, payloads);
    after := FramesOfEvent(endpoint, payloads, k);
    var upTo := payloads[..k + 1];
    LastShows(endpoint, upTo);
    EndShows(endpoint, payloads);
  }

  // ----- which events are payloads -----

  lemma OneEvent(parse: Parser, e: SseText.Event)
    ensures PayloadsOf(parse, [e]) ==
            if e.data == "" || e.data == "[DONE]" || parse(e.data) == None then []
            else [Payload(e.name, parse(e.data).value)]
  {
    assert [e][1..] == [];
  }

  lemma Between(parse: Parser, before: seq<SseText.Event>, e: SseText.Event, after: seq<SseText.Event>)
    ensures PayloadsOf(parse, before + [e] + after)
         == PayloadsOf(parse, before) + PayloadsOf(parse, [e]) + PayloadsOf(parse, after)
  {
    PayloadsAppend(parse, before, [e]);
    PayloadsAppend(parse, before + [e], after);
  }

  /**
   Wherever an event stands, it gives a payload exactly when its data is JSON: not empty, not the end
   marker, and read by the parser. The payload is its name and that JSON.
   */
  lemma EventsAreRead(parse: Parser, before: seq<SseText.Event>, e: SseText.Event, after: seq<SseText.Event>)
    ensures PayloadsOf(parse, []) == []
    ensures PayloadsOf(parse, before + [e] + after) == PayloadsOf(parse, before)
            + (if e.data == "" || e.data == "[DONE]" || parse(e.data) == None then []
               else [Payload(e.name, parse(e.data).value)])
            + PayloadsOf(parse, after)
  {
    Between(parse, before, e, after);
    OneEvent(parse, e);
  }
}
