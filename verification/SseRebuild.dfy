/** Rebuilding one JSON response from a transcript, and how its text compares to the streamed text. */
module SseRebuild {
  import opened Options
  import opened Strings
  import opened Json
  import opened SseText
  import opened SseConvert

  /** `serde_json::Map`. */
  type Fields = map<string, Value>

  datatype Rebuild = Rebuild(response: Fields, items: seq<Value>, text: string)

  predicate Merged(key: string) {
    key in {"id", "object", "model", "status", "usage", "error", "output", "created_at"}
  }

  /** `merge_response_fields`, on the entries of an object. */
  function MergeEntries(target: Fields, entries: seq<Entry>): Fields {
    if entries == [] then target
    else
      var last := entries[|entries| - 1];
      var before := MergeEntries(target, entries[..|entries| - 1]);
      if Merged(last.key) then before[last.key := last.value] else before
  }

  function MergeFields(target: Fields, value: Value): Fields {
    if value.Object? then MergeEntries(target, value.entries) else target
  }

  /** The object a payload's fields are merged from, if any. */
  function MergeSource(p: Payload): Option<Value> {
    match p.value.Get("response")
    case Some(r) => Some(r)
    case None =>
      if p.value.Get("id").Some? || p.value.Get("status").Some? || p.value.Get("output").Some?
      then Some(p.value) else None
  }

  /** A finished output item. */
  function ItemOf(p: Payload): Option<Value> {
    if NameEndsWith(p, "output_item.done") then p.value.Get("item") else None
  }

  /** The text synthesized so far, with one more payload. */
  function AddText(text: string, p: Payload): string {
    match Json.GetStr(p.value, "delta")
    case Some(delta) => text + delta
    case None =>
      if text == "" then OrElse(Json.GetStr(p.value, "text"), "") else text
  }

  function RebuildStep(st: Rebuild, p: Payload): Rebuild {
    Rebuild(
      match MergeSource(p) case Some(v) => MergeFields(st.response, v) case None => st.response,
      match ItemOf(p) case Some(item) => st.items + [item] case None => st.items,
      AddText(st.text, p))
  }

  const Fresh := Rebuild(map["object" := Value.String("response")], [], "")

  function RebuildAll(payloads: seq<Payload>): Rebuild {
    if payloads == [] then Fresh
    else RebuildStep(RebuildAll(payloads[..|payloads| - 1]), payloads[|payloads| - 1])
  }

  /** No output, or one that is not an array with items. */
  predicate OutputIsEmpty(response: Fields) {
    "output" !in response || !response["output"].Array? || response["output"].items == []
  }

  function TextOutput(text: string): Value {
    Value.Array([Value.Object([
      Entry("type", Value.String("message")),
      Entry("role", Value.String("assistant")),
      Entry("content", Value.Array([Value.Object([
        Entry("type", Value.String("output_text")), Entry("text", Value.String(text))])]))])])
  }

  /** An empty output is replaced by the items, or by the synthesized text. */
  function WithOutput(st: Rebuild): Fields {
    if !OutputIsEmpty(st.response) then st.response
    else if st.items != [] then st.response["output" := Value.Array(st.items)]
    else if "output" !in st.response || st.text != "" then st.response["output" := TextOutput(st.text)]
    else st.response
  }

  /** `entry(key).or_insert(value)`. */
  function OrInsert(response: Fields, key: string, value: Value): Fields {
    if key in response then response else response[key := value]
  }

  function Finish(st: Rebuild): Fields {
    var r := WithOutput(st);
    var r := OrInsert(r, "id", Value.String("resp_kou_router"));
    var r := OrInsert(r, "model", Value.Null);
    var r := OrInsert(r, "status", Value.String("completed"));
    var r := OrInsert(r, "usage", Value.Null);
    OrInsert(r, "error", Value.Null)
  }

  method MergeResponseFields(target: Fields, value: Value) returns (merged: Fields)
    ensures merged == MergeFields(target, value)
  {
    merged := target;
    if !value.Object? { return; }
    for i := 0 to |value.entries|
      invariant merged == MergeEntries(target, value.entries[..i])
    {
      assert value.entries[..i + 1][..i] == value.entries[..i];
      var entry := value.entries[i];
      if Merged(entry.key) {
        merged := merged[entry.key := entry.value];
      }
    }
    assert value.entries[..|value.entries|] == value.entries;
  }

  /** `reconstruct_responses_from_sse`. */
  method ReconstructResponsesFromSse(parse: Parser, body: string) returns (response: Fields)
    ensures response == Finish(RebuildAll(PayloadsOf(parse, ParseEvents(body))))
  {
    response := map["object" := Value.String("response")];
    var outputItems: seq<Value> := [];
    var text := "";
    var events := ParseSseEvents(body);
    for i := 0 to |events|
      invariant Rebuild(response, outputItems, text) == RebuildAll(PayloadsOf(parse, events[..i]))
    {
      PayloadsNext(parse, events, i);
      var payload := EventPayload(parse, events[i]);
      if payload.None? { continue; }
      var value := payload.value.value;
      var responseValue := value.Get("response");
      if responseValue.Some? {
        response := MergeResponseFields(response, responseValue.value);
      } else if value.Get("id").Some? || value.Get("status").Some? || value.Get("output").Some? {
        response := MergeResponseFields(response, value);
      }
      var item := ItemOf(payload.value);
      if item.Some? {
        outputItems := outputItems + [item.value];
      }
      var delta := Json.GetStr(value, "delta");
      if delta.Some? {
        text := text + delta.value;
      } else if text == "" {
        var bare := Json.GetStr(value, "text");
        if bare.Some? { text := text + bare.value; }
      }
    }
    assert events[..|events|] == events;
    response := FinishResponse(response, outputItems, text);
  }

  /** The fields filled in after the last event. */
  method FinishResponse(merged: Fields, outputItems: seq<Value>, text: string) returns (response: Fields)
    ensures response == Finish(Rebuild(merged, outputItems, text))
  {
    response := merged;
    if OutputIsEmpty(response) {
      if outputItems != [] {
        response := response["output" := Value.Array(outputItems)];
      } else if "output" !in response || text != "" {
        response := response["output" := TextOutput(text)];
      }
    }
    assert response == WithOutput(Rebuild(merged, outputItems, text));
    response := OrInsert(response, "id", Value.String("resp_kou_router"));
    response := OrInsert(response, "model", Value.Null);
    response := OrInsert(response, "status", Value.String("completed"));
    response := OrInsert(response, "usage", Value.Null);
    response := OrInsert(response, "error", Value.Null);
  }

  lemma PayloadsNext(parse: Parser, events: seq<Event>, i: nat)
    requires i < |events|
    ensures RebuildAll(PayloadsOf(parse, events[..i + 1]))
         == match EventPayload(parse, events[i])
            case Some(p) => RebuildStep(RebuildAll(PayloadsOf(parse, events[..i])), p)
            case None => RebuildAll(PayloadsOf(parse, events[..i]))
  {
    assert events[..i + 1] == events[..i] + [events[i]];
    PayloadsAppend(parse, events[..i], [events[i]]);
    var before := PayloadsOf(parse, events[..i]);
    assert [events[i]][1..] == [];
    match EventPayload(parse, events[i])
    case Some(p) =>
      assert PayloadsOf(parse, [events[i]]) == [p] + [];
      assert (before + [p])[..|before|] == before;
    case None =>
      assert PayloadsOf(parse, [events[i]]) == [] + [];
      assert before + [] == before;
  }

  // ----- the text a client sees -----

  function FrameDelta(f: Frame): string {
    match f
    case ChatDelta(_, _, text) => text
    case BlockDelta(text) => text
    case _ => ""
  }

  /** The concatenated text deltas of a converted stream. */
  function StreamedText(fs: seq<Frame>): string {
    if fs == [] then "" else StreamedText(fs[..|fs| - 1]) + FrameDelta(fs[|fs| - 1])
  }

  function PartsText(parts: seq<Value>): string {
    if parts == [] then "" else OrElse(Json.GetStr(parts[0], "text"), "") + PartsText(parts[1..])
  }

  function ItemText(item: Value): string {
    match item.Get("content")
    case Some(Array(parts)) => PartsText(parts)
    case _ => ""
  }

  function ItemsText(items: seq<Value>): string {
    if items == [] then "" else ItemText(items[0]) + ItemsText(items[1..])
  }

  /** The text of a rebuilt response: all text parts of all output items. */
  function ResponseText(response: Fields): string {
    if "output" in response && response["output"].Array? then ItemsText(response["output"].items) else ""
  }

  // ----- deltas of the payloads -----

  /** What one payload contributes to the streamed text. */
  function Contribution(p: Payload): string {
    if Failed(p.value) then "" else OrElse(DeltaOf(p), "")
  }

  function PayloadText(payloads: seq<Payload>): string {
    if payloads == [] then ""
    else PayloadText(payloads[..|payloads| - 1]) + Contribution(payloads[|payloads| - 1])
  }

  lemma {:induction false} StreamedAppend(a: seq<Frame>, b: seq<Frame>)
    ensures StreamedText(a + b) == StreamedText(a) + StreamedText(b)
  {
    if b == [] {
      assert a + b == a;
    } else {
      var front := b[..|b| - 1];
      assert (a + b)[..|a + b| - 1] == a + front;
      StreamedAppend(a, front);
      Assoc(StreamedText(a), StreamedText(front), FrameDelta(b[|b| - 1]));
    }
  }

  predicate AllSilent(fs: seq<Frame>) {
    forall i | 0 <= i < |fs| :: FrameDelta(fs[i]) == ""
  }

  lemma {:induction false} Silent(fs: seq<Frame>)
    requires AllSilent(fs)
    ensures StreamedText(fs) == ""
  {
    if fs != [] { Silent(fs[..|fs| - 1]); }
  }

  lemma SilentThen(fs: seq<Frame>)
    requires fs != [] && AllSilent(fs[..|fs| - 1])
    ensures StreamedText(fs) == FrameDelta(fs[|fs| - 1])
  {
    Silent(fs[..|fs| - 1]);
    assert "" + FrameDelta(fs[|fs| - 1]) == FrameDelta(fs[|fs| - 1]);
  }

  lemma ChatStepText(p: Payload, st: State)
    ensures StreamedText(ChatStep(p, st).0) == Contribution(p)
  {
    var frames := ChatStep(p, st).0;
    if !Failed(p.value) && DeltaOf(p).Some? { SilentThen(frames); } else { Silent(frames); }
  }

  lemma MessagesStepText(p: Payload, st: State)
    ensures StreamedText(MessagesStep(p, st).0) == Contribution(p)
  {
    var frames := MessagesStep(p, st).0;
    if !Failed(p.value) && DeltaOf(p).Some? { SilentThen(frames); } else { Silent(frames); }
  }

  lemma StepText(endpoint: Endpoint, p: Payload, st: State)
    ensures StreamedText(Step(endpoint, p, st).0) == Contribution(p)
  {
    if endpoint.ChatCompletions? { ChatStepText(p, st); } else { MessagesStepText(p, st); }
  }

  lemma {:induction false} FoldText(endpoint: Endpoint, payloads: seq<Payload>)
    ensures StreamedText(Fold(endpoint, payloads, InitialState).frames) == PayloadText(payloads)
  {
    if payloads != [] {
      var front, last := payloads[..|payloads| - 1], payloads[|payloads| - 1];
      assert payloads == front + [last];
      FoldText(endpoint, front);
      var before := Fold(endpoint, front, InitialState);
      FoldAppend(endpoint, front, [last], InitialState);
      assert [last][1..] == [];
      var frames := Step(endpoint, last, before.state).0;
      assert frames + [] == frames;
      StepText(endpoint, last, before.state);
      StreamedAppend(before.frames, frames);
    }
  }

  /** Both converted streams carry the payloads' deltas, in order. */
  lemma ConvertedText(endpoint: Endpoint, payloads: seq<Payload>)
    ensures StreamedText(ConvertAll(endpoint, payloads)) == PayloadText(payloads)
  {
    var c := Fold(endpoint, payloads, InitialState);
    FoldText(endpoint, payloads);
    Silent(Closing(endpoint, c.state));
    StreamedAppend(c.frames, Closing(endpoint, c.state));
    assert PayloadText(payloads) + "" == PayloadText(payloads);
  }

  // ----- when the two texts agree -----

  predicate HasDelta(p: Payload) {
    Json.GetStr(p.value, "delta").Some? && Json.GetStr(p.value, "delta").value != ""
  }

  /** A non-empty `text` next to no delta. */
  predicate HasBareText(p: Payload) {
    Json.GetStr(p.value, "delta").None?
    && Json.GetStr(p.value, "text").Some? && Json.GetStr(p.value, "text").value != ""
  }

  /** Every non-empty delta is one the converters send on. */
  predicate DeltasAreStreamed(payloads: seq<Payload>) {
    forall i | 0 <= i < |payloads| && HasDelta(payloads[i]) ::
      !Failed(payloads[i].value) && NameEndsWith(payloads[i], "output_text.delta")
  }

  predicate DeltaBefore(payloads: seq<Payload>, i: nat) {
    exists j | 0 <= j < i && j < |payloads| :: HasDelta(payloads[j])
  }

  /** No bare text comes before the first non-empty delta. */
  predicate NoEarlyText(payloads: seq<Payload>) {
    forall i | 0 <= i < |payloads| && HasBareText(payloads[i]) :: DeltaBefore(payloads, i)
  }

  lemma {:induction false} TextStarts(payloads: seq<Payload>)
    requires DeltaBefore(payloads, |payloads|)
    ensures RebuildAll(payloads).text != ""
  {
    if payloads != [] {
      var front := payloads[..|payloads| - 1];
      if !HasDelta(payloads[|payloads| - 1]) {
        var j :| 0 <= j < |payloads| && HasDelta(payloads[j]);
        assert front[j] == payloads[j];
        assert DeltaBefore(front, |front|);
        TextStarts(front);
      }
    }
  }

  lemma {:induction false} NothingYet(payloads: seq<Payload>)
    requires !DeltaBefore(payloads, |payloads|)
    ensures PayloadText(payloads) == ""
  {
    if payloads != [] {
      var front, last := payloads[..|payloads| - 1], payloads[|payloads| - 1];
      assert forall j | 0 <= j < |front| :: front[j] == payloads[j];
      assert !HasDelta(last);
      NothingYet(front);
    }
  }

  lemma PrefixConditions(payloads: seq<Payload>)
    requires payloads != []
    ensures var front, last := payloads[..|payloads| - 1], payloads[|payloads| - 1];
            && (DeltasAreStreamed(payloads) <==>
                DeltasAreStreamed(front)
                && (HasDelta(last) ==> !Failed(last.value) && NameEndsWith(last, "output_text.delta")))
            && (NoEarlyText(payloads) <==>
                NoEarlyText(front) && (HasBareText(last) ==> DeltaBefore(front, |front|)))
  {
    var front, last := payloads[..|payloads| - 1], payloads[|payloads| - 1];
    assert forall i | 0 <= i < |front| :: payloads[i] == front[i];
    forall i: nat | i <= |front| ensures DeltaBefore(payloads, i) <==> DeltaBefore(front, i) {
      if DeltaBefore(payloads, i) {
        var j :| 0 <= j < i && j < |payloads| && HasDelta(payloads[j]);
        assert HasDelta(front[j]);
      }
      if DeltaBefore(front, i) {
        var j :| 0 <= j < i && j < |front| && HasDelta(front[j]);
        assert HasDelta(payloads[j]);
      }
    }
  }

  /** The synthesized text is the streamed text, or strictly longer. */
  lemma {:induction false} TextsCompared(payloads: seq<Payload>)
    ensures var ok := DeltasAreStreamed(payloads) && NoEarlyText(payloads);
            && (ok ==> RebuildAll(payloads).text == PayloadText(payloads))
            && (!ok ==> |RebuildAll(payloads).text| > |PayloadText(payloads)|)
  {
    if payloads != [] {
      var front, last := payloads[..|payloads| - 1], payloads[|payloads| - 1];
      TextsCompared(front);
      PrefixConditions(payloads);
      if DeltaBefore(front, |front|) {
        TextStarts(front);
      } else {
        NothingYet(front);
      }
      assert RebuildAll(payloads).text == AddText(RebuildAll(front).text, last);
    }
  }

  /**
   The synthesized text equals the streamed text exactly when every non-empty delta came on an
   event the converters send on and no bare text came before the first such delta.
   */
  lemma SynthesizedIsStreamed(endpoint: Endpoint, payloads: seq<Payload>)
    ensures RebuildAll(payloads).text == StreamedText(ConvertAll(endpoint, payloads))
       <==> DeltasAreStreamed(payloads) && NoEarlyText(payloads)
  {
    TextsCompared(payloads);
    ConvertedText(endpoint, payloads);
  }

  // ----- the rebuilt response -----

  predicate NoItems(payloads: seq<Payload>) {
    forall i | 0 <= i < |payloads| :: ItemOf(payloads[i]).None?
  }

  /** The upstream sends no output, or only empty ones, as the Codex backend does. */
  predicate NoOutput(payloads: seq<Payload>) {
    forall i | 0 <= i < |payloads| && MergeSource(payloads[i]).Some? ::
      EmptyOutputs(MergeSource(payloads[i]).value)
  }

  predicate EmptyOutputs(v: Value) {
    v.Object? ==> forall i | 0 <= i < |v.entries| && v.entries[i].key == "output" ::
      !(v.entries[i].value.Array? && v.entries[i].value.items != [])
  }

  lemma {:induction false} MergeKeepsEmpty(target: Fields, entries: seq<Entry>)
    requires OutputIsEmpty(target) && EmptyOutputs(Value.Object(entries))
    ensures OutputIsEmpty(MergeEntries(target, entries))
  {
    if entries != [] {
      var front := entries[..|entries| - 1];
      assert forall i | 0 <= i < |front| :: front[i] == entries[i];
      MergeKeepsEmpty(target, front);
    }
  }

  lemma {:induction false} RebuildStaysEmpty(payloads: seq<Payload>)
    requires NoItems(payloads) && NoOutput(payloads)
    ensures OutputIsEmpty(RebuildAll(payloads).response) && RebuildAll(payloads).items == []
  {
    if payloads != [] {
      var front, last := payloads[..|payloads| - 1], payloads[|payloads| - 1];
      assert forall i | 0 <= i < |front| :: front[i] == payloads[i];
      RebuildStaysEmpty(front);
      var source := MergeSource(last);
      if source.Some? && source.value.Object? {
        MergeKeepsEmpty(RebuildAll(front).response, source.value.entries);
      }
    }
  }

  lemma TextOutputText(text: string)
    ensures TextOutput(text).Array? && ItemsText(TextOutput(text).items) == text
  {
    var part := Value.Object([Entry("type", Value.String("output_text")), Entry("text", Value.String(text))]);
    PartText(part, text);
    var item := TextOutput(text).items[0];
    ItemContent(item.entries);
    assert PartsText([part]) == text + PartsText([part][1..]);
    assert text + "" == text;
    assert ItemText(item) == text;
    assert ItemsText([item][1..]) == "";
  }

  lemma PartText(part: Value, text: string)
    requires part == Value.Object([Entry("type", Value.String("output_text")), Entry("text", Value.String(text))])
    ensures Json.GetStr(part, "text") == Some(text)
  {
    assert part.entries[1..] == [Entry("text", Value.String(text))];
    assert "type"[1] == 'y' && "text"[1] == 'e';
    assert part.entries[0].key != "text";
    assert Lookup(part.entries[1..], "text") == Some(Value.String(text));
  }

  lemma ItemContent(entries: seq<Entry>)
    requires |entries| == 3 && entries[0].key == "type" && entries[1].key == "role" && entries[2].key == "content"
    ensures Lookup(entries, "content") == Some(entries[2].value)
  {
    assert |"type"| == 4 && |"role"| == 4 && |"content"| == 7;
    assert entries[1..][0] == entries[1] && entries[2..][0] == entries[2];
    assert entries[1..][1..] == entries[2..];
    assert Lookup(entries[2..], "content") == Some(entries[2].value);
    assert Lookup(entries[1..], "content") == Lookup(entries[2..], "content");
  }

  lemma FinishKeepsOutput(st: Rebuild)
    ensures ResponseText(Finish(st)) == ResponseText(WithOutput(st))
  {
  }

  /**
   Streamed and buffered answers carry the same text: when the upstream sends no items and no
   output, the text of the rebuilt response equals the text the converters stream exactly when
   every non-empty delta is streamed and no bare text precedes the first one.
   */
  lemma RebuiltTextIsStreamed(endpoint: Endpoint, payloads: seq<Payload>)
    requires NoItems(payloads) && NoOutput(payloads)
    ensures ResponseText(Finish(RebuildAll(payloads))) == StreamedText(ConvertAll(endpoint, payloads))
       <==> DeltasAreStreamed(payloads) && NoEarlyText(payloads)
  {
    var st := RebuildAll(payloads);
    RebuildStaysEmpty(payloads);
    FinishKeepsOutput(st);
    TextOutputText(st.text);
    assert ResponseText(WithOutput(st)) == st.text;
    SynthesizedIsStreamed(endpoint, payloads);
  }
}
