/** What the data of each frame says: the JSON values a client finds under the keys of its format. */
module SseFrames {
  import opened Options
  import opened Json
  import CanonicalJson
  import JsonReader
  import opened SseConvert

  /** The frame's data is the compact text of this JSON value. */
  predicate Carries(f: Frame, v: Value) {
    Valid(v) && (FrameData(f) == CanonicalJson.Canonical(v) || FrameData(f) == Text(v))
  }

  /** A client that reads the data as JSON gets a value that means the same. */
  lemma ClientDecodes(f: Frame, v: Value)
    requires Carries(f, v)
    ensures var read := JsonReader.ReadAll(FrameData(f));
            read.Some? && CanonicalJson.MeaningOf(read.value) == CanonicalJson.MeaningOf(v)
  {
    CanonicalJson.CanonicalReadsBack(v);
    JsonReader.TextReadsBack(v);
  }

  lemma OneField(key: string, field: Value)
    requires Valid(field)
    ensures var v := Value.Object([Entry(key, field)]); Valid(v) && Has(v, key, field)
  {
    var v := Value.Object([Entry(key, field)]);
    assert DistinctKeys(v.entries);
    LookupAt(v.entries, key, 0);
  }

  predicate Has(v: Value, key: string, field: Value) {
    v.Get(key) == Some(field)
  }

  // ----- chat -----

  /** A chunk of a chat completion with one choice. */
  predicate IsChunk(v: Value, id: string, model: string, choice: Value) {
    && Has(v, "id", Value.String(id)) && Has(v, "model", Value.String(model))
    && Has(v, "object", Value.String("chat.completion.chunk")) && Has(v, "choices", Value.Array([choice]))
  }

  lemma ChunkKeys(v: Value, id: string, model: string, choice: Value)
    requires v.Object? && |v.entries| == 4
    requires v.entries[0] == Entry("id", Value.String(id))
    requires v.entries[1] == Entry("object", Value.String("chat.completion.chunk"))
    requires v.entries[2] == Entry("model", Value.String(model))
    requires v.entries[3] == Entry("choices", Value.Array([choice]))
    ensures IsChunk(v, id, model, choice) && (Valid(choice) ==> Valid(v))
  {
    assert |"id"| == 2 && |"object"| == 6 && |"model"| == 5 && |"choices"| == 7;
    LookupAt(v.entries, "id", 0);
    LookupAt(v.entries, "object", 1);
    LookupAt(v.entries, "model", 2);
    LookupAt(v.entries, "choices", 3);
  }

  lemma ChoiceKeys(delta: Value, finish: Value) returns (choice: Value)
    ensures choice == Value.Object([Entry("index", Zero()), Entry("delta", delta), Entry("finish_reason", finish)])
    ensures Has(choice, "index", Zero()) && Has(choice, "delta", delta) && Has(choice, "finish_reason", finish)
    ensures Valid(delta) && Valid(finish) ==> Valid(choice)
  {
    choice := Value.Object([Entry("index", Zero()), Entry("delta", delta), Entry("finish_reason", finish)]);
    assert "index"[0] == 'i' && "delta"[0] == 'd' && "finish_reason"[0] == 'f';
    LookupAt(choice.entries, "index", 0);
    LookupAt(choice.entries, "delta", 1);
    LookupAt(choice.entries, "finish_reason", 2);
  }

  /** A text delta: its id, its model, the text as the content of the first choice, nothing finished. */
  lemma DeltaSays(id: string, model: string, text: string) returns (v: Value, choice: Value)
    ensures Carries(ChatDelta(id, model, text), v) && IsChunk(v, id, model, choice)
    ensures Has(choice, "index", Num(PosInt(0))) && Has(choice, "finish_reason", Value.Null)
    ensures Has(choice, "delta", Value.Object([Entry("content", Value.String(text))]))
  {
    OneField("content", Value.String(text));
    choice := ChoiceKeys(Value.Object([Entry("content", Value.String(text))]), Value.Null);
    v := ChatChunk(id, model, Value.Object([Entry("content", Value.String(text))]), Value.Null);
    ChunkKeys(v, id, model, choice);
  }

  /** A finish: the same id and model, an empty delta, and the reason. */
  lemma FinishSays(id: string, model: string) returns (v: Value, choice: Value)
    ensures Carries(ChatFinish(id, model), v) && IsChunk(v, id, model, choice)
    ensures Has(choice, "index", Num(PosInt(0))) && Has(choice, "finish_reason", Value.String("stop"))
    ensures Has(choice, "delta", Value.Object([]))
  {
    choice := ChoiceKeys(Value.Object([]), Value.String("stop"));
    v := ChatChunk(id, model, Value.Object([]), Value.String("stop"));
    ChunkKeys(v, id, model, choice);
  }

  lemma DoneSays()
    ensures FrameData(ChatDone) == "[DONE]" && FrameName(ChatDone) == None
  {
  }

  /** An error in either format: the error itself, under one key. */
  lemma ErrorSays(error: Value) returns (v: Value)
    requires Valid(error)
    ensures Has(v, "error", error) && Carries(ChatError(error), v) && Carries(MessagesError(error), v)
    ensures FrameName(MessagesError(error)) == Some("error") && FrameName(ChatError(error)) == None
  {
    v := Value.Object([Entry("error", error)]);
    OneField("error", error);
  }

  // ----- Messages -----

  /** An event whose data repeats its name as its type. */
  predicate IsEvent(f: Frame, v: Value, name: string) {
    FrameName(f) == Some(name) && Carries(f, v) && Has(v, "type", Value.String(name))
  }

  /** The message a stream opens with: the id and the model, an empty content, no tokens yet. */
  predicate IsMessage(message: Value, id: string, model: string) {
    && Has(message, "id", Value.String(id)) && Has(message, "model", Value.String(model))
    && Has(message, "type", Value.String("message")) && Has(message, "role", Value.String("assistant"))
    && Has(message, "content", Value.Array([]))
    && Has(message, "stop_reason", Value.Null) && Has(message, "stop_sequence", Value.Null)
  }

  lemma MessageKeys(message: Value, id: string, model: string)
    requires message.Object? && |message.entries| == 8
    requires message.entries[0] == Entry("id", Value.String(id))
    requires message.entries[1] == Entry("type", Value.String("message"))
    requires message.entries[2] == Entry("role", Value.String("assistant"))
    requires message.entries[3] == Entry("model", Value.String(model))
    requires message.entries[4] == Entry("content", Value.Array([]))
    requires message.entries[5] == Entry("stop_reason", Value.Null)
    requires message.entries[6] == Entry("stop_sequence", Value.Null)
    requires message.entries[7].key == "usage" && Valid(message.entries[7].value)
    ensures IsMessage(message, id, model) && Valid(message)
  {
    var e := message.entries;
    assert |"id"| == 2 && |"type"| == 4 && |"role"| == 4 && |"model"| == 5 && |"content"| == 7;
    assert "type"[0] == 't' && "role"[0] == 'r';
    assert |"stop_reason"| == 11 && |"stop_sequence"| == 13 && |"usage"| == 5 && "usage"[0] == 'u' && "model"[0] == 'm';
    LookupAt(e, "id", 0);
    LookupAt(e, "type", 1);
    LookupAt(e, "role", 2);
    LookupAt(e, "model", 3);
    LookupAt(e, "content", 4);
    LookupAt(e, "stop_reason", 5);
    LookupAt(e, "stop_sequence", 6);
  }

  lemma TokensAreValid(usage: Value)
    requires usage == Value.Object([Entry("input_tokens", Zero()), Entry("output_tokens", Zero())])
    ensures Valid(usage)
  {
    assert |"input_tokens"| == 12 && |"output_tokens"| == 13;
  }

  lemma TypeAndMessage(v: Value, name: string, message: Value)
    requires v == Value.Object([Entry("type", Value.String(name)), Entry("message", message)]) && Valid(message)
    ensures Has(v, "type", Value.String(name)) && Has(v, "message", message) && Valid(v)
  {
    assert |"type"| == 4 && |"message"| == 7;
    LookupAt(v.entries, "type", 0);
    LookupAt(v.entries, "message", 1);
  }

  lemma MessageStartSays(id: string, model: string) returns (v: Value, message: Value)
    ensures IsEvent(MessageStart(id, model), v, "message_start")
    ensures Has(v, "message", message) && IsMessage(message, id, model)
  {
    v := MessageStartBody(id, model);
    message := v.entries[1].value;
    TokensAreValid(message.entries[7].value);
    MessageKeys(message, id, model);
    TypeAndMessage(v, "message_start", message);
  }

  lemma BlockKeys(v: Value, name: string, key: string, field: Value)
    requires v == Value.Object([Entry("type", Value.String(name)), Entry("index", Zero()), Entry(key, field)])
    requires key != "type" && key != "index"
    ensures Has(v, "type", Value.String(name)) && Has(v, "index", Num(PosInt(0))) && Has(v, key, field)
    ensures Valid(field) ==> Valid(v)
  {
    assert |"type"| == 4 && |"index"| == 5;
    LookupAt(v.entries, "type", 0);
    LookupAt(v.entries, "index", 1);
    LookupAt(v.entries, key, 2);
  }

  lemma TypeAndText(v: Value, kind: string, text: string)
    requires v == Value.Object([Entry("type", Value.String(kind)), Entry("text", Value.String(text))])
    ensures Has(v, "type", Value.String(kind)) && Has(v, "text", Value.String(text)) && Valid(v)
  {
    assert "type"[1] == 'y' && "text"[1] == 'e';
    LookupAt(v.entries, "type", 0);
    LookupAt(v.entries, "text", 1);
  }

  /** The block opens empty, as a text block. */
  lemma BlockStartSays() returns (v: Value, block: Value)
    ensures IsEvent(BlockStart, v, "content_block_start") && Has(v, "index", Num(PosInt(0)))
    ensures Has(v, "content_block", block)
    ensures Has(block, "type", Value.String("text")) && Has(block, "text", Value.String(""))
  {
    v := BlockStartBody();
    block := Value.Object([Entry("type", Value.String("text")), Entry("text", Value.String(""))]);
    assert |"content_block"| == 13;
    BlockKeys(v, "content_block_start", "content_block", block);
    TypeAndText(block, "text", "");
  }

  /** A delta appends its text to that block. */
  lemma BlockDeltaSays(text: string) returns (v: Value, delta: Value)
    ensures IsEvent(BlockDelta(text), v, "content_block_delta") && Has(v, "index", Num(PosInt(0)))
    ensures Has(v, "delta", delta)
    ensures Has(delta, "type", Value.String("text_delta")) && Has(delta, "text", Value.String(text))
  {
    v := BlockDeltaBody(text);
    delta := Value.Object([Entry("type", Value.String("text_delta")), Entry("text", Value.String(text))]);
    assert "delta"[0] == 'd' && "index"[0] == 'i' && |"delta"| == 5 && |"type"| == 4;
    BlockKeys(v, "content_block_delta", "delta", delta);
    TypeAndText(delta, "text_delta", text);
  }

  lemma BlockStopSays() returns (v: Value)
    ensures IsEvent(BlockStop, v, "content_block_stop") && Has(v, "index", Num(PosInt(0)))
  {
    v := BlockStopBody();
    assert |"type"| == 4 && |"index"| == 5;
    LookupAt(v.entries, "type", 0);
    LookupAt(v.entries, "index", 1);
  }

  /** The turn ended by itself. */
  lemma MessageDeltaSays() returns (v: Value, delta: Value)
    ensures IsEvent(MessageDelta, v, "message_delta") && Has(v, "delta", delta)
    ensures Has(delta, "stop_reason", Value.String("end_turn")) && Has(delta, "stop_sequence", Value.Null)
  {
    v := MessageDeltaBody();
    delta := v.entries[1].value;
    assert |"type"| == 4 && |"delta"| == 5 && |"stop_reason"| == 11 && |"stop_sequence"| == 13;
    LookupAt(v.entries, "type", 0);
    LookupAt(v.entries, "delta", 1);
    LookupAt(delta.entries, "stop_reason", 0);
    LookupAt(delta.entries, "stop_sequence", 1);
  }

  lemma MessageStopSays() returns (v: Value)
    ensures IsEvent(MessageStop, v, "message_stop")
  {
    v := MessageStopBody();
    LookupAt(v.entries, "type", 0);
  }
}
