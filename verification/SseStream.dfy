/**
 The two converters of a Responses stream: one fed chunk by chunk, one given the whole
 transcript. Both send lists of frames, printed by `FramesText`. On text without lines made of
 carriage returns they send the same frames.
 */
module SseStream {
  import opened Options
  import opened Strings
  import Json
  import opened SseText
  import opened SsePrint
  import opened SseConvert

  // ----- one block -----

  /** `responses_sse_event_to_endpoint_event`: the frames sent on for one block, often none. */
  function BlockFrames(parse: Parser, endpoint: Endpoint, block: string, st: State): (seq<Frame>, State) {
    match FirstPayload(parse, ParseEvents(block))
    case None => ([], st)
    case Some(p) => Step(endpoint, p, st)
  }

  /** The mutable `ResponsesStreamState` both converters thread through. */
  class StreamState {
    var id: Option<string>
    var model: Option<string>
    var messagesStarted: bool
    var done: bool

    ghost function View(): State
      reads this
    {
      State(id, model, messagesStarted, done)
    }

    constructor ()
      ensures View() == InitialState
    {
      id, model, messagesStarted, done := None, None, false, false;
    }

    method Update(value: Json.Value)
      modifies this
      ensures View() == UpdateState(value, old(View()))
    {
      var response := value;
      var field := value.Get("response");
      if field.Some? { response := field.value; }
      var newId := Json.GetStr(response, "id");
      if newId.Some? { id := newId; }
      var newModel := Json.GetStr(response, "model");
      if newModel.Some? { model := newModel; }
    }

    /** `responses_messages_stop_event`. */
    method StopEvent() returns (out: seq<Frame>)
      modifies this
      ensures out == StopFrames(old(View()))
      ensures View() == old(View()).(messagesStarted := true, done := true)
    {
      done := true;
      out := [];
      if !messagesStarted {
        messagesStarted := true;
        out := out + [MessageStart(OrElse(id, "msg_kou_router"), OrElse(model, ""))];
      }
      out := out + [BlockStop];
      out := out + [MessageDelta];
      out := out + [MessageStop];
    }

    method ChatEvent(p: Payload) returns (translated: seq<Frame>)
      modifies this
      ensures (translated, View()) == ChatStep(p, old(View()))
    {
      Update(p.value);
      var shownId, shownModel := OrElse(id, "chatcmpl_kou_router"), OrElse(model, "");
      if Failed(p.value) {
        done := true;
        return [ChatError(ErrorOf(p.value))];
      }
      var delta := DeltaOf(p);
      if delta.Some? {
        return [ChatDelta(shownId, shownModel, delta.value)];
      }
      if NameEndsWith(p, "completed") {
        done := true;
        return [ChatFinish(shownId, shownModel), ChatDone];
      }
      return [];
    }

    method MessagesEvent(p: Payload) returns (translated: seq<Frame>)
      modifies this
      ensures (translated, View()) == MessagesStep(p, old(View()))
    {
      Update(p.value);
      ghost var updated := View();
      if Failed(p.value) {
        done := true;
        return [MessagesError(ErrorOf(p.value))];
      }
      var delta := DeltaOf(p);
      if delta.Some? {
        var out := [];
        if !messagesStarted {
          messagesStarted := true;
          out := out + [MessageStart(OrElse(id, "msg_kou_router"), OrElse(model, ""))];
          out := out + [BlockStart];
        }
        assert out == if updated.messagesStarted then [] else [StartFrame(updated), BlockStart];
        return out + [BlockDelta(delta.value)];
      }
      if NameEndsWith(p, "completed") {
        done := true;
        var out := StopEvent();
        return out;
      }
      return [];
    }

    /** What both converters send after the last event unless a terminal event was seen. */
    method Close(endpoint: Endpoint) returns (closing: seq<Frame>)
      modifies this
      ensures closing == Closing(endpoint, old(View()))
    {
      closing := [];
      if !done {
        if endpoint.Messages? {
          closing := StopEvent();
        } else {
          closing := [ChatDone];
        }
      }
    }

    /** `responses_sse_event_to_endpoint_event`. */
    method Translate(parse: Parser, endpoint: Endpoint, block: string) returns (translated: seq<Frame>)
      modifies this
      ensures (translated, View()) == TranslatorFor(parse, endpoint)(block, old(View()))
    {
      var events := ParseSseEvents(block);
      var payload := FirstPayload(parse, events);
      if payload.None? { return []; }
      if endpoint.ChatCompletions? {
        translated := ChatEvent(payload.value);
      } else {
        translated := MessagesEvent(payload.value);
      }
    }
  }

  // ----- chunk by chunk -----

  datatype Sent = Sent(parts: seq<seq<Frame>>, state: State)

  function Flatten(parts: seq<seq<Frame>>): seq<Frame> {
    if parts == [] then [] else Flatten(parts[..|parts| - 1]) + parts[|parts| - 1]
  }

  /** Nothing is yielded for a block without frames. */
  function Yield(frames: seq<Frame>): seq<seq<Frame>> {
    if frames == [] then [] else [frames]
  }

  /** What one block is translated to, and the state after it. */
  type Translator = (string, State) -> (seq<Frame>, State)

  function TranslatorFor(parse: Parser, endpoint: Endpoint): Translator {
    (block, st) => BlockFrames(parse, endpoint, block, st)
  }

  /** What is yielded for some blocks. */
  function Yields(tr: Translator, blocks: seq<string>, st: State): Sent {
    if blocks == [] then Sent([], st)
    else
      var before := Yields(tr, blocks[..|blocks| - 1], st);
      var next := tr(blocks[|blocks| - 1], before.state);
      Sent(before.parts + Yield(next.0), next.1)
  }

  /** The blocks of a text, with a remainder that is not blank as the last one. */
  function BlocksOf(text: string): seq<string> {
    var f := CutBlocks(text);
    f.blocks + if Trim(f.rest) == [] then [] else [f.rest]
  }

  function StreamOutput(parse: Parser, endpoint: Endpoint, text: string): seq<seq<Frame>> {
    var sent := Yields(TranslatorFor(parse, endpoint), BlocksOf(text), InitialState);
    sent.parts + Yield(Closing(endpoint, sent.state))
  }

  lemma YieldsSnoc(tr: Translator, blocks: seq<string>, block: string, st: State)
    ensures var before := Yields(tr, blocks, st);
            var next := tr(block, before.state);
            Yields(tr, blocks + [block], st) == Sent(before.parts + Yield(next.0), next.1)
  {
    assert (blocks + [block])[..|blocks|] == blocks;
  }

  lemma {:induction false} YieldsAppend(tr: Translator, a: seq<string>, b: seq<string>, st: State)
    ensures var first := Yields(tr, a, st);
            var second := Yields(tr, b, first.state);
            Yields(tr, a + b, st) == Sent(first.parts + second.parts, second.state)
  {
    if b == [] {
      assert a + b == a;
    } else {
      var front, last := b[..|b| - 1], b[|b| - 1];
      YieldsAppend(tr, a, front, st);
      assert a + b == (a + front) + [last];
      YieldsSnoc(tr, a + front, last, st);
      var first := Yields(tr, a, st);
      var second := Yields(tr, front, first.state);
      Assoc(first.parts, second.parts, Yield(tr(last, second.state).0));
    }
  }

  /** The inner loop: translate every complete block of the pending text. */
  method DrainPending(parse: Parser, endpoint: Endpoint, text: string, state: StreamState)
    returns (output: seq<seq<Frame>>, pending: string)
    modifies state
    ensures Sent(output, state.View())
            == Yields(TranslatorFor(parse, endpoint), CutBlocks(text).blocks, old(state.View()))
    ensures pending == CutBlocks(text).rest
  {
    pending := text;
    output := [];
    ghost var found: seq<string> := [];
    FoundNothing(CutBlocks(text));
    while BlankLine(pending) < |pending|
      invariant CutBlocks(text) == Framed(found + CutBlocks(pending).blocks, CutBlocks(pending).rest)
      invariant Sent(output, state.View()) == Yields(TranslatorFor(parse, endpoint), found, old(state.View()))
      decreases |pending|
    {
      var index := BlankLine(pending);
      var event := pending[..index];
      NextBlock(text, found, pending);
      YieldsSnoc(TranslatorFor(parse, endpoint), found, event, old(state.View()));
      pending := pending[index + 2..];
      found := found + [event];
      var translated := state.Translate(parse, endpoint, event);
      if translated != [] {
        output := output + [translated];
      }
    }
    NoMoreBlocks(text, found, pending);
  }

  lemma FoundNothing(f: Framed)
    ensures f == Framed([] + f.blocks, f.rest)
  {
    assert [] + f.blocks == f.blocks;
  }

  lemma NoMoreBlocks(text: string, found: seq<string>, pending: string)
    requires BlankLine(pending) == |pending|
    requires CutBlocks(text) == Framed(found + CutBlocks(pending).blocks, CutBlocks(pending).rest)
    ensures CutBlocks(text) == Framed(found, pending)
  {
    assert found + [] == found;
  }

  /**
   `responses_sse_to_endpoint_stream`, for a stream that ends without a transport error: the
   yielded parts depend on the text only, not on where the chunks were cut.
   */
  method ResponsesSseToEndpointStream(parse: Parser, endpoint: Endpoint, chunks: seq<string>)
    returns (output: seq<seq<Frame>>)
    ensures output == StreamOutput(parse, endpoint, Concat(chunks))
  {
    var pending := "";
    var state := new StreamState();
    output := [];
    for i := 0 to |chunks|
      invariant pending == FrameChunks(chunks[..i]).rest
      invariant Sent(output, state.View())
             == Yields(TranslatorFor(parse, endpoint), FrameChunks(chunks[..i]).blocks, InitialState)
    {
      ChunkArrives(chunks, i);
      pending := pending + chunks[i];
      YieldsAppend(TranslatorFor(parse, endpoint), FrameChunks(chunks[..i]).blocks, CutBlocks(pending).blocks,
                   InitialState);
      var more: seq<seq<Frame>>;
      more, pending := DrainPending(parse, endpoint, pending, state);
      output := output + more;
    }
    assert chunks[..|chunks|] == chunks;
    ChunksDoNotMatter(chunks);
    var last := LastBlock(parse, endpoint, CutBlocks(Concat(chunks)), output, pending, state);
    output := output + last;
    var closing := state.Close(endpoint);
    output := output + Yield(closing);
  }

  lemma ChunkArrives(chunks: seq<string>, i: nat)
    requires i < |chunks|
    ensures var before := FrameChunks(chunks[..i]);
            var now := CutBlocks(before.rest + chunks[i]);
            FrameChunks(chunks[..i + 1]) == Framed(before.blocks + now.blocks, now.rest)
  {
    assert chunks[..i + 1][..i] == chunks[..i];
  }

  /** A remainder that is not blank is translated as one more block. */
  method LastBlock(parse: Parser, endpoint: Endpoint, ghost framed: Framed, ghost sofar: seq<seq<Frame>>,
                   pending: string, state: StreamState)
    returns (last: seq<seq<Frame>>)
    requires pending == framed.rest
    requires Sent(sofar, state.View()) == Yields(TranslatorFor(parse, endpoint), framed.blocks, InitialState)
    modifies state
    ensures var blocks := framed.blocks + if Trim(framed.rest) == [] then [] else [framed.rest];
            Sent(sofar + last, state.View()) == Yields(TranslatorFor(parse, endpoint), blocks, InitialState)
  {
    last := [];
    assert framed.blocks + [] == framed.blocks;
    if Trim(pending) != [] {
      YieldsSnoc(TranslatorFor(parse, endpoint), framed.blocks, pending, InitialState);
      var translated := state.Translate(parse, endpoint, pending);
      if translated != [] {
        last := [translated];
      }
    }
  }

  lemma NextBlock(whole: string, found: seq<string>, pending: string)
    requires BlankLine(pending) < |pending|
    requires CutBlocks(whole) == Framed(found + CutBlocks(pending).blocks, CutBlocks(pending).rest)
    ensures var k := BlankLine(pending);
            var tail := CutBlocks(pending[k + 2..]);
            CutBlocks(whole) == Framed(found + [pending[..k]] + tail.blocks, tail.rest)
  {
    FrameStep(pending);
    var k := BlankLine(pending);
    Assoc(found, [pending[..k]], CutBlocks(pending[k + 2..]).blocks);
  }

  // ----- the whole transcript -----

  /** The frames sent for some events of a transcript, each printed again and read back. */
  function TranscriptFold(tr: Translator, events: seq<Event>, st: State): Converted {
    if events == [] then Converted([], st)
    else
      var before := TranscriptFold(tr, events[..|events| - 1], st);
      var e := events[|events| - 1];
      if e.data == "" || e.data == "[DONE]" then before
      else
        var next := tr(Reprint(e), before.state);
        Converted(before.frames + next.0, next.1)
  }

  function TranscriptOutput(parse: Parser, endpoint: Endpoint, body: string): seq<Frame> {
    var c := TranscriptFold(TranslatorFor(parse, endpoint), ParseEvents(body), InitialState);
    c.frames + Closing(endpoint, c.state)
  }

  /** The event text the transcript converter builds line by line. */
  method PrintEvent(e: Event) returns (event: string)
    ensures event == Reprint(e)
  {
    event := NameLine(e.name);
    var lines := Lines(e.data);
    for j := 0 to |lines|
      invariant event == NameLine(e.name) + DataLines(lines[..j])
    {
      event := event + ("data: " + lines[j] + "\n");
      assert lines[..j + 1] == lines[..j] + [lines[j]];
      DataLinesSnoc(lines[..j], lines[j], NameLine(e.name));
    }
    assert lines[..|lines|] == lines;
    event := event + "\n";
  }

  lemma {:induction false} DataLinesSnoc(lines: seq<string>, line: string, before: string)
    ensures before + DataLines(lines + [line]) == before + DataLines(lines) + ("data: " + line + "\n")
  {
    var last := "data: " + line + "\n";
    if lines == [] {
      assert lines + [line] == [line];
      assert DataLines([line][1..]) == [];
      assert last + [] == last;
    } else {
      assert (lines + [line])[1..] == lines[1..] + [line];
      var first := "data: " + lines[0] + "\n";
      DataLinesSnoc(lines[1..], line, first);
      Assoc(before, first + DataLines(lines[1..]), last);
    }
  }

  lemma TranscriptSnoc(tr: Translator, events: seq<Event>, i: nat)
    requires i < |events|
    ensures var before := TranscriptFold(tr, events[..i], InitialState);
            var next := tr(Reprint(events[i]), before.state);
            TranscriptFold(tr, events[..i + 1], InitialState)
            == if events[i].data == "" || events[i].data == "[DONE]" then before
               else Converted(before.frames + next.0, next.1)
  {
    assert events[..i + 1][..i] == events[..i];
  }

  /** `responses_sse_transcript_to_endpoint_stream_text`. */
  method ResponsesSseTranscriptToEndpointStream(parse: Parser, endpoint: Endpoint, body: string)
    returns (out: seq<Frame>)
    ensures out == TranscriptOutput(parse, endpoint, body)
  {
    var state := new StreamState();
    out := [];
    var events := ParseSseEvents(body);
    for i := 0 to |events|
      invariant Converted(out, state.View())
               == TranscriptFold(TranslatorFor(parse, endpoint), events[..i], InitialState)
    {
      TranscriptSnoc(TranslatorFor(parse, endpoint), events, i);
      var e := events[i];
      if e.data == "" || e.data == "[DONE]" { continue; }
      var event := PrintEvent(e);
      var translated := state.Translate(parse, endpoint, event);
      out := out + translated;
    }
    assert events[..|events|] == events;
    var closing := state.Close(endpoint);
    out := out + closing;
  }

  // ----- incremental equals batch -----

  /** A JSON parser that ignores one trailing line feed and accepts neither nothing nor the end marker. */
  ghost predicate Lenient(parse: Parser) {
    (forall s: string :: parse(s + "\n") == parse(s)) && parse("") == None && parse("[DONE]") == None
  }

  function PayloadAsSeq(p: Option<Payload>): seq<Payload> {
    match p
    case Some(payload) => [payload]
    case None => []
  }

  /** The payload a block is translated from is the first of all its payloads. */
  lemma {:induction false} FirstPayloadIsFirst(parse: Parser, events: seq<Event>)
    ensures var all := PayloadsOf(parse, events);
            PayloadAsSeq(FirstPayload(parse, events)) == if all == [] then [] else [all[0]]
  {
    if events != [] {
      FirstPayloadIsFirst(parse, events[1..]);
    }
  }

  /** The payloads the streaming converter reads: of each block the first. */
  function FirstPayloads(parse: Parser, blocks: seq<string>): seq<Payload> {
    if blocks == [] then []
    else
      FirstPayloads(parse, blocks[..|blocks| - 1])
      + PayloadAsSeq(FirstPayload(parse, ParseEvents(blocks[|blocks| - 1])))
  }

  lemma FirstPayloadsSnoc(parse: Parser, blocks: seq<string>, block: string)
    ensures FirstPayloads(parse, blocks + [block])
         == FirstPayloads(parse, blocks) + PayloadAsSeq(FirstPayload(parse, ParseEvents(block)))
  {
    assert (blocks + [block])[..|blocks|] == blocks;
  }

  lemma OnePayload(parse: Parser, e: Event)
    ensures PayloadsOf(parse, [e]) == PayloadAsSeq(EventPayload(parse, e))
    ensures FirstPayload(parse, [e]) == EventPayload(parse, e)
  {
    var none := [e][1..];
    assert none == [];
    assert PayloadsOf(parse, none) == [] && FirstPayload(parse, none) == None;
  }

  lemma {:induction false} EventsOfBlocksSnoc(blocks: seq<string>, block: string)
    ensures EventsOfBlocks(blocks + [block]) == EventsOfBlocks(blocks) + ParseEvents(block)
  {
    if blocks == [] {
      assert [] + [block] == [block];
      EventsOfBlocksStep(block, []);
      assert ParseEvents(block) + [] == [] + ParseEvents(block);
    } else {
      assert (blocks + [block])[1..] == blocks[1..] + [block];
      EventsOfBlocksSnoc(blocks[1..], block);
      Assoc(ParseEvents(blocks[0]), EventsOfBlocks(blocks[1..]), ParseEvents(block));
    }
  }

  /** What one more payload, or none, adds to the frames. */
  lemma FoldOne(endpoint: Endpoint, payloads: seq<Payload>, more: Option<Payload>, st: State)
    ensures var before := Fold(endpoint, payloads, st);
            var (frames, after) := match more
                                   case Some(p) => Step(endpoint, p, before.state)
                                   case None => ([], before.state);
            Fold(endpoint, payloads + PayloadAsSeq(more), st) == Converted(before.frames + frames, after)
  {
    var one := PayloadAsSeq(more);
    FoldAppend(endpoint, payloads, one, st);
    var before := Fold(endpoint, payloads, st);
    if more.Some? {
      var (frames, after) := Step(endpoint, more.value, before.state);
      assert one[1..] == [];
      assert Fold(endpoint, one, before.state) == Converted(frames + [], after);
      assert frames + [] == frames;
    }
  }

  lemma FlattenYield(parts: seq<seq<Frame>>, frames: seq<Frame>)
    ensures Flatten(parts + Yield(frames)) == Flatten(parts) + frames
  {
    if frames == [] {
      assert parts + Yield(frames) == parts;
      assert Flatten(parts) + frames == Flatten(parts);
    } else {
      assert (parts + [frames])[..|parts|] == parts;
    }
  }

  lemma {:induction false} YieldsAreFrames(parse: Parser, endpoint: Endpoint, blocks: seq<string>)
    ensures var sent := Yields(TranslatorFor(parse, endpoint), blocks, InitialState);
            Converted(Flatten(sent.parts), sent.state) == Fold(endpoint, FirstPayloads(parse, blocks), InitialState)
  {
    if blocks != [] {
      var front, block := blocks[..|blocks| - 1], blocks[|blocks| - 1];
      YieldsAreFrames(parse, endpoint, front);
      var payloads := FirstPayloads(parse, front);
      FoldOne(endpoint, payloads, FirstPayload(parse, ParseEvents(block)), InitialState);
      var before := Fold(endpoint, payloads, InitialState);
      var (frames, _) := BlockFrames(parse, endpoint, block, before.state);
      FlattenYield(Yields(TranslatorFor(parse, endpoint), front, InitialState).parts, frames);
    }
  }

  /** The whole-transcript converter sends the frames of all payloads. */
  lemma {:induction false} TranscriptAreFrames(parse: Parser, endpoint: Endpoint, events: seq<Event>)
    requires Lenient(parse) && GoodEvents(events)
    ensures TranscriptFold(TranslatorFor(parse, endpoint), events, InitialState)
         == Fold(endpoint, PayloadsOf(parse, events), InitialState)
  {
    if events != [] {
      var front, e := events[..|events| - 1], events[|events| - 1];
      assert events == front + [e];
      TranscriptAreFrames(parse, endpoint, front);
      PayloadsAppend(parse, front, [e]);
      OnePayload(parse, e);
      ReprintKeepsPayload(parse, e);
      var payloads := PayloadsOf(parse, front);
      FoldOne(endpoint, payloads, EventPayload(parse, e), InitialState);
      var before := Fold(endpoint, payloads, InitialState);
      assert before.frames + [] == before.frames;
    }
  }

  /** Re-printing an event does not change the payload read from it. */
  lemma ReprintKeepsPayload(parse: Parser, e: Event)
    requires Lenient(parse) && GoodEvent(e)
    ensures e.data != "" && e.data != "[DONE]" ==>
      FirstPayload(parse, ParseEvents(Reprint(e))) == EventPayload(parse, e)
  {
    if e.data != "" && e.data != "[DONE]" {
      ReprintParsed(e);
      OnePayload(parse, Event(e.name, Chomp(e.data)));
      ChompKeepsParse(parse, e.data);
    }
  }

  lemma ChompKeepsParse(parse: Parser, data: string)
    requires Lenient(parse)
    ensures parse(Chomp(data)) == parse(data)
  {
    if EndsWith(data, "\n") {
      assert data == Chomp(data) + "\n";
    }
  }

  /** If the blocks yield the frames of some payloads, the whole stream is their conversion. */
  lemma StreamIsConvertAll(parse: Parser, endpoint: Endpoint, body: string, payloads: seq<Payload>)
    requires var sent := Yields(TranslatorFor(parse, endpoint), BlocksOf(body), InitialState);
             Converted(Flatten(sent.parts), sent.state) == Fold(endpoint, payloads, InitialState)
    ensures Flatten(StreamOutput(parse, endpoint, body)) == ConvertAll(endpoint, payloads)
  {
    var sent := Yields(TranslatorFor(parse, endpoint), BlocksOf(body), InitialState);
    FlattenYield(sent.parts, Closing(endpoint, sent.state));
  }

  /** Whatever the body, the stream is the conversion of the first payload of each block. */
  lemma StreamSendsFirstPayloads(parse: Parser, endpoint: Endpoint, body: string)
    ensures Flatten(StreamOutput(parse, endpoint, body)) == ConvertAll(endpoint, FirstPayloads(parse, BlocksOf(body)))
  {
    YieldsAreFrames(parse, endpoint, BlocksOf(body));
    StreamIsConvertAll(parse, endpoint, body, FirstPayloads(parse, BlocksOf(body)));
  }

  /** Whatever the body, the transcript is the conversion of all its payloads. */
  lemma TranscriptIsConvertAll(parse: Parser, endpoint: Endpoint, body: string)
    requires Lenient(parse)
    ensures TranscriptOutput(parse, endpoint, body) == ConvertAll(endpoint, PayloadsOf(parse, ParseEvents(body)))
  {
    ParsedEventsAreGood(body);
    TranscriptAreFrames(parse, endpoint, ParseEvents(body));
  }

  lemma BlocksHoldTheEvents(body: string)
    ensures EventsOfBlocks(BlocksOf(body)) == ParseEvents(body)
    ensures NoCrOnlyLine(body) ==> forall b | b in BlocksOf(body) :: |ParseEvents(b)| <= 1
  {
    var f := CutBlocks(body);
    FrameKeepsEvents(body);
    if NoCrOnlyLine(body) { EventsOfFrame(body); }
    if Trim(f.rest) == [] {
      BlankRestHasNoEvent(f.rest);
      assert f.blocks + [] == f.blocks;
      assert EventsOfBlocks(f.blocks) + [] == EventsOfBlocks(f.blocks);
    } else {
      EventsOfBlocksSnoc(f.blocks, f.rest);
    }
  }

  predicate OnePayloadEach(parse: Parser, blocks: seq<string>) {
    forall b | b in blocks :: |PayloadsOf(parse, ParseEvents(b))| <= 1
  }

  /** What a block adds to all payloads, and to the first ones; the two are equal if it adds one at most. */
  lemma BlockAdds(parse: Parser, front: seq<string>, block: string) returns (more: seq<Payload>, first: seq<Payload>)
    ensures more == PayloadsOf(parse, ParseEvents(block)) && first == if more == [] then [] else [more[0]]
    ensures PayloadsOf(parse, EventsOfBlocks(front + [block])) == PayloadsOf(parse, EventsOfBlocks(front)) + more
    ensures FirstPayloads(parse, front + [block]) == FirstPayloads(parse, front) + first
  {
    more, first := PayloadsOf(parse, ParseEvents(block)), PayloadAsSeq(FirstPayload(parse, ParseEvents(block)));
    EventsOfBlocksSnoc(front, block);
    PayloadsAppend(parse, EventsOfBlocks(front), ParseEvents(block));
    FirstPayloadIsFirst(parse, ParseEvents(block));
    FirstPayloadsSnoc(parse, front, block);
  }

  /** Where no block holds two payloads, the first payloads are all payloads. */
  lemma {:induction false} FirstPayloadsAreAll(parse: Parser, blocks: seq<string>)
    requires OnePayloadEach(parse, blocks)
    ensures FirstPayloads(parse, blocks) == PayloadsOf(parse, EventsOfBlocks(blocks))
  {
    if blocks != [] {
      var front, block := blocks[..|blocks| - 1], blocks[|blocks| - 1];
      FirstPayloadsAreAll(parse, front);
      var more, first := BlockAdds(parse, front, block);
      assert block in blocks && |more| <= 1 && first == more;
      assert blocks == front + [block];
    }
  }

  /**
   Incremental equals batch. However the body was cut into chunks, the streamed frames are, all
   together, the transcript converter's frames, and both are those of the body's payloads.
   */
  lemma IncrementalEqualsBatch(parse: Parser, endpoint: Endpoint, body: string)
    requires Lenient(parse) && NoCrOnlyLine(body)
    ensures Flatten(StreamOutput(parse, endpoint, body)) == TranscriptOutput(parse, endpoint, body)
    ensures TranscriptOutput(parse, endpoint, body) == ConvertAll(endpoint, PayloadsOf(parse, ParseEvents(body)))
  {
    var blocks := BlocksOf(body);
    BlocksHoldTheEvents(body);
    forall b | b in blocks ensures |PayloadsOf(parse, ParseEvents(b))| <= 1 {
      FewerPayloads(parse, ParseEvents(b));
    }
    FirstPayloadsAreAll(parse, blocks);
    StreamSendsFirstPayloads(parse, endpoint, body);
    TranscriptIsConvertAll(parse, endpoint, body);
  }

  /** For text without carriage returns there is nothing to check. */
  lemma LfOnlyIncrementalEqualsBatch(parse: Parser, endpoint: Endpoint, body: string)
    requires Lenient(parse) && '\r' !in body
    ensures Flatten(StreamOutput(parse, endpoint, body)) == TranscriptOutput(parse, endpoint, body)
  {
    LfOnlyFrames(body);
    IncrementalEqualsBatch(parse, endpoint, body);
  }

  lemma {:induction false} FewerPayloads(parse: Parser, events: seq<Event>)
    ensures |PayloadsOf(parse, events)| <= |events|
  {
    if events != [] { FewerPayloads(parse, events[1..]); }
  }

  /**
   A text without "\n\n" is one block to the streaming converter: it sends the frames of the first
   payload alone, where the transcript converter sends those of all payloads.
   */
  lemma UnframedStreamSendsOnePayload(parse: Parser, endpoint: Endpoint, body: string)
    requires Lenient(parse) && BlankLine(body) == |body|
    ensures Flatten(StreamOutput(parse, endpoint, body))
         == ConvertAll(endpoint, PayloadAsSeq(FirstPayload(parse, ParseEvents(body))))
    ensures TranscriptOutput(parse, endpoint, body) == ConvertAll(endpoint, PayloadsOf(parse, ParseEvents(body)))
  {
    OneBlock(parse, body);
    StreamSendsFirstPayloads(parse, endpoint, body);
    TranscriptIsConvertAll(parse, endpoint, body);
  }

  lemma OneBlock(parse: Parser, body: string)
    requires BlankLine(body) == |body|
    ensures BlocksOf(body) == if Trim(body) == [] then [] else [body]
    ensures FirstPayloads(parse, BlocksOf(body)) == PayloadAsSeq(FirstPayload(parse, ParseEvents(body)))
  {
    if Trim(body) == [] {
      BlankRestHasNoEvent(body);
    } else {
      FirstPayloadsSnoc(parse, [], body);
      assert [] + [body] == [body];
      var first := PayloadAsSeq(FirstPayload(parse, ParseEvents(body)));
      assert [] + first == first;
    }
  }
}
