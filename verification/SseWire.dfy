/** The converted stream as a client reads it. */
module SseWire {
  import opened Options
  import opened Strings
  import Json
  import CanonicalJson
  import opened SseText
  import opened SsePrint
  import opened SseConvert

  // ----- JSON text is one line -----

  /** Every float in the value is spelt with number characters. */
  predicate PlainNumbers(v: Json.Value) {
    match v
    case Num(n) => Json.ValidNumber(n)
    case Array(items) => forall i | 0 <= i < |items| :: PlainNumbers(items[i])
    case Object(entries) => forall i | 0 <= i < |entries| :: PlainNumbers(entries[i].value)
    case _ => true
  }

  lemma {:induction false} ValidIsPlain(v: Json.Value)
    requires Json.Valid(v)
    ensures PlainNumbers(v)
    decreases v
  {
    match v
    case Array(items) =>
      forall i | 0 <= i < |items| ensures PlainNumbers(items[i]) { ValidIsPlain(items[i]); }
    case Object(entries) =>
      forall i | 0 <= i < |entries| ensures PlainNumbers(entries[i].value) { ValidIsPlain(entries[i].value); }
    case _ =>
  }

  /** No line feed and no carriage return. */
  predicate Flat(s: string) {
    forall i | 0 <= i < |s| :: s[i] != '\n' && s[i] != '\r'
  }

  lemma {:induction false} DecimalFlat(n: nat)
    ensures Flat(Json.Decimal(n))
  {
    if n >= 10 { DecimalFlat(n / 10); }
  }

  lemma {:induction false} EscapeFlat(s: string)
    ensures Flat(Json.Escape(s))
  {
    if s != [] {
      EscapeCharFlat(s[0]);
      EscapeFlat(s[1..]);
    }
  }

  lemma EscapeCharFlat(c: char)
    ensures Flat(Json.EscapeChar(c))
  {
  }

  lemma QuoteFlat(s: string)
    ensures Flat(Json.Quote(s))
  {
    EscapeFlat(s);
  }

  lemma {:induction false} TextFlat(v: Json.Value)
    requires PlainNumbers(v)
    ensures Flat(Json.Text(v))
    decreases v
  {
    match v
    case Null => assert Json.Text(v) == "null";
    case Bool(b) => assert Json.Text(v) == if b then "true" else "false";
    case Num(n) => NumberFlat(n);
    case String(s) => QuoteFlat(s);
    case Array(items) => ItemsFlat(v, items);
    case Object(entries) => EntriesFlat(v, entries);
  }

  lemma NumberFlat(n: Json.Number)
    requires Json.ValidNumber(n)
    ensures Flat(Json.NumberText(n))
  {
    match n
    case PosInt(k) => DecimalFlat(k);
    case NegInt(m) => DecimalFlat(m);
    case Float(t) => assert forall i | 0 <= i < |t| :: t[i] in t;
  }

  lemma {:induction false} ItemsFlat(v: Json.Value, items: seq<Json.Value>)
    requires forall i | 0 <= i < |items| :: items[i] < v && PlainNumbers(items[i])
    ensures Flat(Json.ItemsText(items))
    decreases v, 0, |items|
  {
    if items != [] {
      TextFlat(items[0]);
      ItemsFlat(v, items[1..]);
    }
  }

  lemma {:induction false} EntriesFlat(v: Json.Value, entries: seq<Json.Entry>)
    requires forall i | 0 <= i < |entries| :: entries[i].value < v && PlainNumbers(entries[i].value)
    ensures Flat(Json.EntriesText(entries))
    decreases v, 0, |entries|
  {
    if entries != [] {
      QuoteFlat(entries[0].key);
      TextFlat(entries[0].value);
      assert Flat(Json.EntryText(entries[0]));
      EntriesFlat(v, entries[1..]);
    }
  }

  lemma {:induction false} SortedPlain(v: Json.Value)
    requires PlainNumbers(v)
    ensures PlainNumbers(CanonicalJson.Sorted(v))
    decreases v
  {
    match v
    case Array(items) =>
      forall i | 0 <= i < |items| ensures PlainNumbers(CanonicalJson.SortedItems(items)[i]) {
        CanonicalJson.SortedItemsAt(items, i);
        SortedPlain(items[i]);
      }
    case Object(entries) =>
      var values := CanonicalJson.SortedValues(entries);
      var sorted := CanonicalJson.SortByKey(values);
      CanonicalJson.SortContents(values);
      forall k | 0 <= k < |sorted| ensures PlainNumbers(sorted[k].value) {
        assert sorted[k] in values;
        var i :| 0 <= i < |values| && values[i] == sorted[k];
        CanonicalJson.SortedValuesAt(entries, i);
        SortedPlain(entries[i].value);
      }
    case _ =>
  }

  // ----- frames -----

  /** Frame data is one line that starts with a bracket or a brace. */
  predicate WireData(data: string) {
    Flat(data) && data != [] && !IsWhitespace(data[0])
  }

  lemma ObjectData(v: Json.Value)
    requires v.Object? && PlainNumbers(v)
    ensures WireData(Json.Text(v)) && WireData(CanonicalJson.Canonical(v))
  {
    TextFlat(v);
    SortedPlain(v);
    TextFlat(CanonicalJson.Sorted(v));
  }

  predicate PlainFrame(f: Frame) {
    match f
    case ChatError(error) => PlainNumbers(error)
    case MessagesError(error) => PlainNumbers(error)
    case _ => true
  }

  lemma ChatChunkPlain(id: string, model: string, delta: Json.Value, finish: Json.Value)
    requires PlainNumbers(delta) && PlainNumbers(finish)
    ensures PlainNumbers(ChatChunk(id, model, delta, finish))
  {
    var choice := Json.Object([
      Json.Entry("index", Zero()), Json.Entry("delta", delta), Json.Entry("finish_reason", finish)]);
    assert PlainNumbers(choice);
    assert PlainNumbers(Json.Array([choice]));
  }

  lemma MessageStartPlain(id: string, model: string)
    ensures PlainNumbers(MessageStartBody(id, model))
  {
    var usage := Json.Object([Json.Entry("input_tokens", Zero()), Json.Entry("output_tokens", Zero())]);
    assert PlainNumbers(usage);
    var message := Json.Object([
      Json.Entry("id", Str(id)), Json.Entry("type", Str("message")), Json.Entry("role", Str("assistant")),
      Json.Entry("model", Str(model)), Json.Entry("content", Json.Array([])),
      Json.Entry("stop_reason", Json.Null), Json.Entry("stop_sequence", Json.Null),
      Json.Entry("usage", usage)]);
    assert PlainNumbers(message);
    assert PlainNumbers(Str("message_start"));
  }

  lemma BodiesPlain(text: string)
    ensures PlainNumbers(BlockStartBody()) && PlainNumbers(BlockDeltaBody(text)) && PlainNumbers(BlockStopBody())
    ensures PlainNumbers(MessageDeltaBody()) && PlainNumbers(MessageStopBody())
  {
    assert PlainNumbers(Json.Object([Json.Entry("type", Str("text")), Json.Entry("text", Str(""))]));
    assert PlainNumbers(Json.Object([Json.Entry("type", Str("text_delta")), Json.Entry("text", Str(text))]));
    assert PlainNumbers(Json.Object([
      Json.Entry("stop_reason", Str("end_turn")), Json.Entry("stop_sequence", Json.Null)]));
    assert PlainNumbers(Json.Object([Json.Entry("output_tokens", Zero())]));
  }

  lemma FrameDataIsWire(f: Frame)
    requires PlainFrame(f)
    ensures WireData(FrameData(f))
  {
    match f
    case ChatDelta(id, model, text) =>
      var delta := Json.Object([Json.Entry("content", Str(text))]);
      assert PlainNumbers(delta);
      ChatChunkPlain(id, model, delta, Json.Null);
      ObjectData(ChatChunk(id, model, delta, Json.Null));
    case ChatFinish(id, model) =>
      ChatChunkPlain(id, model, Json.Object([]), Str("stop"));
      ObjectData(ChatChunk(id, model, Json.Object([]), Str("stop")));
    case ChatDone =>
    case ChatError(error) => ObjectData(Json.Object([Json.Entry("error", error)]));
    case MessageStart(id, model) =>
      MessageStartPlain(id, model);
      ObjectData(MessageStartBody(id, model));
    case BlockStart => BodiesPlain(""); ObjectData(BlockStartBody());
    case BlockDelta(text) => BodiesPlain(text); ObjectData(BlockDeltaBody(text));
    case BlockStop => BodiesPlain(""); ObjectData(BlockStopBody());
    case MessageDelta => BodiesPlain(""); ObjectData(MessageDeltaBody());
    case MessageStop => BodiesPlain(""); ObjectData(MessageStopBody());
    case MessagesError(error) => ObjectData(Json.Object([Json.Entry("error", error)]));
  }

  lemma FrameNameIsGood(f: Frame)
    ensures FrameName(f).Some? ==> GoodName(FrameName(f).value)
  {
  }

  lemma EndsInLineFeed(s: string)
    ensures EndsWith(s, "\n") <==> s != [] && s[|s| - 1] == '\n'
  {
    if s != [] {
      assert s[|s| - 1..] == [s[|s| - 1]];
    }
  }

  lemma WireDataIsPrintable(e: Event)
    requires WireData(e.data) && (e.name.Some? ==> GoodName(e.name.value))
    ensures Printable(e) && Lines(e.data) == [e.data]
    ensures Reprint(e) == NameLine(e.name) + "data: " + e.data + "\n\n"
  {
    LineCut(e.data);
    assert LineEnd(e.data) == |e.data|;
    assert e.data[..|e.data|] == e.data;
    GoodDataLast(e.data);
    EndsInLineFeed(e.data);
    var line := "data: " + e.data + "\n";
    assert DataLines([e.data]) == line + DataLines([e.data][1..]);
    assert line + [] == line;
    Reassociate(NameLine(e.name), "data: ", e.data);
  }

  lemma Reassociate(name: string, prefix: string, data: string)
    ensures name + (prefix + data + "\n") + "\n" == name + prefix + data + "\n\n"
  {
  }

  function FrameEvents(frames: seq<Frame>): seq<Event> {
    if frames == [] then [] else [FrameEvent(frames[0])] + FrameEvents(frames[1..])
  }

  lemma {:induction false} FramesArePrinted(frames: seq<Frame>)
    requires forall f | f in frames :: PlainFrame(f)
    ensures FramesText(frames) == ReprintAll(FrameEvents(frames))
    ensures forall e | e in FrameEvents(frames) :: Printable(e)
  {
    if frames != [] {
      var e := FrameEvent(frames[0]);
      FrameDataIsWire(frames[0]);
      FrameNameIsGood(frames[0]);
      WireDataIsPrintable(e);
      FramesArePrinted(frames[1..]);
      ReprintCons(e, FrameEvents(frames[1..]));
    }
  }

  lemma ReprintCons(e: Event, rest: seq<Event>)
    ensures ReprintAll([e] + rest) == Reprint(e) + ReprintAll(rest)
    ensures forall x | x in [e] + rest :: x == e || x in rest
  {
    assert ([e] + rest)[1..] == rest;
  }

  // ----- what a client reads -----

  /** The parser builds values whose numbers are spelt as numbers. */
  ghost predicate Sound(parse: Parser) {
    forall s, v :: parse(s) == Some(v) ==> Json.Valid(v)
  }

  lemma {:induction false} PayloadsArePlain(parse: Parser, events: seq<Event>)
    requires Sound(parse)
    ensures forall p | p in PayloadsOf(parse, events) :: Json.Valid(p.value)
  {
    if events != [] {
      PayloadsArePlain(parse, events[1..]);
    }
  }

  lemma {:induction false} LookupValid(entries: seq<Json.Entry>, key: string)
    requires forall i | 0 <= i < |entries| :: Json.Valid(entries[i].value)
    ensures var r := Json.Lookup(entries, key); r.Some? ==> Json.Valid(r.value)
  {
    if entries != [] { LookupValid(entries[1..], key); }
  }

  lemma ErrorIsPlain(v: Json.Value)
    requires Json.Valid(v)
    ensures PlainNumbers(ErrorOf(v))
  {
    if v.Object? {
      LookupValid(v.entries, "error");
      LookupValid(v.entries, "response");
      var r := v.Get("response");
      if r.Some? && r.value.Object? { LookupValid(r.value.entries, "error"); }
    }
    assert PlainNumbers(NoErrorGiven());
    if Json.Valid(ErrorOf(v)) { ValidIsPlain(ErrorOf(v)); }
  }

  lemma {:induction false} FoldIsPlain(endpoint: Endpoint, payloads: seq<Payload>, st: State)
    requires forall p | p in payloads :: Json.Valid(p.value)
    ensures forall f | f in Fold(endpoint, payloads, st).frames :: PlainFrame(f)
  {
    if payloads != [] {
      assert payloads[0] in payloads;
      ErrorIsPlain(payloads[0].value);
      var (frames, after) := Step(endpoint, payloads[0], st);
      assert forall f | f in frames :: PlainFrame(f);
      FoldIsPlain(endpoint, payloads[1..], after);
    }
  }

  /**
   A client that parses the text of a converted stream gets one event per frame, in order, each
   with the frame's name and data.
   */
  lemma ClientReadsFrames(parse: Parser, endpoint: Endpoint, body: string)
    requires Sound(parse)
    ensures var frames := ConvertAll(endpoint, PayloadsOf(parse, ParseEvents(body)));
            ParseEvents(FramesText(frames)) == FrameEvents(frames)
  {
    var payloads := PayloadsOf(parse, ParseEvents(body));
    var frames := ConvertAll(endpoint, payloads);
    PayloadsArePlain(parse, ParseEvents(body));
    FoldIsPlain(endpoint, payloads, InitialState);
    FramesArePrinted(frames);
    PrintAllThenParse(FrameEvents(frames));
  }
}
