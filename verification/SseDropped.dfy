/**
 What the incremental converter drops, for one given JSON parser: of every block the payloads after
 the first. Their deltas and errors never reach the client.
 */
module SseDropped {
  import opened Options
  import opened Strings
  import Json
  import opened SseText
  import opened SsePrint
  import opened SseConvert
  import opened SseStream
  import opened SseAgreement
  import SseRebuild

  // ----- frames and the payloads behind them, counted -----

  function Count<T>(items: seq<T>, pick: T -> bool): nat {
    if items == [] then 0 else (if pick(items[0]) then 1 else 0) + Count(items[1..], pick)
  }

  lemma {:induction false} CountAppend<T>(a: seq<T>, b: seq<T>, pick: T -> bool)
    ensures Count(a + b, pick) == Count(a, pick) + Count(b, pick)
  {
    if a == [] {
      assert a + b == b;
    } else {
      assert (a + b)[1..] == a[1..] + b;
      CountAppend(a[1..], b, pick);
    }
  }

  lemma {:induction false} CountsNone<T>(items: seq<T>, pick: T -> bool)
    ensures Count(items, pick) == 0 <==> forall i | 0 <= i < |items| :: !pick(items[i])
  {
    if items != [] { CountsNone(items[1..], pick); }
  }

  lemma CountOne<T>(item: T, pick: T -> bool)
    ensures Count([item], pick) == if pick(item) then 1 else 0
  {
    assert [item][1..] == [];
  }

  /** One frame of this sort for each payload of that sort, and none at the end. */
  ghost predicate Mirrors(endpoint: Endpoint, pick: Frame -> bool, sort: Payload -> bool) {
    && (forall p, st :: Count(Step(endpoint, p, st).0, pick) == if sort(p) then 1 else 0)
    && forall st :: Count(Closing(endpoint, st), pick) == 0
  }

  lemma {:induction false} FoldCounts(endpoint: Endpoint, payloads: seq<Payload>, st: State, pick: Frame -> bool,
                                      sort: Payload -> bool)
    requires Mirrors(endpoint, pick, sort)
    ensures Count(Fold(endpoint, payloads, st).frames, pick) == Count(payloads, sort)
  {
    if payloads != [] {
      var (frames, after) := Step(endpoint, payloads[0], st);
      FoldCounts(endpoint, payloads[1..], after, pick, sort);
      CountAppend(frames, Fold(endpoint, payloads[1..], after).frames, pick);
    }
  }

  lemma ConversionCounts(endpoint: Endpoint, payloads: seq<Payload>, pick: Frame -> bool, sort: Payload -> bool)
    requires Mirrors(endpoint, pick, sort)
    ensures Count(ConvertAll(endpoint, payloads), pick) == Count(payloads, sort)
  {
    var c := Fold(endpoint, payloads, InitialState);
    FoldCounts(endpoint, payloads, InitialState, pick, sort);
    CountAppend(c.frames, Closing(endpoint, c.state), pick);
  }

  // ----- deltas and errors -----

  /** A payload the converters turn into a delta or an error. */
  predicate Carries(p: Payload) {
    Failed(p.value) || DeltaOf(p).Some?
  }

  predicate CarriedBy(f: Frame) {
    f.ChatDelta? || f.ChatError? || f.BlockDelta? || f.MessagesError?
  }

  function CarryCount(payloads: seq<Payload>): nat {
    Count(payloads, Carries)
  }

  /** The delta and error frames of an output. */
  function CarriedFrames(frames: seq<Frame>): nat {
    Count(frames, CarriedBy)
  }

  lemma LastCounted(frames: seq<Frame>, pick: Frame -> bool)
    requires frames != [] && pick(frames[|frames| - 1])
    requires forall i | 0 <= i < |frames| - 1 :: !pick(frames[i])
    ensures Count(frames, pick) == 1
  {
    var opening, last := frames[..|frames| - 1], frames[|frames| - 1];
    assert frames == opening + [last];
    CountsNone(opening, pick);
    CountAppend(opening, [last], pick);
    CountOne(last, pick);
  }

  lemma StepCarries(endpoint: Endpoint, p: Payload, st: State)
    ensures CarriedFrames(Step(endpoint, p, st).0) == if Carries(p) then 1 else 0
  {
    var frames := Step(endpoint, p, st).0;
    if Carries(p) { LastCounted(frames, CarriedBy); } else { CountsNone(frames, CarriedBy); }
  }

  lemma CarriesMirrored(endpoint: Endpoint)
    ensures Mirrors(endpoint, CarriedBy, Carries)
  {
    forall p, st ensures Count(Step(endpoint, p, st).0, CarriedBy) == if Carries(p) then 1 else 0 {
      StepCarries(endpoint, p, st);
    }
    forall st ensures Count(Closing(endpoint, st), CarriedBy) == 0 {
      CountsNone(Closing(endpoint, st), CarriedBy);
    }
  }

  /** A conversion sends one delta or error for each payload that carries one, and none at the end. */
  lemma ConversionCarries(endpoint: Endpoint, payloads: seq<Payload>)
    ensures CarriedFrames(ConvertAll(endpoint, payloads)) == CarryCount(payloads)
  {
    CarriesMirrored(endpoint);
    ConversionCounts(endpoint, payloads, CarriedBy, Carries);
  }

  // ----- what a block loses -----

  /** The payloads of a block after its first. */
  function Rest(parse: Parser, block: string): seq<Payload> {
    var payloads := PayloadsOf(parse, ParseEvents(block));
    if payloads == [] then [] else payloads[1..]
  }

  function Dropped(parse: Parser, blocks: seq<string>): seq<Payload> {
    if blocks == [] then []
    else Dropped(parse, blocks[..|blocks| - 1]) + Rest(parse, blocks[|blocks| - 1])
  }

  lemma DroppedSnoc(parse: Parser, front: seq<string>, block: string)
    ensures Dropped(parse, front + [block]) == Dropped(parse, front) + Rest(parse, block)
  {
    assert (front + [block])[..|front|] == front;
  }

  /** The payloads of a block are the one that is read and those that are dropped. */
  lemma BlockSplits(parse: Parser, blocks: seq<string>)
    returns (front: seq<string>, read: seq<Payload>, rest: seq<Payload>)
    requires blocks != []
    ensures front == blocks[..|blocks| - 1] && rest == Rest(parse, blocks[|blocks| - 1])
    ensures PayloadsOf(parse, EventsOfBlocks(blocks)) == PayloadsOf(parse, EventsOfBlocks(front)) + (read + rest)
    ensures FirstPayloads(parse, blocks) == FirstPayloads(parse, front) + read
    ensures Dropped(parse, blocks) == Dropped(parse, front) + rest
    ensures |read| <= 1 && (read == [] ==> rest == [])
  {
    var block := blocks[|blocks| - 1];
    front := blocks[..|blocks| - 1];
    assert blocks == front + [block];
    DroppedSnoc(parse, front, block);
    read, rest := BlockParts(parse, front, block);
  }

  lemma BlockParts(parse: Parser, front: seq<string>, block: string) returns (read: seq<Payload>, rest: seq<Payload>)
    ensures rest == Rest(parse, block) && |read| <= 1 && (read == [] ==> rest == [])
    ensures PayloadsOf(parse, EventsOfBlocks(front + [block]))
         == PayloadsOf(parse, EventsOfBlocks(front)) + (read + rest)
    ensures FirstPayloads(parse, front + [block]) == FirstPayloads(parse, front) + read
  {
    var more, first := BlockAdds(parse, front, block);
    read, rest := first, if more == [] then [] else more[1..];
    assert more == read + rest;
  }

  lemma {:induction false} CountsSplit(parse: Parser, blocks: seq<string>)
    ensures CarryCount(PayloadsOf(parse, EventsOfBlocks(blocks)))
         == CarryCount(FirstPayloads(parse, blocks)) + CarryCount(Dropped(parse, blocks))
  {
    if blocks != [] {
      var front, read, rest := BlockSplits(parse, blocks);
      CountsSplit(parse, front);
      CountAppend(PayloadsOf(parse, EventsOfBlocks(front)), read + rest, Carries);
      CountAppend(read, rest, Carries);
      CountAppend(FirstPayloads(parse, front), read, Carries);
      CountAppend(Dropped(parse, front), rest, Carries);
    }
  }

  /** No block holds a delta or an error after its first payload. */
  predicate NothingLost(parse: Parser, blocks: seq<string>) {
    forall b | b in blocks :: CarryCount(Rest(parse, b)) == 0
  }

  lemma {:induction false} DroppedCarryNothing(parse: Parser, blocks: seq<string>)
    ensures CarryCount(Dropped(parse, blocks)) == 0 <==> NothingLost(parse, blocks)
  {
    if blocks != [] {
      var front, block := blocks[..|blocks| - 1], blocks[|blocks| - 1];
      assert blocks == front + [block] && block in blocks;
      DroppedCarryNothing(parse, front);
      CountAppend(Dropped(parse, front), Rest(parse, block), Carries);
      assert forall b | b in front :: b in blocks;
      assert forall b | b in blocks :: b in front || b == block;
    }
  }

  /**
   For every lenient parser the stream lacks exactly the deltas and errors that come after the first
   payload of a block. It sends as many as the transcript exactly when no block holds one there, and
   if one does the two outputs differ.
   */
  lemma StreamLosesExactly(parse: Parser, endpoint: Endpoint, body: string)
    requires Lenient(parse)
    ensures var stream, whole := Flatten(StreamOutput(parse, endpoint, body)), TranscriptOutput(parse, endpoint, body);
            var blocks := BlocksOf(body);
            && CarriedFrames(whole) == CarriedFrames(stream) + CarryCount(Dropped(parse, blocks))
            && (CarriedFrames(whole) == CarriedFrames(stream) <==> NothingLost(parse, blocks))
            && (!NothingLost(parse, blocks) ==> !Same(parse, endpoint, body))
  {
    var blocks := BlocksOf(body);
    BlocksHoldTheEvents(body);
    StreamSendsFirstPayloads(parse, endpoint, body);
    TranscriptIsConvertAll(parse, endpoint, body);
    ConversionCarries(endpoint, FirstPayloads(parse, blocks));
    ConversionCarries(endpoint, PayloadsOf(parse, ParseEvents(body)));
    CountsSplit(parse, blocks);
    DroppedCarryNothing(parse, blocks);
  }

  // ----- the text a client reads -----

  lemma TextSnoc(payloads: seq<Payload>, p: Payload)
    ensures SseRebuild.PayloadText(payloads + [p]) == SseRebuild.PayloadText(payloads) + SseRebuild.Contribution(p)
  {
    assert (payloads + [p])[..|payloads|] == payloads;
  }

  lemma {:induction false} TextAppend(a: seq<Payload>, b: seq<Payload>)
    ensures SseRebuild.PayloadText(a + b) == SseRebuild.PayloadText(a) + SseRebuild.PayloadText(b)
  {
    if b == [] {
      assert a + b == a;
    } else {
      var front, last := b[..|b| - 1], b[|b| - 1];
      assert a + b == (a + front) + [last] && b == front + [last];
      TextAppend(a, front);
      TextSnoc(a + front, last);
      TextSnoc(front, last);
      Assoc(SseRebuild.PayloadText(a), SseRebuild.PayloadText(front), SseRebuild.Contribution(last));
    }
  }

  /** No block holds text after its first payload. */
  predicate NoTextLost(parse: Parser, blocks: seq<string>) {
    forall b | b in blocks :: SseRebuild.PayloadText(Rest(parse, b)) == ""
  }

  /** The text of the first payloads against the text of all. */
  ghost predicate TextsCompare(parse: Parser, blocks: seq<string>) {
    var first := SseRebuild.PayloadText(FirstPayloads(parse, blocks));
    var all := SseRebuild.PayloadText(PayloadsOf(parse, EventsOfBlocks(blocks)));
    if NoTextLost(parse, blocks) then first == all else |first| < |all|
  }

  lemma {:induction false} TextsSplit(parse: Parser, blocks: seq<string>)
    ensures TextsCompare(parse, blocks)
  {
    if blocks != [] {
      var front, read, rest := BlockSplits(parse, blocks);
      TextsSplit(parse, front);
      var all, first := PayloadsOf(parse, EventsOfBlocks(front)), FirstPayloads(parse, front);
      TextAppend(all, read + rest);
      TextAppend(read, rest);
      TextAppend(first, read);
      OneBlockMore(parse, blocks);
      var more, lost := SseRebuild.PayloadText(read), SseRebuild.PayloadText(rest);
      assert lost == "" ==> more + lost == more;
    }
  }

  lemma OneBlockMore(parse: Parser, blocks: seq<string>)
    requires blocks != []
    ensures NoTextLost(parse, blocks) <==>
            NoTextLost(parse, blocks[..|blocks| - 1])
            && SseRebuild.PayloadText(Rest(parse, blocks[|blocks| - 1])) == ""
  {
    var front, block := blocks[..|blocks| - 1], blocks[|blocks| - 1];
    assert blocks == front + [block] && block in blocks;
    assert forall b | b in front :: b in blocks;
    assert forall b | b in blocks :: b in front || b == block;
  }

  /** For every lenient parser a client reads the same text from both converters exactly when no text is dropped. */
  lemma TextSurvivesExactly(parse: Parser, endpoint: Endpoint, body: string)
    requires Lenient(parse)
    ensures var stream, whole := Flatten(StreamOutput(parse, endpoint, body)), TranscriptOutput(parse, endpoint, body);
            SseRebuild.StreamedText(stream) == SseRebuild.StreamedText(whole) <==> NoTextLost(parse, BlocksOf(body))
  {
    BlocksHoldTheEvents(body);
    StreamSendsFirstPayloads(parse, endpoint, body);
    TranscriptIsConvertAll(parse, endpoint, body);
    SseRebuild.ConvertedText(endpoint, FirstPayloads(parse, BlocksOf(body)));
    SseRebuild.ConvertedText(endpoint, PayloadsOf(parse, ParseEvents(body)));
    TextsSplit(parse, BlocksOf(body));
  }

  // ----- text framed by CRLF -----

  /** The incremental converter reads such a text as one block: everything after its first payload is dropped. */
  lemma CrlfLosesExactly(parse: Parser, endpoint: Endpoint, body: string)
    requires Lenient(parse) && CrlfFramed(body)
    ensures var stream, whole := Flatten(StreamOutput(parse, endpoint, body)), TranscriptOutput(parse, endpoint, body);
            && CarriedFrames(whole) == CarriedFrames(stream) + CarryCount(Rest(parse, body))
            && (SseRebuild.StreamedText(stream) == SseRebuild.StreamedText(whole) <==>
                SseRebuild.PayloadText(Rest(parse, body)) == "")
            && (CarryCount(Rest(parse, body)) > 0 ==> !Same(parse, endpoint, body))
  {
    StreamLosesExactly(parse, endpoint, body);
    TextSurvivesExactly(parse, endpoint, body);
    CrlfDrops(parse, body);
  }

  lemma CrlfDrops(parse: Parser, body: string)
    requires CrlfFramed(body)
    ensures var blocks := BlocksOf(body);
            && Dropped(parse, blocks) == Rest(parse, body)
            && (NoTextLost(parse, blocks) <==> SseRebuild.PayloadText(Rest(parse, body)) == "")
            && (NothingLost(parse, blocks) <==> CarryCount(Rest(parse, body)) == 0)
  {
    CrlfIsOneBlock(body);
    OneBlock(parse, body);
    if Trim(body) == [] {
      BlankRestHasNoEvent(body);
    } else {
      OnlyBlock(parse, body);
    }
  }

  lemma OnlyBlock(parse: Parser, block: string)
    ensures Dropped(parse, [block]) == Rest(parse, block)
    ensures NoTextLost(parse, [block]) <==> SseRebuild.PayloadText(Rest(parse, block)) == ""
    ensures NothingLost(parse, [block]) <==> CarryCount(Rest(parse, block)) == 0
  {
    DroppedSnoc(parse, [], block);
    assert [] + [block] == [block] && [] + Rest(parse, block) == Rest(parse, block);
    assert block in [block];
  }

  function CrLine(line: string, rest: string): string {
    line + "\r\n" + rest
  }

  lemma CrLineFramed(line: string, rest: string)
    requires OneLine(line) && CrlfFramed(rest)
    ensures CrlfFramed(CrLine(line, rest))
  {
    var s := CrLine(line, rest);
    forall i | 0 <= i < |s| && s[i] == '\n' ensures i > 0 && s[i - 1] == '\r' {
      if i > |line| + 1 { assert rest[i - |line| - 2] == '\n'; }
    }
  }

  lemma CrLineCleaned(line: string, rest: string)
    requires OneLine(line) && TrimEndCr(line) == line
    ensures CleanLines(CrLine(line, rest)) == [line] + CleanLines(rest)
  {
    var ended := line + "\r";
    assert CrLine(line, rest) == ended + "\n" + rest;
    assert ended[..|line|] == line;
    assert TrimEndCr(ended) == line;
    CleanLinesCons(ended, rest);
  }

  /** A named event of one data line, and the blank line after it, with CRLF line ends. */
  function CrEvent(name: string, data: string, rest: string): string {
    CrLine("event: " + name, CrLine("data: " + data, CrLine("", rest)))
  }

  lemma CrEventParsed(name: string, data: string, rest: string)
    requires GoodName(name) && GoodLine(data) && CrlfFramed(rest)
    ensures CrlfFramed(CrEvent(name, data, rest))
    ensures ParseEvents(CrEvent(name, data, rest)) == [Event(Some(name), data)] + ParseEvents(rest)
  {
    var first, second, third := "event: " + name, "data: " + data, CrLine("", rest);
    NameLineParsed(name);
    DataLineParsed(data);
    CrLineFramed("", rest);
    CrLineFramed(second, third);
    CrLineFramed(first, CrLine(second, third));
    CrLineCleaned("", rest);
    CrLineCleaned(second, third);
    CrLineCleaned(first, CrLine(second, third));
    EventScanned(first, second, name, data, CleanLines(rest));
  }

  lemma EventScanned(first: string, second: string, name: string, data: string, rest: seq<string>)
    requires first != [] && StartsWith(first, "event:") && Trim(first[6..]) == name
    requires second != [] && StartsWith(second, "data:") && !StartsWith(second, "event:")
    requires TrimStart(second[5..]) == data
    ensures Scan([first] + ([second] + ([""] + rest)), None, []) == [Event(Some(name), data)] + Scan(rest, None, [])
  {
    ScanCons(first, [second] + ([""] + rest), None, []);
    DataScanned(second, name, data, rest);
  }

  lemma DataScanned(line: string, name: string, data: string, rest: seq<string>)
    requires line != [] && StartsWith(line, "data:") && !StartsWith(line, "event:") && TrimStart(line[5..]) == data
    ensures Scan([line] + ([""] + rest), Some(name), []) == [Event(Some(name), data)] + Scan(rest, None, [])
  {
    ScanCons(line, [""] + rest, Some(name), []);
    assert [] + [data] == [data];
    BlankScanned(name, data, rest);
  }

  lemma BlankScanned(name: string, data: string, rest: seq<string>)
    ensures Scan([""] + rest, Some(name), [data]) == [Event(Some(name), data)] + Scan(rest, None, [])
  {
    ScanCons("", rest, Some(name), [data]);
    assert Join([data], "\n") == data;
  }

  /** The empty text holds no line. */
  lemma NothingParsed()
    ensures CrlfFramed("") && ParseEvents("") == []
  {
    assert CleanLines("") == [];
    assert Flush(None, []) == [];
  }

  lemma PayloadRead(parse: Parser, e: Event, value: Json.Value, rest: seq<Event>)
    requires Lenient(parse) && parse(e.data) == Some(value)
    ensures PayloadsOf(parse, [e] + rest) == [Payload(e.name, value)] + PayloadsOf(parse, rest)
  {
    assert ([e] + rest)[1..] == rest;
  }

  lemma TextOfOne(p: Payload)
    ensures SseRebuild.PayloadText([p]) == SseRebuild.Contribution(p)
  {
    TextSnoc([], p);
    assert [] + [p] == [p] && "" + SseRebuild.Contribution(p) == SseRebuild.Contribution(p);
  }

  /** An object with a text delta and no error, whatever else. */
  predicate Says(value: Json.Value, text: string) {
    !Failed(value) && Json.GetStr(value, "delta") == Some(text)
  }

  /**
   Two text deltas with CRLF line ends, for any parser that reads them as such: a client of the
   transcript converter reads both texts, a client of the incremental one only the first.
   */
  lemma SecondDeltaIsLost(parse: Parser, endpoint: Endpoint, name: string, a: string, b: string, v: Json.Value,
                          w: Json.Value, x: string, y: string)
    requires Lenient(parse) && GoodName(name) && EndsWith(name, "output_text.delta")
    requires GoodLine(a) && parse(a) == Some(v) && Says(v, x)
    requires GoodLine(b) && parse(b) == Some(w) && Says(w, y)
    ensures var body := CrEvent(name, a, CrEvent(name, b, ""));
            && SseRebuild.StreamedText(Flatten(StreamOutput(parse, endpoint, body))) == x
            && SseRebuild.StreamedText(TranscriptOutput(parse, endpoint, body)) == x + y
            && !Same(parse, endpoint, body)
  {
    var p, q, body := Payload(Some(name), v), Payload(Some(name), w), CrEvent(name, a, CrEvent(name, b, ""));
    TwoPayloads(parse, name, a, b, v, w);
    CrlfIsOneBlock(body);
    UnframedStreamSendsOnePayload(parse, endpoint, body);
    FirstPayloadIsFirst(parse, ParseEvents(body));
    SseRebuild.ConvertedText(endpoint, [p]);
    SseRebuild.ConvertedText(endpoint, [p, q]);
    TwoTexts(p, q, x, y);
    SecondCarries(parse, endpoint, body, p, q);
  }

  lemma TwoTexts(p: Payload, q: Payload, x: string, y: string)
    requires NameEndsWith(p, "output_text.delta") && Says(p.value, x)
    requires NameEndsWith(q, "output_text.delta") && Says(q.value, y)
    ensures SseRebuild.PayloadText([p]) == x && SseRebuild.PayloadText([p, q]) == x + y
  {
    TextOfOne(p);
    TextSnoc([p], q);
    assert [p] + [q] == [p, q];
  }

  lemma SecondCarries(parse: Parser, endpoint: Endpoint, body: string, p: Payload, q: Payload)
    requires Lenient(parse) && CrlfFramed(body) && PayloadsOf(parse, ParseEvents(body)) == [p, q] && Carries(q)
    ensures !Same(parse, endpoint, body)
  {
    CrlfLosesExactly(parse, endpoint, body);
    assert Rest(parse, body) == [q];
    CountOne(q, Carries);
  }

  lemma TwoPayloads(parse: Parser, name: string, a: string, b: string, v: Json.Value, w: Json.Value)
    requires Lenient(parse) && GoodName(name)
    requires GoodLine(a) && parse(a) == Some(v) && GoodLine(b) && parse(b) == Some(w)
    ensures var body := CrEvent(name, a, CrEvent(name, b, ""));
            && CrlfFramed(body)
            && PayloadsOf(parse, ParseEvents(body)) == [Payload(Some(name), v), Payload(Some(name), w)]
  {
    NothingParsed();
    CrEventParsed(name, b, "");
    CrEventParsed(name, a, CrEvent(name, b, ""));
    PayloadRead(parse, Event(Some(name), b), w, []);
    PayloadRead(parse, Event(Some(name), a), v, [Event(Some(name), b)] + []);
    var p, q := Payload(Some(name), v), Payload(Some(name), w);
    assert [p] + ([q] + []) == [p, q];
  }

  /** The object with a delta and nothing else. */
  function Delta(key: string, text: string): Json.Value {
    Json.Object([Json.Entry(key, Json.String(text))])
  }

  lemma DeltaSays(key: string, error: string, response: string, text: string)
    requires key == "delta" && error == "error" && response == "response"
    ensures Says(Delta(key, text), text)
  {
    assert key[0] != error[0] && key[0] != response[0];
    assert Json.Lookup([], error) == None && Json.Lookup([], response) == None;
    assert Delta(key, text).entries[1..] == [];
  }

  lemma ExampleName(name: string)
    requires name == "response.output_text.delta"
    ensures GoodName(name) && EndsWith(name, "output_text.delta")
  {
    assert name[0] == 'r' && name[|name| - 1] == 'a';
    assert name == "response." + "output_text.delta";
  }

  lemma ExampleData(data: string)
    requires data == "{\"delta\":\"a\"}" || data == "{\"delta\":\"b\"}"
    ensures GoodLine(data)
  {
    assert data[0] == '{' && data[|data| - 1] == '}';
  }

  const DELTA_NAME := "response.output_text.delta"

  /** For any parser that reads these two objects, a client of the incremental converter never sees the b. */
  lemma CrlfExample(parse: Parser, endpoint: Endpoint)
    requires Lenient(parse)
    requires parse("{\"delta\":\"a\"}") == Some(Delta("delta", "a"))
    requires parse("{\"delta\":\"b\"}") == Some(Delta("delta", "b"))
    ensures var body := CrEvent(DELTA_NAME, "{\"delta\":\"a\"}", CrEvent(DELTA_NAME, "{\"delta\":\"b\"}", ""));
            && SseRebuild.StreamedText(Flatten(StreamOutput(parse, endpoint, body))) == "a"
            && SseRebuild.StreamedText(TranscriptOutput(parse, endpoint, body)) == "a" + "b"
            && !Same(parse, endpoint, body)
  {
    var a, b := "{\"delta\":\"a\"}", "{\"delta\":\"b\"}";
    ExampleName(DELTA_NAME);
    ExampleData(a);
    ExampleData(b);
    DeltaSays("delta", "error", "response", "a");
    DeltaSays("delta", "error", "response", "b");
    SecondDeltaIsLost(parse, endpoint, DELTA_NAME, a, b, Delta("delta", "a"), Delta("delta", "b"), "a", "b");
  }
}
