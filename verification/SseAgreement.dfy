/** Exactly when the incremental and the whole-transcript converter must agree, whatever the JSON parser. */
module SseAgreement {
  import opened Options
  import opened Strings
  import Json
  import opened SseText
  import opened SsePrint
  import opened SseConvert
  import opened SseStream

  // ----- usable events -----

  function StripFeeds(data: string): (r: string)
    ensures r <= data
  {
    if data != [] && data[|data| - 1] == '\n' then StripFeeds(data[..|data| - 1]) else data
  }

  /** Data some lenient parser reads: neither nothing nor the end marker, line feeds at the end aside. */
  predicate UsableData(data: string) {
    StripFeeds(data) != "" && StripFeeds(data) != "[DONE]"
  }

  function UsableCount(events: seq<Event>): nat {
    if events == [] then 0
    else (if UsableData(events[0].data) then 1 else 0) + UsableCount(events[1..])
  }

  predicate AtMostOneUsable(blocks: seq<string>) {
    forall b | b in blocks :: UsableCount(ParseEvents(b)) <= 1
  }

  lemma StripOneMore(data: string)
    ensures StripFeeds(data + "\n") == StripFeeds(data)
  {
    assert (data + "\n")[..|data|] == data;
  }

  lemma {:induction false} LenientStrips(parse: Parser, data: string)
    requires Lenient(parse)
    ensures parse(data) == parse(StripFeeds(data))
  {
    if data != [] && data[|data| - 1] == '\n' {
      var front := data[..|data| - 1];
      assert data == front + "\n";
      LenientStrips(parse, front);
    }
  }

  lemma {:induction false} PayloadsAreUsable(parse: Parser, events: seq<Event>)
    requires Lenient(parse)
    ensures |PayloadsOf(parse, events)| <= UsableCount(events)
  {
    if events != [] {
      LenientStrips(parse, events[0].data);
      PayloadsAreUsable(parse, events[1..]);
    }
  }

  // ----- a parser that tells the converters apart -----

  /** Every usable text is an error. */
  function Probe(data: string): Option<Json.Value> {
    if UsableData(data) then Some(Json.Object([Json.Entry("error", Json.Null)])) else None
  }

  lemma ProbeIsLenient()
    ensures Lenient(Probe)
  {
    forall s: string ensures Probe(s + "\n") == Probe(s) {
      StripOneMore(s);
    }
    var marker := "[DONE]";
    assert marker[|marker| - 1] == ']';
    assert StripFeeds(marker) == marker;
  }

  predicate AllFailed(payloads: seq<Payload>) {
    forall i | 0 <= i < |payloads| :: Failed(payloads[i].value)
  }

  lemma {:induction false} ProbeCounts(events: seq<Event>)
    ensures |PayloadsOf(Probe, events)| == UsableCount(events)
    ensures AllFailed(PayloadsOf(Probe, events))
  {
    if events != [] {
      var e := events[0];
      ProbeCounts(events[1..]);
      assert StripFeeds(e.data) <= e.data;
      if e.data == "[DONE]" { assert e.data[|e.data| - 1] == ']'; }
      assert EventPayload(Probe, e).Some? <==> UsableData(e.data);
    }
  }

  /** Each failed payload is one frame, and nothing is added at the end. */
  lemma {:induction false} FailuresAreFrames(endpoint: Endpoint, payloads: seq<Payload>, st: State)
    requires AllFailed(payloads)
    ensures var c := Fold(endpoint, payloads, st);
            |c.frames| == |payloads| && (c.state.done <==> st.done || payloads != [])
  {
    if payloads != [] {
      var (_, after) := Step(endpoint, payloads[0], st);
      FailuresAreFrames(endpoint, payloads[1..], after);
    }
  }

  lemma {:induction false} AllFailedAppend(a: seq<Payload>, b: seq<Payload>)
    ensures AllFailed(a + b) <==> AllFailed(a) && AllFailed(b)
  {
    assert forall i | 0 <= i < |b| :: b[i] == (a + b)[|a| + i];
    assert forall i | 0 <= i < |a| :: a[i] == (a + b)[i];
  }

  lemma OnePayloadEachSnoc(parse: Parser, front: seq<string>, block: string)
    ensures OnePayloadEach(parse, front + [block]) <==>
            OnePayloadEach(parse, front) && |PayloadsOf(parse, ParseEvents(block))| <= 1
  {
    var blocks := front + [block];
    assert block in blocks;
    assert forall b | b in front :: b in blocks;
    assert forall b | b in blocks :: b in front || b == block;
  }

  /** Fewer payloads are read exactly when some block holds two. */
  ghost predicate ReadsFewer(parse: Parser, blocks: seq<string>) {
    var first, all := FirstPayloads(parse, blocks), PayloadsOf(parse, EventsOfBlocks(blocks));
    && |first| <= |all|
    && (OnePayloadEach(parse, blocks) || 0 < |first| < |all|)
    && (AllFailed(all) ==> AllFailed(first))
  }

  lemma FewerOneMore(parse: Parser, front: seq<string>, block: string, blocks: seq<string>)
    requires ReadsFewer(parse, front) && blocks == front + [block]
    ensures ReadsFewer(parse, blocks)
  {
    var firsts, alls := FirstPayloads(parse, front), PayloadsOf(parse, EventsOfBlocks(front));
    OnePayloadEachSnoc(parse, front, block);
    var more, first := BlockAdds(parse, front, block);
    AllFailedAppend(firsts, first);
    AllFailedAppend(alls, more);
  }

  lemma FewerNone(parse: Parser, blocks: seq<string>)
    requires blocks == []
    ensures ReadsFewer(parse, blocks)
  {
  }

  lemma {:induction false} FewerFirstPayloads(parse: Parser, blocks: seq<string>)
    ensures ReadsFewer(parse, blocks)
  {
    if blocks == [] {
      FewerNone(parse, blocks);
    } else {
      var front, block := blocks[..|blocks| - 1], blocks[|blocks| - 1];
      FewerFirstPayloads(parse, front);
      FewerOneMore(parse, front, block, blocks);
    }
  }

  // ----- the exact condition -----

  /** Both converters send the same frames for a body. */
  predicate Same(parse: Parser, endpoint: Endpoint, body: string) {
    Flatten(StreamOutput(parse, endpoint, body)) == TranscriptOutput(parse, endpoint, body)
  }

  /** They do whatever lenient parser they share. */
  ghost predicate Agree(endpoint: Endpoint, body: string) {
    forall parse: Parser | Lenient(parse) :: Same(parse, endpoint, body)
  }

  /**
   Streamed and whole-transcript conversion agree for all lenient parsers exactly when no block the
   framer cuts out holds two usable events. For one given parser see `SseUnnoticed`.
   */
  lemma AgreeExactly(endpoint: Endpoint, body: string)
    ensures Agree(endpoint, body) <==> AtMostOneUsable(BlocksOf(body))
  {
    if AtMostOneUsable(BlocksOf(body)) {
      AgreeIf(endpoint, body);
    } else {
      ProbeDiffers(endpoint, body);
      DisagreeBy(Probe, endpoint, body);
    }
  }

  lemma DisagreeBy(parse: Parser, endpoint: Endpoint, body: string)
    requires Lenient(parse) && !Same(parse, endpoint, body)
    ensures !Agree(endpoint, body)
  {
  }

  lemma AgreeIf(endpoint: Endpoint, body: string)
    requires AtMostOneUsable(BlocksOf(body))
    ensures Agree(endpoint, body)
  {
    forall parse: Parser | Lenient(parse) ensures Same(parse, endpoint, body) {
      OneUsableAgrees(parse, endpoint, body);
    }
  }

  lemma OneUsableAgrees(parse: Parser, endpoint: Endpoint, body: string)
    requires Lenient(parse) && AtMostOneUsable(BlocksOf(body))
    ensures Same(parse, endpoint, body)
  {
    var blocks := BlocksOf(body);
    forall b | b in blocks ensures |PayloadsOf(parse, ParseEvents(b))| <= 1 {
      PayloadsAreUsable(parse, ParseEvents(b));
    }
    FirstPayloadsAreAll(parse, blocks);
    BlocksHoldTheEvents(body);
    StreamSendsFirstPayloads(parse, endpoint, body);
    TranscriptIsConvertAll(parse, endpoint, body);
  }

  lemma FailuresConverted(endpoint: Endpoint, payloads: seq<Payload>)
    requires AllFailed(payloads) && payloads != []
    ensures |ConvertAll(endpoint, payloads)| == |payloads|
  {
    FailuresAreFrames(endpoint, payloads, InitialState);
  }

  lemma ProbeReadsFewer(blocks: seq<string>) returns (first: seq<Payload>, all: seq<Payload>)
    requires !AtMostOneUsable(blocks)
    ensures first == FirstPayloads(Probe, blocks) && all == PayloadsOf(Probe, EventsOfBlocks(blocks))
    ensures 0 < |first| < |all| && AllFailed(first) && AllFailed(all)
  {
    first, all := FirstPayloads(Probe, blocks), PayloadsOf(Probe, EventsOfBlocks(blocks));
    var b :| b in blocks && UsableCount(ParseEvents(b)) > 1;
    ProbeCounts(ParseEvents(b));
    ProbeCounts(EventsOfBlocks(blocks));
    FewerFirstPayloads(Probe, blocks);
  }

  lemma ProbeDiffers(endpoint: Endpoint, body: string)
    requires !AtMostOneUsable(BlocksOf(body))
    ensures Lenient(Probe) && !Same(Probe, endpoint, body)
  {
    ProbeIsLenient();
    var first, all := ProbeReadsFewer(BlocksOf(body));
    FailuresConverted(endpoint, first);
    FailuresConverted(endpoint, all);
    BlocksHoldTheEvents(body);
    StreamSendsFirstPayloads(Probe, endpoint, body);
    TranscriptIsConvertAll(Probe, endpoint, body);
  }

  // ----- text framed by CRLF -----

  /** Every line feed follows a carriage return. */
  predicate CrlfFramed(s: string) {
    forall i | 0 <= i < |s| && s[i] == '\n' :: i > 0 && s[i - 1] == '\r'
  }

  lemma CrlfIsOneBlock(body: string)
    requires CrlfFramed(body)
    ensures BlankLine(body) == |body|
    ensures AtMostOneUsable(BlocksOf(body)) <==> UsableCount(ParseEvents(body)) <= 1
  {
    assert !BlankAt(body, BlankLine(body));
    OneBlock(Probe, body);
    if Trim(body) == [] {
      BlankRestHasNoEvent(body);
      assert UsableCount([]) == 0;
    } else {
      OneBlockUsable(body);
    }
  }

  lemma OneBlockUsable(block: string)
    ensures AtMostOneUsable([block]) <==> UsableCount(ParseEvents(block)) <= 1
  {
    assert block in [block];
  }

  /** Such a text is one block, so the converters agree for all parsers only if it holds one usable event. */
  lemma CrlfAgreesExactly(endpoint: Endpoint, body: string)
    requires CrlfFramed(body)
    ensures Agree(endpoint, body) <==> UsableCount(ParseEvents(body)) <= 1
  {
    CrlfIsOneBlock(body);
    AgreeExactly(endpoint, body);
  }
}
