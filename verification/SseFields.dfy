/** What each field of the rebuilt answer holds, in terms of the upstream events alone. */
module SseFields {
  import opened Options
  import opened Json
  import opened SseConvert
  import opened SseRebuild
  import SseFrames
  import Strings
  import SseWire

  // ----- what the events give -----

  const KEYS := {"id", "object", "model", "status", "usage", "error", "output", "created_at"}

  /** The object an event's fields are taken from: its response, or itself if it looks like one. */
  function Source(p: Payload): Option<Value> {
    match (p.value.Get("response"), p.value.Get("id"), p.value.Get("status"), p.value.Get("output"))
    case (Some(response), _, _, _) => Some(response)
    case (None, None, None, None) => None
    case _ => Some(p.value)
  }

  function Given(p: Payload, key: string): Option<Value> {
    match Source(p)
    case Some(source) => source.Get(key)
    case None => None
  }

  /** The value of a field in the last event that gives one. */
  function LastGiven(payloads: seq<Payload>, key: string): (field: Option<Value>)
    ensures field.None? <==> forall j | 0 <= j < |payloads| :: Given(payloads[j], key).None?
    ensures field.Some? ==>
              exists j | 0 <= j < |payloads| ::
                Given(payloads[j], key) == field && forall i | j < i < |payloads| :: Given(payloads[i], key).None?
  {
    if payloads == [] then None
    else
      var last := payloads[|payloads| - 1];
      if Given(last, key).Some? then Given(last, key) else LastGiven(payloads[..|payloads| - 1], key)
  }

  /** The item of an event that reports a finished one. */
  predicate Finishes(p: Payload) {
    p.name.Some? && |p.name.value| >= |"output_item.done"|
    && p.name.value[|p.name.value| - |"output_item.done"|..] == "output_item.done" && p.value.Get("item").Some?
  }

  function FinishedItem(p: Payload): seq<Value> {
    if Finishes(p) then [p.value.Get("item").value] else []
  }

  /** The finished items, in the order of their events. */
  function FinishedItems(payloads: seq<Payload>): seq<Value> {
    if payloads == [] then [] else FinishedItem(payloads[0]) + FinishedItems(payloads[1..])
  }

  function StringUnder(v: Value, key: string): string {
    match v.Get(key)
    case Some(String(text)) => text
    case _ => ""
  }

  predicate HasString(v: Value, key: string) {
    match v.Get(key)
    case Some(field) => field.String?
    case None => false
  }

  function Deltas(payloads: seq<Payload>): string {
    if payloads == [] then "" else StringUnder(payloads[0].value, "delta") + Deltas(payloads[1..])
  }

  /** The text an event can begin with: its delta, or its text if it has no delta. */
  function Beginning(p: Payload): string {
    if HasString(p.value, "delta") then StringUnder(p.value, "delta") else StringUnder(p.value, "text")
  }

  /** The text of the answer: what the first event with any begins, and the deltas of all after it. */
  function WholeText(payloads: seq<Payload>): string {
    if payloads == [] then ""
    else if Beginning(payloads[0]) == "" then WholeText(payloads[1..])
    else Beginning(payloads[0]) + Deltas(payloads[1..])
  }

  predicate AllValid(payloads: seq<Payload>) {
    forall i | 0 <= i < |payloads| :: Json.Valid(payloads[i].value)
  }

  // ----- merging one object -----

  lemma {:induction false} LookupSnoc(front: seq<Entry>, last: Entry, key: string)
    requires DistinctKeys(front + [last])
    ensures Lookup(front + [last], key) == if last.key == key then Some(last.value) else Lookup(front, key)
  {
    var entries := front + [last];
    if front != [] {
      assert entries[1..] == front[1..] + [last];
      assert forall i | 0 <= i < |entries| - 1 :: entries[1..][i] == entries[i + 1];
      LookupSnoc(front[1..], last, key);
      assert entries[0] == front[0] && entries[|front|] == last;
    }
  }

  /** What is given of a known key takes the place of what was there; anything else stays. */
  predicate TakesOver(target: Fields, after: Fields, given: Option<Value>, known: bool, key: string) {
    if known && given.Some? then key in after && after[key] == given.value
    else (key in after <==> key in target) && (key in target ==> after[key] == target[key])
  }

  lemma OneTakesOver(target: Fields, before: Fields, given: Option<Value>, known: bool, key: string,
                     last: Entry, lastKnown: bool)
    requires TakesOver(target, before, given, known, key) && (last.key == key ==> lastKnown == known)
    ensures TakesOver(target, if lastKnown then before[last.key := last.value] else before,
                      if last.key == key then Some(last.value) else given, known, key)
  {
  }

  lemma KnownKeys(key: string)
    ensures key in KEYS <==> Merged(key)
  {
  }

  lemma {:induction false} MergeTakesOver(target: Fields, entries: seq<Entry>, key: string)
    requires DistinctKeys(entries)
    ensures TakesOver(target, MergeEntries(target, entries), Lookup(entries, key), key in KEYS, key)
  {
    if entries != [] {
      var front, last := entries[..|entries| - 1], entries[|entries| - 1];
      assert entries == front + [last];
      assert forall i | 0 <= i < |front| :: front[i] == entries[i];
      MergeTakesOver(target, front, key);
      LookupSnoc(front, last, key);
      KnownKeys(key);
      OneTakesOver(target, MergeEntries(target, front), Lookup(front, key), key in KEYS, key, last, Merged(last.key));
    }
  }

  lemma SourceIsMerged(p: Payload)
    ensures Source(p) == MergeSource(p)
  {
  }

  lemma SourceIsValid(p: Payload)
    requires Json.Valid(p.value)
    ensures Source(p).Some? && Source(p).value.Object? ==> DistinctKeys(Source(p).value.entries)
  {
    if p.value.Object? { SseWire.LookupValid(p.value.entries, "response"); }
  }

  /** The response after one more event. */
  lemma StepTakesOver(st: Rebuild, p: Payload, key: string)
    requires Json.Valid(p.value)
    ensures var after := RebuildStep(st, p).response;
            if key in KEYS && Given(p, key).Some? then key in after && after[key] == Given(p, key).value
            else (key in after <==> key in st.response) && (key in st.response ==> after[key] == st.response[key])
  {
    SourceIsMerged(p);
    SourceIsValid(p);
    if Source(p).Some? && Source(p).value.Object? {
      MergeTakesOver(st.response, Source(p).value.entries, key);
    }
  }

  /** What the merged response holds under a key: the field given last, and nothing else but its kind. */
  predicate Holds(response: Fields, payloads: seq<Payload>, key: string) {
    match (key in KEYS, LastGiven(payloads, key))
    case (true, Some(field)) => key in response && response[key] == field
    case _ => (key in response <==> key == "object") && (key == "object" ==> response[key] == Value.String("response"))
  }

  lemma LastGivenSnoc(front: seq<Payload>, p: Payload, key: string)
    ensures LastGiven(front + [p], key) == if Given(p, key).Some? then Given(p, key) else LastGiven(front, key)
  {
    assert (front + [p])[..|front|] == front;
  }

  /** Later values win: each merged field is the one given last, and no other field is kept. */
  lemma {:induction false} FieldsAreLastGiven(payloads: seq<Payload>, key: string)
    requires AllValid(payloads)
    ensures Holds(RebuildAll(payloads).response, payloads, key)
  {
    if payloads != [] {
      var front, last := payloads[..|payloads| - 1], payloads[|payloads| - 1];
      assert payloads == front + [last];
      assert forall i | 0 <= i < |front| :: front[i] == payloads[i];
      FieldsAreLastGiven(front, key);
      StepTakesOver(RebuildAll(front), last, key);
      LastGivenSnoc(front, last, key);
    }
  }

  lemma {:induction false} ItemsSnoc(front: seq<Payload>, p: Payload)
    ensures FinishedItems(front + [p]) == FinishedItems(front) + FinishedItem(p)
  {
    if front == [] {
      assert front + [p] == [p] && [p][1..] == [];
      assert FinishedItem(p) + [] == [] + FinishedItem(p);
    } else {
      assert (front + [p])[1..] == front[1..] + [p];
      ItemsSnoc(front[1..], p);
      Strings.Assoc(FinishedItem(front[0]), FinishedItems(front[1..]), FinishedItem(p));
    }
  }

  /** The items kept are the finished ones, in order of arrival. */
  lemma {:induction false} ItemsAreFinished(payloads: seq<Payload>)
    ensures RebuildAll(payloads).items == FinishedItems(payloads)
  {
    if payloads != [] {
      var front, last := payloads[..|payloads| - 1], payloads[|payloads| - 1];
      assert payloads == front + [last];
      ItemsAreFinished(front);
      ItemsSnoc(front, last);
      assert FinishedItems(front) + [] == FinishedItems(front);
    }
  }

  lemma {:induction false} DeltasSnoc(front: seq<Payload>, p: Payload)
    ensures Deltas(front + [p]) == Deltas(front) + StringUnder(p.value, "delta")
  {
    if front == [] {
      assert front + [p] == [p] && [p][1..] == [];
      assert StringUnder(p.value, "delta") + "" == "" + StringUnder(p.value, "delta");
    } else {
      assert (front + [p])[1..] == front[1..] + [p];
      DeltasSnoc(front[1..], p);
    }
  }

  lemma {:induction false} WholeTextSnoc(front: seq<Payload>, p: Payload)
    ensures WholeText(front + [p])
         == if WholeText(front) == "" then Beginning(p) else WholeText(front) + StringUnder(p.value, "delta")
  {
    if front == [] {
      assert front + [p] == [p] && [p][1..] == [];
      assert Beginning(p) + "" == Beginning(p);
    } else {
      assert (front + [p])[1..] == front[1..] + [p];
      if Beginning(front[0]) == "" { WholeTextSnoc(front[1..], p); } else { DeltasSnoc(front[1..], p); }
    }
  }

  lemma AddedText(text: string, p: Payload)
    ensures AddText(text, p) == if text == "" then Beginning(p) else text + StringUnder(p.value, "delta")
  {
    assert "" + Beginning(p) == Beginning(p) && text + "" == text;
  }

  lemma {:induction false} TextIsWhole(payloads: seq<Payload>)
    ensures RebuildAll(payloads).text == WholeText(payloads)
  {
    if payloads != [] {
      var front, last := payloads[..|payloads| - 1], payloads[|payloads| - 1];
      assert payloads == front + [last];
      TextIsWhole(front);
      WholeTextSnoc(front, last);
      AddedText(RebuildAll(front).text, last);
    }
  }

  // ----- the finished answer -----

  /** The field given last, and the default where none was given. */
  predicate GivenOr(answer: Fields, payloads: seq<Payload>, key: string, default: Value) {
    key in answer && answer[key] == match LastGiven(payloads, key) case Some(field) => field case None => default
  }

  /** An output that stands for an answer: a list with something in it. */
  predicate Full(output: Option<Value>) {
    output.Some? && output.value.Array? && output.value.items != []
  }

  /** One assistant message with one text part. */
  ghost predicate IsTextMessage(output: Value, text: string) {
    && output.Array? && |output.items| == 1
    && SseFrames.Has(output.items[0], "type", Value.String("message"))
    && SseFrames.Has(output.items[0], "role", Value.String("assistant"))
    && exists part ::
         && SseFrames.Has(output.items[0], "content", Value.Array([part]))
         && SseFrames.Has(part, "type", Value.String("output_text")) && SseFrames.Has(part, "text", Value.String(text))
  }

  /** The output: what upstream gave if it holds anything, else the finished items, else the text. */
  ghost predicate OutputIs(answer: Fields, payloads: seq<Payload>) {
    var given, items, text := LastGiven(payloads, "output"), FinishedItems(payloads), WholeText(payloads);
    "output" in answer
    && if Full(given) then Some(answer["output"]) == given
       else if items != [] then answer["output"] == Value.Array(items)
       else if given.None? || text != "" then IsTextMessage(answer["output"], text)
       else Some(answer["output"]) == given
  }

  lemma TextOutputIs(text: string)
    ensures IsTextMessage(TextOutput(text), text)
  {
    var part := Value.Object([Entry("type", Value.String("output_text")), Entry("text", Value.String(text))]);
    var message := TextOutput(text).items[0];
    SseFrames.TypeAndText(part, "output_text", text);
    assert |"type"| == 4 && |"role"| == 4 && |"content"| == 7 && "type"[0] == 't' && "role"[0] == 'r';
    Json.LookupAt(message.entries, "type", 0);
    Json.LookupAt(message.entries, "role", 1);
    Json.LookupAt(message.entries, "content", 2);
    assert SseFrames.Has(message, "content", Value.Array([part]));
  }

  lemma KeysApart()
    ensures "id" != "model" && "id" != "status" && "id" != "usage" && "id" != "error" && "id" != "object"
    ensures "model" != "status" && "model" != "usage" && "model" != "error" && "model" != "object"
    ensures "status" != "usage" && "status" != "error" && "status" != "object"
    ensures "usage" != "error" && "usage" != "object" && "error" != "object"
    ensures "output" != "id" && "output" != "model" && "output" != "status" && "output" != "usage"
    ensures "output" != "error" && "output" != "object"
  {
    assert |"id"| == 2 && |"model"| == 5 && |"status"| == 6 && |"usage"| == 5 && |"error"| == 5;
    assert "model"[0] == 'm' && "usage"[0] == 'u' && "error"[0] == 'e' && "status"[0] == 's';
    assert "output"[0] == 'o' && "object"[0] == 'o' && "output"[1] == 'u' && "object"[1] == 'b';
    assert |"output"| == 6 && |"object"| == 6;
  }

  /** A field stays, or gets its default. */
  predicate Kept(response: Fields, answer: Fields, key: string, default: Option<Value>) {
    if key in response then key in answer && answer[key] == response[key]
    else match default
      case Some(value) => key in answer && answer[key] == value
      case None => key !in answer
  }

  lemma Inserted(r: Fields, before: Fields, key: string, default: Option<Value>, k: string, v: Value)
    requires Kept(r, before, key, default) && (key == k ==> default == None)
    ensures Kept(r, OrInsert(before, k, v), key, if key == k then Some(v) else default)
  {
  }

  lemma FiveInserted(r: Fields, k1: string, v1: Value, k2: string, v2: Value, k3: string, v3: Value,
                     k4: string, v4: Value, k5: string, v5: Value, key: string)
    requires k1 != k2 && k1 != k3 && k1 != k4 && k1 != k5 && k2 != k3 && k2 != k4 && k2 != k5
    requires k3 != k4 && k3 != k5 && k4 != k5
    ensures var out := OrInsert(OrInsert(OrInsert(OrInsert(OrInsert(r, k1, v1), k2, v2), k3, v3), k4, v4), k5, v5);
            Kept(r, out, key, if key == k1 then Some(v1) else if key == k2 then Some(v2) else if key == k3 then Some(v3)
                              else if key == k4 then Some(v4) else if key == k5 then Some(v5) else None)
  {
    var one := OrInsert(r, k1, v1);
    var two := OrInsert(one, k2, v2);
    var three := OrInsert(two, k3, v3);
    var four := OrInsert(three, k4, v4);
    var d1 := if key == k1 then Some(v1) else None;
    var d2 := if key == k2 then Some(v2) else d1;
    var d3 := if key == k3 then Some(v3) else d2;
    var d4 := if key == k4 then Some(v4) else d3;
    Inserted(r, r, key, None, k1, v1);
    Inserted(r, one, key, d1, k2, v2);
    Inserted(r, two, key, d2, k3, v3);
    Inserted(r, three, key, d3, k4, v4);
    Inserted(r, four, key, d4, k5, v5);
  }

  /** What the finish inserts under a key. */
  function DefaultOf(key: string): Option<Value> {
    if key == "id" then Some(Value.String("resp_kou_router"))
    else if key == "status" then Some(Value.String("completed"))
    else if key == "model" || key == "usage" || key == "error" then Some(Value.Null)
    else None
  }

  lemma FinishInserts(st: Rebuild, key: string)
    ensures Kept(WithOutput(st), Finish(st), key, DefaultOf(key))
  {
    KeysApart();
    FiveInserted(WithOutput(st), "id", Value.String("resp_kou_router"), "model", Value.Null,
                 "status", Value.String("completed"), "usage", Value.Null, "error", Value.Null, key);
  }

  lemma FinishKeeps(st: Rebuild)
    ensures var r, answer := WithOutput(st), Finish(st);
            && Kept(r, answer, "object", None) && Kept(r, answer, "output", None)
            && Kept(r, answer, "id", Some(Value.String("resp_kou_router")))
            && Kept(r, answer, "model", Some(Value.Null))
            && Kept(r, answer, "status", Some(Value.String("completed")))
            && Kept(r, answer, "usage", Some(Value.Null))
            && Kept(r, answer, "error", Some(Value.Null))
  {
    KeysApart();
    FinishInserts(st, "object");
    FinishInserts(st, "output");
    FinishInserts(st, "id");
    FinishInserts(st, "model");
    FinishInserts(st, "status");
    FinishInserts(st, "usage");
    FinishInserts(st, "error");
  }

  lemma FinishLeaves(st: Rebuild, key: string)
    requires key !in {"id", "model", "status", "usage", "error"}
    ensures Kept(WithOutput(st), Finish(st), key, None)
  {
    FinishInserts(st, key);
  }

  lemma OutputLeaves(st: Rebuild, key: string)
    requires key != "output"
    ensures key in WithOutput(st) <==> key in st.response
    ensures key in st.response ==> WithOutput(st)[key] == st.response[key]
  {
  }

  lemma OutputFills(st: Rebuild)
    ensures var r, out := st.response, WithOutput(st);
            && (forall key | key != "output" :: (key in out <==> key in r) && (key in r ==> out[key] == r[key]))
            && (if Full(if "output" in r then Some(r["output"]) else None) then
                  "output" in out && out["output"] == r["output"]
                else if st.items != [] then "output" in out && out["output"] == Value.Array(st.items)
                else if "output" !in r || st.text != "" then "output" in out && out["output"] == TextOutput(st.text)
                else "output" in out && out["output"] == r["output"])
  {
  }

  lemma OutputFollows(st: Rebuild, payloads: seq<Payload>)
    requires Holds(st.response, payloads, "output")
    requires st.items == FinishedItems(payloads) && st.text == WholeText(payloads)
    ensures OutputIs(WithOutput(st), payloads)
  {
    KeysApart();
    OutputFills(st);
    TextOutputIs(st.text);
  }

  lemma FieldFollows(st: Rebuild, payloads: seq<Payload>, key: string, default: Value)
    requires key in KEYS && key != "object" && key != "output"
    requires Holds(st.response, payloads, key) && Kept(WithOutput(st), Finish(st), key, Some(default))
    ensures GivenOr(Finish(st), payloads, key, default)
  {
    OutputFills(st);
  }

  /**
   The rebuilt answer, field by field: every field upstream gave is the one it gave last; id, model,
   status, usage and error have a default where it gave none; and the output follows `OutputIs`.
   */
  lemma AnswerIsLastGiven(payloads: seq<Payload>)
    requires AllValid(payloads)
    ensures var answer := Finish(RebuildAll(payloads));
            && GivenOr(answer, payloads, "object", Value.String("response"))
            && GivenOr(answer, payloads, "id", Value.String("resp_kou_router"))
            && GivenOr(answer, payloads, "model", Value.Null)
            && GivenOr(answer, payloads, "status", Value.String("completed"))
            && GivenOr(answer, payloads, "usage", Value.Null)
            && GivenOr(answer, payloads, "error", Value.Null)
            && OutputIs(answer, payloads)
  {
    var st := RebuildAll(payloads);
    KeysApart();
    ItemsAreFinished(payloads);
    TextIsWhole(payloads);
    FinishKeeps(st);
    FieldsAreLastGiven(payloads, "output");
    OutputFollows(st, payloads);
    FieldsAreLastGiven(payloads, "object");
    OutputFills(st);
    FieldsAreLastGiven(payloads, "id");
    FieldFollows(st, payloads, "id", Value.String("resp_kou_router"));
    FieldsAreLastGiven(payloads, "model");
    FieldFollows(st, payloads, "model", Value.Null);
    FieldsAreLastGiven(payloads, "status");
    FieldFollows(st, payloads, "status", Value.String("completed"));
    FieldsAreLastGiven(payloads, "usage");
    FieldFollows(st, payloads, "usage", Value.Null);
    FieldsAreLastGiven(payloads, "error");
    FieldFollows(st, payloads, "error", Value.Null);
  }

  /** It holds no field upstream did not give, but those and the creation time. */
  lemma AnswerHasNoMore(payloads: seq<Payload>, key: string)
    requires AllValid(payloads) && key in Finish(RebuildAll(payloads))
    requires key !in {"id", "model", "status", "usage", "error", "output", "object"}
    ensures key == "created_at" && Some(Finish(RebuildAll(payloads))[key]) == LastGiven(payloads, key)
  {
    FieldsAreLastGiven(payloads, key);
    FinishLeaves(RebuildAll(payloads), key);
    OutputLeaves(RebuildAll(payloads), key);
  }
}
