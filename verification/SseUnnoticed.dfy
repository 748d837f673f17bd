/**
 When payloads can be dropped from a conversion without a trace: the exact condition in either client
 format, and with it the one for the two converters to send the same for a given body and parser.
 */
module SseUnnoticed {
  import opened Options
  import opened Strings
  import Json
  import opened SseText
  import opened SseConvert
  import opened SseStream
  import opened SseAgreement
  import opened SseDropped

  // ----- payloads kept and dropped -----

  datatype Seen = Seen(payload: Payload, kept: bool)

  function All(seen: seq<Seen>): seq<Payload> {
    if seen == [] then [] else All(seen[..|seen| - 1]) + [seen[|seen| - 1].payload]
  }

  function Kept(seen: seq<Seen>): seq<Payload> {
    if seen == [] then []
    else Kept(seen[..|seen| - 1]) + IfKept(seen[|seen| - 1])
  }

  function IfKept(s: Seen): seq<Payload> {
    if s.kept then [s.payload] else []
  }

  lemma SeenSnoc(front: seq<Seen>, s: Seen)
    ensures All(front + [s]) == All(front) + [s.payload]
    ensures Kept(front + [s]) == Kept(front) + IfKept(s)
  {
    assert (front + [s])[..|front|] == front;
  }

  /** No payload of this sort is dropped. */
  predicate NoneDropped(seen: seq<Seen>, sort: Payload -> bool) {
    forall i | 0 <= i < |seen| && !seen[i].kept :: !sort(seen[i].payload)
  }

  lemma NoneDroppedSnoc(front: seq<Seen>, s: Seen, sort: Payload -> bool)
    ensures NoneDropped(front + [s], sort) <==> NoneDropped(front, sort) && (s.kept || !sort(s.payload))
  {
    var seen := front + [s];
    assert seen[|front|] == s;
    assert forall i | 0 <= i < |front| :: seen[i] == front[i];
  }

  lemma {:induction false} KeptCounts(seen: seq<Seen>, sort: Payload -> bool)
    ensures Count(Kept(seen), sort) <= Count(All(seen), sort)
    ensures Count(Kept(seen), sort) == Count(All(seen), sort) <==> NoneDropped(seen, sort)
  {
    if seen != [] {
      var front, last := seen[..|seen| - 1], seen[|seen| - 1];
      assert seen == front + [last];
      KeptCounts(front, sort);
      NoneDroppedSnoc(front, last, sort);
      CountAppend(All(front), [last.payload], sort);
      CountAppend(Kept(front), IfKept(last), sort);
      CountOne(last.payload, sort);
    }
  }

  /** Both conversions are the same. */
  predicate SameConversion(endpoint: Endpoint, seen: seq<Seen>) {
    ConvertAll(endpoint, Kept(seen)) == ConvertAll(endpoint, All(seen))
  }

  lemma SameDropsNone(endpoint: Endpoint, seen: seq<Seen>, pick: Frame -> bool, sort: Payload -> bool)
    requires Mirrors(endpoint, pick, sort) && SameConversion(endpoint, seen)
    ensures NoneDropped(seen, sort)
  {
    ConversionCounts(endpoint, All(seen), pick, sort);
    ConversionCounts(endpoint, Kept(seen), pick, sort);
    KeptCounts(seen, sort);
  }

  /** A payload that ends the stream regularly. */
  predicate Completes(p: Payload) {
    !Carries(p) && NameEndsWith(p, "completed")
  }

  predicate Emits(p: Payload) {
    Carries(p) || Completes(p)
  }

  // ----- the chat format -----

  /** The id and the model named so far. */
  function Known(payloads: seq<Payload>): State {
    if payloads == [] then InitialState
    else UpdateState(payloads[|payloads| - 1].value, Known(payloads[..|payloads| - 1]))
  }

  function ChatNames(st: State): (string, string) {
    (OrElse(st.id, "chatcmpl_kou_router"), OrElse(st.model, ""))
  }

  predicate Knows(st: State, known: State) {
    st.id == known.id && st.model == known.model
  }

  lemma UpdateKnows(p: Payload, st: State, known: State)
    requires Knows(st, known)
    ensures Knows(UpdateState(p.value, st), UpdateState(p.value, known))
  {
  }

  lemma StepKnows(endpoint: Endpoint, p: Payload, st: State, known: State)
    requires Knows(st, known)
    ensures Knows(Step(endpoint, p, st).1, UpdateState(p.value, known))
  {
    UpdateKnows(p, st, known);
    assert Knows(Step(endpoint, p, st).1, UpdateState(p.value, st));
  }

  lemma {:induction false} FoldKnows(endpoint: Endpoint, payloads: seq<Payload>)
    ensures Knows(Fold(endpoint, payloads, InitialState).state, Known(payloads))
  {
    if payloads != [] {
      var front, last := payloads[..|payloads| - 1], payloads[|payloads| - 1];
      assert payloads == front + [last];
      FoldKnows(endpoint, front);
      FoldOne(endpoint, front, Some(last), InitialState);
      StepKnows(endpoint, last, Fold(endpoint, front, InitialState).state, Known(front));
    }
  }

  /** A delta or a completion that is kept shows the id and model it would show if nothing before were dropped. */
  predicate Alike(before: seq<Seen>, s: Seen) {
    s.kept && Emits(s.payload) && !Failed(s.payload.value) ==>
      ChatNames(UpdateState(s.payload.value, Known(Kept(before))))
      == ChatNames(UpdateState(s.payload.value, Known(All(before))))
  }

  predicate NamesAlike(seen: seq<Seen>) {
    forall i | 0 <= i < |seen| :: Alike(seen[..i], seen[i])
  }

  lemma NamesAlikeSnoc(front: seq<Seen>, s: Seen)
    ensures NamesAlike(front + [s]) <==> NamesAlike(front) && Alike(front, s)
  {
    var seen := front + [s];
    assert seen[..|front|] == front && seen[|front|] == s;
    assert forall i | 0 <= i < |front| :: seen[i] == front[i] && seen[..i] == front[..i];
  }

  predicate ChatEmitted(f: Frame) {
    f.ChatDelta? || f.ChatError? || f.ChatFinish?
  }

  lemma ChatStepEmits(p: Payload, st: State)
    ensures Count(ChatStep(p, st).0, ChatEmitted) == if Emits(p) then 1 else 0
  {
    var frames := ChatStep(p, st).0;
    if Emits(p) {
      var rest := frames[1..];
      assert frames == [frames[0]] + rest;
      CountAppend([frames[0]], rest, ChatEmitted);
      CountOne(frames[0], ChatEmitted);
      CountsNone(rest, ChatEmitted);
    } else {
      CountsNone(frames, ChatEmitted);
    }
  }

  lemma ChatMirrored()
    ensures Mirrors(ChatCompletions, ChatEmitted, Emits)
  {
    forall p, st ensures Count(Step(ChatCompletions, p, st).0, ChatEmitted) == if Emits(p) then 1 else 0 {
      ChatStepEmits(p, st);
    }
    forall st ensures Count(Closing(ChatCompletions, st), ChatEmitted) == 0 {
      CountsNone(Closing(ChatCompletions, st), ChatEmitted);
    }
  }

  /** One step from two states that differ in the names they know. */
  lemma ChatStepsCompared(p: Payload, s: State, t: State)
    requires s.done == t.done
    ensures var (f, s') := ChatStep(p, s);
            var (g, t') := ChatStep(p, t);
            && |f| == |g| && s'.done == t'.done
            && (f == g <==> (Emits(p) && !Failed(p.value) ==>
                             ChatNames(UpdateState(p.value, s)) == ChatNames(UpdateState(p.value, t))))
            && (!Emits(p) ==> f == [] && s'.done == s.done)
  {
  }

  lemma SamePrefixes<T>(a: seq<T>, b: seq<T>, f: seq<T>, g: seq<T>)
    requires |a| == |b|
    ensures a + f == b + g <==> a == b && f == g
  {
    if a + f == b + g {
      assert (a + f)[..|a|] == a && (b + g)[..|b|] == b;
      assert (a + f)[|a|..] == f && (b + g)[|b|..] == g;
    }
  }

  lemma {:induction false} ChatAligned(seen: seq<Seen>)
    requires NoneDropped(seen, Emits)
    ensures var all := Fold(ChatCompletions, All(seen), InitialState);
            var kept := Fold(ChatCompletions, Kept(seen), InitialState);
            && |kept.frames| == |all.frames| && kept.state.done == all.state.done
            && (kept.frames == all.frames <==> NamesAlike(seen))
  {
    if seen != [] {
      var front, last := seen[..|seen| - 1], seen[|seen| - 1];
      assert seen == front + [last];
      NoneDroppedSnoc(front, last, Emits);
      NamesAlikeSnoc(front, last);
      ChatAligned(front);
      ChatAlignedOne(front, last);
    }
  }

  lemma ChatAlignedOne(front: seq<Seen>, s: Seen)
    requires s.kept || !Emits(s.payload)
    requires var all := Fold(ChatCompletions, All(front), InitialState);
             var kept := Fold(ChatCompletions, Kept(front), InitialState);
             |kept.frames| == |all.frames| && kept.state.done == all.state.done
    ensures var all := Fold(ChatCompletions, All(front + [s]), InitialState);
            var kept := Fold(ChatCompletions, Kept(front + [s]), InitialState);
            && |kept.frames| == |all.frames| && kept.state.done == all.state.done
            && (kept.frames == all.frames <==>
                Fold(ChatCompletions, Kept(front), InitialState).frames
                == Fold(ChatCompletions, All(front), InitialState).frames
                && Alike(front, s))
  {
    var p, e := s.payload, ChatCompletions;
    var all, kept := Fold(e, All(front), InitialState), Fold(e, Kept(front), InitialState);
    SeenSnoc(front, s);
    FoldOne(e, All(front), Some(p), InitialState);
    var (f, all') := Step(e, p, all.state);
    assert Fold(e, All(front + [s]), InitialState) == Converted(all.frames + f, all');
    ChatStepsCompared(p, kept.state, all.state);
    if s.kept {
      FoldOne(e, Kept(front), Some(p), InitialState);
      var (g, kept') := Step(e, p, kept.state);
      assert Fold(e, Kept(front + [s]), InitialState) == Converted(kept.frames + g, kept');
      SamePrefixes(kept.frames, all.frames, g, f);
      FoldKnows(e, Kept(front));
      FoldKnows(e, All(front));
      SameNames(p, kept.state, Known(Kept(front)));
      SameNames(p, all.state, Known(All(front)));
    } else {
      assert Kept(front) + [] == Kept(front) && all.frames + f == all.frames;
    }
  }

  lemma SameNames(p: Payload, st: State, known: State)
    requires Knows(st, known)
    ensures ChatNames(UpdateState(p.value, st)) == ChatNames(UpdateState(p.value, known))
  {
  }

  /**
   Dropping payloads from a chat stream goes unnoticed exactly when they send nothing and no id or
   model they name is missing later.
   */
  lemma ChatUnnoticedExactly(seen: seq<Seen>)
    ensures SameConversion(ChatCompletions, seen) <==> NoneDropped(seen, Emits) && NamesAlike(seen)
  {
    if SameConversion(ChatCompletions, seen) {
      ChatMirrored();
      SameDropsNone(ChatCompletions, seen, ChatEmitted, Emits);
    }
    if NoneDropped(seen, Emits) {
      ChatAligned(seen);
      var all := Fold(ChatCompletions, All(seen), InitialState);
      var kept := Fold(ChatCompletions, Kept(seen), InitialState);
      SamePrefixes(kept.frames, all.frames, Closing(ChatCompletions, kept.state), Closing(ChatCompletions, all.state));
    }
  }

  // ----- the Messages format -----

  /** What the client of a Messages stream is told. */
  datatype Told = Text(text: string) | Error(error: Json.Value) | End

  function TellOne(p: Payload): seq<Told> {
    if Failed(p.value) then [Error(ErrorOf(p.value))]
    else if DeltaOf(p).Some? then [Text(DeltaOf(p).value)]
    else if Completes(p) then [End]
    else []
  }

  function Tells(payloads: seq<Payload>): seq<Told> {
    if payloads == [] then [] else TellOne(payloads[0]) + Tells(payloads[1..])
  }

  predicate Ended(told: seq<Told>) {
    exists i | 0 <= i < |told| :: !told[i].Text?
  }

  /** A stream that did not end is ended for the client. */
  function Closed(told: seq<Told>, done: bool): seq<Told> {
    told + if done || Ended(told) then [] else [End]
  }

  /** The frames of one item; the first that is no error opens the message. */
  function FramesFor(item: Told, start: Frame, started: bool): seq<Frame> {
    match item
    case Text(text) => (if started then [] else [start, BlockStart]) + [BlockDelta(text)]
    case Error(error) => [MessagesError(error)]
    case End => (if started then [] else [start]) + [BlockStop, MessageDelta, MessageStop]
  }

  function Play(told: seq<Told>, start: Frame, started: bool): seq<Frame> {
    if told == [] then []
    else FramesFor(told[0], start, started) + Play(told[1..], start, started || !told[0].Error?)
  }

  /** What is known when the message opens: at its first text or completion, or at the end. */
  function Opening(payloads: seq<Payload>, st: State): State {
    if payloads == [] then st
    else
      var st := UpdateState(payloads[0].value, st);
      if Emits(payloads[0]) && !Failed(payloads[0].value) then st else Opening(payloads[1..], st)
  }

  lemma PlayCons(item: Told, rest: seq<Told>, start: Frame, started: bool)
    ensures Play([item] + rest, start, started)
         == FramesFor(item, start, started) + Play(rest, start, started || !item.Error?)
  {
    assert ([item] + rest)[1..] == rest;
  }

  lemma {:induction false} StartedNeedsNoStart(told: seq<Told>, a: Frame, b: Frame)
    ensures Play(told, a, true) == Play(told, b, true)
  {
    if told != [] { StartedNeedsNoStart(told[1..], a, b); }
  }

  lemma ClosedCons(item: Told, rest: seq<Told>, done: bool)
    ensures Closed([item] + rest, done) == [item] + Closed(rest, done || !item.Text?)
  {
    var told := [item] + rest;
    assert told[0] == item && forall i | 0 <= i < |rest| :: told[i + 1] == rest[i];
    assert Ended(told) <==> !item.Text? || Ended(rest);
    var more := if done || Ended(told) then [] else [End];
    assert [item] + rest + more == [item] + (rest + more);
  }

  lemma OpeningAlike(payloads: seq<Payload>, s: State, t: State)
    requires Knows(s, t)
    ensures Knows(Opening(payloads, s), Opening(payloads, t))
  {
    if payloads != [] { UpdateKnows(payloads[0], s, t); }
  }

  /** The Messages conversion plays what is told, from any state. */
  lemma {:induction false} MessagesPlay(payloads: seq<Payload>, st: State)
    ensures var c := Fold(Messages, payloads, st);
            c.frames + Closing(Messages, c.state)
            == Play(Closed(Tells(payloads), st.done), StartFrame(Opening(payloads, st)), st.messagesStarted)
    decreases |payloads|
  {
    if payloads == [] {
      PlayClosing(st);
    } else {
      var p, rest := payloads[0], payloads[1..];
      var (frames, after) := MessagesStep(p, st);
      var c := Fold(Messages, rest, after);
      MessagesPlay(rest, after);
      Assoc(frames, c.frames, Closing(Messages, c.state));
      PlayStep(p, rest, st);
    }
  }

  lemma PlayClosing(st: State)
    ensures [] + Closing(Messages, st) == Play(Closed([], st.done), StartFrame(st), st.messagesStarted)
  {
    if !st.done {
      PlayCons(End, [], StartFrame(st), st.messagesStarted);
      assert [End] + [] == [End] && [] + [End] == [End];
      assert StopFrames(st) + [] == StopFrames(st);
    }
  }

  /** One step: nothing but the names for a payload that tells nothing, and else the frames of what it tells. */
  lemma StepTells(p: Payload, st: State)
    ensures var (frames, after) := MessagesStep(p, st);
            var known := UpdateState(p.value, st);
            && Knows(after, known) && |TellOne(p)| <= 1
            && (TellOne(p) == [] ==>
                  frames == [] && after.done == st.done && after.messagesStarted == st.messagesStarted && !Emits(p))
            && (TellOne(p) != [] ==>
                  var item := TellOne(p)[0];
                  && frames == FramesFor(item, StartFrame(known), st.messagesStarted)
                  && after.done == (st.done || !item.Text?)
                  && after.messagesStarted == (st.messagesStarted || !item.Error?)
                  && (Failed(p.value) <==> item.Error?) && Emits(p))
  {
  }

  lemma ErrorNeedsNoStart(item: Told, a: Frame, b: Frame, started: bool)
    requires item.Error?
    ensures FramesFor(item, a, started) == FramesFor(item, b, started)
  {
  }

  lemma PlayStep(p: Payload, rest: seq<Payload>, st: State)
    ensures var (frames, after) := MessagesStep(p, st);
            var payloads := [p] + rest;
            Play(Closed(Tells(payloads), st.done), StartFrame(Opening(payloads, st)), st.messagesStarted)
            == frames + Play(Closed(Tells(rest), after.done), StartFrame(Opening(rest, after)), after.messagesStarted)
  {
    var payloads := [p] + rest;
    assert payloads[1..] == rest;
    StepTells(p, st);
    if TellOne(p) == [] {
      QuietPlayStep(p, rest, st);
    } else {
      ToldPlayStep(p, rest, st, TellOne(p)[0]);
    }
  }

  lemma QuietPlayStep(p: Payload, rest: seq<Payload>, st: State)
    requires TellOne(p) == [] && ([p] + rest)[1..] == rest
    ensures var (frames, after) := MessagesStep(p, st);
            var payloads := [p] + rest;
            Play(Closed(Tells(payloads), st.done), StartFrame(Opening(payloads, st)), st.messagesStarted)
            == frames + Play(Closed(Tells(rest), after.done), StartFrame(Opening(rest, after)), after.messagesStarted)
  {
    var (_, after) := MessagesStep(p, st);
    StepTells(p, st);
    OpeningAlike(rest, after, UpdateState(p.value, st));
    assert [] + Tells(rest) == Tells(rest);
    var played := Play(Closed(Tells(rest), after.done), StartFrame(Opening(rest, after)), after.messagesStarted);
    assert [] + played == played;
  }

  lemma ToldPlayStep(p: Payload, rest: seq<Payload>, st: State, item: Told)
    requires TellOne(p) == [item] && ([p] + rest)[1..] == rest
    ensures var (frames, after) := MessagesStep(p, st);
            var payloads := [p] + rest;
            Play(Closed(Tells(payloads), st.done), StartFrame(Opening(payloads, st)), st.messagesStarted)
            == frames + Play(Closed(Tells(rest), after.done), StartFrame(Opening(rest, after)), after.messagesStarted)
  {
    var (frames, after) := MessagesStep(p, st);
    var known, told := UpdateState(p.value, st), Tells(rest);
    var start := StartFrame(Opening([p] + rest, st));
    StepTells(p, st);
    ClosedCons(item, told, st.done);
    PlayCons(item, Closed(told, after.done), start, st.messagesStarted);
    if item.Error? {
      OpeningAlike(rest, after, known);
      ErrorNeedsNoStart(item, StartFrame(known), start, st.messagesStarted);
    } else {
      StartedNeedsNoStart(Closed(told, after.done), start, StartFrame(Opening(rest, after)));
    }
  }

  lemma MessagesConversion(payloads: seq<Payload>)
    ensures ConvertAll(Messages, payloads)
         == Play(Closed(Tells(payloads), false), StartFrame(Opening(payloads, InitialState)), false)
  {
    MessagesPlay(payloads, InitialState);
  }

  // ----- what is played can be read back -----

  /** Something other than errors, so a message is opened. */
  predicate Opens(told: seq<Told>) {
    told != [] && (!told[0].Error? || Opens(told[1..]))
  }

  lemma HeadsApart(x: Told, u: seq<Frame>, a: Frame, y: Told, v: seq<Frame>, b: Frame, started: bool)
    requires a.MessageStart? && b.MessageStart?
    requires FramesFor(x, a, started) + u == FramesFor(y, b, started) + v
    ensures x == y && u == v && (!started && !x.Error? ==> a == b)
  {
    var f, g := FramesFor(x, a, started), FramesFor(y, b, started);
    assert (f + u)[0] == f[0] && (g + v)[0] == g[0];
    if !started && !x.Error? && !y.Error? {
      assert (f + u)[1] == f[1] && (g + v)[1] == g[1];
      if x.Text? { assert (f + u)[2] == f[2] && (g + v)[2] == g[2]; }
    }
    assert |f| == |g|;
    SamePrefixes(f, g, u, v);
  }

  lemma PlaysSomething(told: seq<Told>, a: Frame, started: bool)
    ensures told == [] <==> Play(told, a, started) == []
  {
  }

  lemma {:induction false} ErrorsNeedNoStart(told: seq<Told>, a: Frame, b: Frame, started: bool)
    requires !Opens(told)
    ensures Play(told, a, started) == Play(told, b, started)
  {
    if told != [] {
      ErrorNeedsNoStart(told[0], a, b, started);
      ErrorsNeedNoStart(told[1..], a, b, started);
    }
  }

  lemma {:induction false} PlayReadBack(told: seq<Told>, a: Frame, other: seq<Told>, b: Frame, started: bool)
    requires a.MessageStart? && b.MessageStart? && Play(told, a, started) == Play(other, b, started)
    ensures told == other && (!started && Opens(told) ==> a == b)
  {
    if told == [] || other == [] {
      PlaysSomething(told, a, started);
      PlaysSomething(other, b, started);
    } else {
      var x, y := told[0], other[0];
      HeadsApart(x, Play(told[1..], a, started || !x.Error?), a,
                 y, Play(other[1..], b, started || !y.Error?), b, started);
      PlayReadBack(told[1..], a, other[1..], b, started || !x.Error?);
      assert told == [x] + told[1..] && other == [y] + other[1..];
    }
  }

  /** Two streams are the same exactly when they tell the same and, if a message is opened, open it alike. */
  lemma PlayApart(told: seq<Told>, a: Frame, other: seq<Told>, b: Frame)
    requires a.MessageStart? && b.MessageStart?
    ensures Play(told, a, false) == Play(other, b, false) <==> told == other && (Opens(told) ==> a == b)
  {
    if Play(told, a, false) == Play(other, b, false) { PlayReadBack(told, a, other, b, false); }
    if !Opens(told) { ErrorsNeedNoStart(told, a, b, false); }
  }

  // ----- texts and errors are kept; completions may be missed -----

  predicate IsEnd(item: Told) {
    item.End?
  }

  /** The texts and errors. */
  function Said(told: seq<Told>): seq<Told> {
    if told == [] then [] else (if told[0].End? then [] else [told[0]]) + Said(told[1..])
  }

  lemma {:induction false} TellsAppend(a: seq<Payload>, b: seq<Payload>)
    ensures Tells(a + b) == Tells(a) + Tells(b)
  {
    if a == [] {
      assert a + b == b;
    } else {
      assert (a + b)[1..] == a[1..] + b;
      TellsAppend(a[1..], b);
      Assoc(TellOne(a[0]), Tells(a[1..]), Tells(b));
    }
  }

  lemma TellsOne(p: Payload)
    ensures Tells([p]) == TellOne(p)
  {
    assert [p][1..] == [];
    assert TellOne(p) + [] == TellOne(p);
  }

  lemma {:induction false} SaidAppend(a: seq<Told>, b: seq<Told>)
    ensures Said(a + b) == Said(a) + Said(b)
  {
    if a == [] {
      assert a + b == b;
    } else {
      assert (a + b)[1..] == a[1..] + b;
      SaidAppend(a[1..], b);
      Assoc(if a[0].End? then [] else [a[0]], Said(a[1..]), Said(b));
    }
  }

  lemma {:induction false} NothingButSaid(told: seq<Told>)
    requires Count(told, IsEnd) == 0
    ensures Said(told) == told
  {
    if told != [] { NothingButSaid(told[1..]); }
  }

  lemma {:induction false} EndsCounted(payloads: seq<Payload>)
    ensures Count(Tells(payloads), IsEnd) == Count(payloads, Completes)
  {
    if payloads != [] {
      EndsCounted(payloads[1..]);
      CountAppend(TellOne(payloads[0]), Tells(payloads[1..]), IsEnd);
      if TellOne(payloads[0]) != [] { CountOne(TellOne(payloads[0])[0], IsEnd); }
    }
  }

  lemma {:induction false} KeptTells(seen: seq<Seen>)
    requires NoneDropped(seen, Carries)
    ensures Said(Tells(Kept(seen))) == Said(Tells(All(seen)))
    ensures NoneDropped(seen, Completes) ==> Tells(Kept(seen)) == Tells(All(seen))
  {
    if seen != [] {
      var front, last := seen[..|seen| - 1], seen[|seen| - 1];
      assert seen == front + [last];
      NoneDroppedSnoc(front, last, Carries);
      NoneDroppedSnoc(front, last, Completes);
      KeptTells(front);
      OneMoreTold(Kept(front), IfKept(last));
      OneMoreTold(All(front), [last.payload]);
      TellsOne(last.payload);
      if !last.kept {
        var kept, all := Tells(Kept(front)), Tells(All(front));
        assert kept + [] == kept && Said(kept) + [] == Said(kept) && all + [] == all && Said(all) + [] == Said(all);
        assert TellOne(last.payload) == [] || TellOne(last.payload) == [End];
        assert Said([End]) == [] + Said([]);
      }
    }
  }

  lemma OneMoreTold(front: seq<Payload>, more: seq<Payload>)
    ensures Tells(front + more) == Tells(front) + Tells(more)
    ensures Said(Tells(front + more)) == Said(Tells(front)) + Said(Tells(more))
  {
    TellsAppend(front, more);
    SaidAppend(Tells(front), Tells(more));
  }

  /** Texts, and then the end. */
  predicate OneEnding(told: seq<Told>) {
    told != [] && told[|told| - 1].End? && forall i | 0 <= i < |told| - 1 :: told[i].Text?
  }

  /** If some ends are missing, closing makes up for them exactly when there is only the one at the end. */
  lemma ClosedAlike(kept: seq<Told>, all: seq<Told>)
    requires Said(kept) == Said(all) && Count(kept, IsEnd) < Count(all, IsEnd)
    ensures Closed(kept, false) == Closed(all, false) <==> OneEnding(all)
  {
    CountsNone(all, IsEnd);
    assert Ended(all) && all + [] == all;
    if OneEnding(all) { LastEndOnly(kept, all); }
    if Ended(kept) {
      assert Closed(kept, false) == kept + [] == kept;
    } else {
      ClosedEndsOnce(kept);
    }
  }

  lemma ClosedEndsOnce(told: seq<Told>)
    requires !Ended(told)
    ensures OneEnding(Closed(told, false))
  {
    var closed := told + [End];
    assert forall i | 0 <= i < |told| :: closed[i] == told[i];
  }

  lemma LastEndOnly(kept: seq<Told>, all: seq<Told>)
    requires Said(kept) == Said(all) && Count(kept, IsEnd) < Count(all, IsEnd) && OneEnding(all)
    ensures Closed(kept, false) == all
  {
    var texts := all[..|all| - 1];
    assert all == texts + [End];
    CountsNone(texts, IsEnd);
    CountAppend(texts, [End], IsEnd);
    CountOne(End, IsEnd);
    SaidAppend(texts, [End]);
    NothingButSaid(texts);
    NothingButSaid(kept);
    assert Said([End]) == [] + Said([]) && texts + [] == texts;
  }

  /** Unless only errors are told, the message opens under the same names. */
  predicate StartsAlike(seen: seq<Seen>) {
    Opens(Closed(Tells(All(seen)), false)) ==>
      StartFrame(Opening(Kept(seen), InitialState)) == StartFrame(Opening(All(seen), InitialState))
  }

  /** No completion is dropped, or the only one comes last of all that is told and nothing failed. */
  predicate EndsAlike(seen: seq<Seen>) {
    NoneDropped(seen, Completes) || OneEnding(Tells(All(seen)))
  }

  lemma ToldAlike(seen: seq<Seen>)
    requires NoneDropped(seen, Carries)
    ensures Closed(Tells(Kept(seen)), false) == Closed(Tells(All(seen)), false) <==> EndsAlike(seen)
  {
    KeptTells(seen);
    KeptCounts(seen, Completes);
    EndsCounted(Kept(seen));
    EndsCounted(All(seen));
    if !NoneDropped(seen, Completes) { ClosedAlike(Tells(Kept(seen)), Tells(All(seen))); }
  }

  /**
   Dropping payloads from a Messages stream goes unnoticed exactly when they carry no delta and no
   error, the end of the stream makes up for a completion among them, and the message opens alike.
   */
  lemma MessagesUnnoticedExactly(seen: seq<Seen>)
    ensures SameConversion(Messages, seen) <==> NoneDropped(seen, Carries) && EndsAlike(seen) && StartsAlike(seen)
  {
    var kept, all := Closed(Tells(Kept(seen)), false), Closed(Tells(All(seen)), false);
    var a, b := StartFrame(Opening(Kept(seen), InitialState)), StartFrame(Opening(All(seen), InitialState));
    MessagesConversion(Kept(seen));
    MessagesConversion(All(seen));
    PlayApart(kept, a, all, b);
    if SameConversion(Messages, seen) {
      CarriesMirrored(Messages);
      SameDropsNone(Messages, seen, CarriedBy, Carries);
    }
    if NoneDropped(seen, Carries) { ToldAlike(seen); }
  }

  // ----- the two converters -----

  predicate Unnoticed(endpoint: Endpoint, seen: seq<Seen>) {
    if endpoint.ChatCompletions? then NoneDropped(seen, Emits) && NamesAlike(seen)
    else NoneDropped(seen, Carries) && EndsAlike(seen) && StartsAlike(seen)
  }

  /** Of each block the first payload is kept. */
  function SeenIn(parse: Parser, blocks: seq<string>): seq<Seen> {
    if blocks == [] then []
    else
      SeenIn(parse, blocks[..|blocks| - 1]) + FirstKept(PayloadsOf(parse, ParseEvents(blocks[|blocks| - 1])))
  }

  function FirstKept(payloads: seq<Payload>): seq<Seen> {
    seq(|payloads|, i requires 0 <= i < |payloads| => Seen(payloads[i], i == 0))
  }

  lemma {:induction false} SeenAppend(a: seq<Seen>, b: seq<Seen>)
    ensures All(a + b) == All(a) + All(b)
    ensures Kept(a + b) == Kept(a) + Kept(b)
  {
    if b == [] {
      assert a + b == a;
    } else {
      var front, last := b[..|b| - 1], b[|b| - 1];
      assert a + b == (a + front) + [last];
      SeenAppend(a, front);
      SeenSnoc(a + front, last);
      Assoc(All(a), All(front), [last.payload]);
      Assoc(Kept(a), Kept(front), IfKept(last));
    }
  }

  lemma {:induction false} FirstKeptIs(payloads: seq<Payload>)
    ensures All(FirstKept(payloads)) == payloads
    ensures Kept(FirstKept(payloads)) == if payloads == [] then [] else [payloads[0]]
  {
    if payloads != [] {
      var front, last := payloads[..|payloads| - 1], payloads[|payloads| - 1];
      FirstKeptIs(front);
      assert FirstKept(payloads) == FirstKept(front) + [Seen(last, front == [])];
      SeenSnoc(FirstKept(front), Seen(last, front == []));
      assert payloads == front + [last];
    }
  }

  lemma {:induction false} SeenInBlocks(parse: Parser, blocks: seq<string>)
    ensures All(SeenIn(parse, blocks)) == PayloadsOf(parse, EventsOfBlocks(blocks))
    ensures Kept(SeenIn(parse, blocks)) == FirstPayloads(parse, blocks)
  {
    if blocks != [] {
      var front, block := blocks[..|blocks| - 1], blocks[|blocks| - 1];
      assert blocks == front + [block];
      SeenInBlocks(parse, front);
      var more, first := BlockAdds(parse, front, block);
      FirstKeptIs(more);
      SeenAppend(SeenIn(parse, front), FirstKept(more));
    }
  }

  /**
   For every lenient parser, body and client format: the streamed and the whole-transcript conversion
   are the same exactly when the payloads after the first of each block can be dropped unnoticed.
   */
  lemma SameExactly(parse: Parser, endpoint: Endpoint, body: string)
    requires Lenient(parse)
    ensures Same(parse, endpoint, body) <==> Unnoticed(endpoint, SeenIn(parse, BlocksOf(body)))
  {
    var seen := SeenIn(parse, BlocksOf(body));
    SeenInBlocks(parse, BlocksOf(body));
    BlocksHoldTheEvents(body);
    StreamSendsFirstPayloads(parse, endpoint, body);
    TranscriptIsConvertAll(parse, endpoint, body);
    if endpoint.ChatCompletions? { ChatUnnoticedExactly(seen); } else { MessagesUnnoticedExactly(seen); }
  }
}
