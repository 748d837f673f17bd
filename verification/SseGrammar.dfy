/** The grammar of the converted streams. */
module SseGrammar {
  import opened Options
  import opened Strings
  import opened SseConvert

  /** An upstream event that ends the answer: an error, a failure or a completion. */
  predicate Terminal(p: Payload) {
    Failed(p.value) || (DeltaOf(p).None? && NameEndsWith(p, "completed"))
  }

  /** An upstream event that sends anything on. */
  predicate Emits(p: Payload) {
    Terminal(p) || DeltaOf(p).Some?
  }

  /** Nothing is sent on after the first terminal event. */
  predicate NothingFollows(payloads: seq<Payload>) {
    forall i, j | 0 <= i < j < |payloads| && Terminal(payloads[i]) :: !Emits(payloads[j])
  }

  predicate NoTerminal(payloads: seq<Payload>) {
    forall i | 0 <= i < |payloads| :: !Terminal(payloads[i])
  }

  // ----- Messages -----

  /** The first n frames: nothing, or `message_start content_block_start content_block_delta+`. */
  predicate Opening(fs: seq<Frame>, n: nat)
    requires n <= |fs|
  {
    n == 0 ||
    (n >= 3 && fs[0].MessageStart? && fs[1].BlockStart? && forall i | 2 <= i < n :: fs[i].BlockDelta?)
  }

  /** `message_start (content_block_start content_block_delta+)? content_block_stop message_delta message_stop`. */
  predicate Answered(fs: seq<Frame>) {
    var n := |fs| - 3;
    n >= 1 && fs[n].BlockStop? && fs[n + 1].MessageDelta? && fs[n + 2].MessageStop?
    && ((n == 1 && fs[0].MessageStart?) || Opening(fs, n))
  }

  /** `(message_start content_block_start content_block_delta+)? error`. */
  predicate ErrorEnded(fs: seq<Frame>) {
    fs != [] && fs[|fs| - 1].MessagesError? && Opening(fs, |fs| - 1)
  }

  predicate Grammatical(fs: seq<Frame>) {
    Answered(fs) || ErrorEnded(fs)
  }

  /** Before any terminal event the frames are an opening, and the state knows whether it began. */
  lemma {:induction false} FoldOpens(payloads: seq<Payload>)
    requires NoTerminal(payloads)
    ensures var c := Fold(Messages, payloads, InitialState);
            Opening(c.frames, |c.frames|) && c.state.messagesStarted == (c.frames != []) && !c.state.done
  {
    if payloads != [] {
      var front, last := payloads[..|payloads| - 1], payloads[|payloads| - 1];
      assert payloads == front + [last];
      FoldOpens(front);
      var before := Fold(Messages, front, InitialState);
      FoldAppend(Messages, front, [last], InitialState);
      StepAlone(Messages, last, before.state);
    }
  }

  lemma StepAlone(endpoint: Endpoint, p: Payload, st: State)
    ensures var (frames, after) := Step(endpoint, p, st);
            Fold(endpoint, [p], st) == Converted(frames, after)
  {
    var (frames, after) := Step(endpoint, p, st);
    assert [p][1..] == [];
    assert frames + [] == frames;
  }

  /** Once the stream is done it stays done, and frames are sent exactly for events that emit. */
  lemma {:induction false} AfterTheEnd(endpoint: Endpoint, payloads: seq<Payload>, st: State)
    requires st.done
    ensures var c := Fold(endpoint, payloads, st);
            c.state.done && (c.frames == [] <==> NoneEmit(payloads))
  {
    if payloads != [] {
      var (frames, after) := Step(endpoint, payloads[0], st);
      AfterTheEnd(endpoint, payloads[1..], after);
      assert frames == [] <==> !Emits(payloads[0]);
      NoneEmitCons(payloads);
    }
  }

  lemma NoneEmitCons(payloads: seq<Payload>)
    requires payloads != []
    ensures NoneEmit(payloads) <==> !Emits(payloads[0]) && NoneEmit(payloads[1..])
  {
    assert forall i | 1 <= i < |payloads| :: payloads[i] == payloads[1..][i - 1];
  }

  /** In a grammatical output nothing follows an error or a message stop. */
  lemma GrammarEnds(fs: seq<Frame>, i: nat)
    requires Grammatical(fs) && i < |fs| && (fs[i].MessageStop? || fs[i].MessagesError?)
    ensures i == |fs| - 1
  {
  }

  /** Up to and including its first terminal event a stream is grammatical. */
  lemma EndsGrammatically(front: seq<Payload>, last: Payload)
    requires NoTerminal(front) && Terminal(last)
    ensures var c := Fold(Messages, front + [last], InitialState);
            && Grammatical(c.frames) && c.state.done && c.frames != []
            && (c.frames[|c.frames| - 1].MessageStop? || c.frames[|c.frames| - 1].MessagesError?)
  {
    FoldOpens(front);
    FoldAppend(Messages, front, [last], InitialState);
    var before := Fold(Messages, front, InitialState);
    StepAlone(Messages, last, before.state);
    EndingStep(before.frames, last, before.state);
  }

  lemma EndingStep(opening: seq<Frame>, p: Payload, st: State)
    requires Opening(opening, |opening|) && st.messagesStarted == (opening != []) && Terminal(p)
    ensures var (frames, after) := Step(Messages, p, st);
            var fs := opening + frames;
            && Grammatical(fs) && after.done && fs != []
            && (fs[|fs| - 1].MessageStop? || fs[|fs| - 1].MessagesError?)
  {
    var (frames, _) := Step(Messages, p, st);
    if Failed(p.value) {
      assert ErrorEnded(opening + frames);
    } else {
      StoppedIsAnswered(Converted(opening, UpdateState(p.value, st)));
    }
  }

  /** The index of the first terminal event. */
  function FirstTerminal(payloads: seq<Payload>): (k: nat)
    ensures k <= |payloads|
    ensures k < |payloads| ==> Terminal(payloads[k])
    ensures forall i | 0 <= i < k :: !Terminal(payloads[i])
  {
    if payloads == [] || Terminal(payloads[0]) then 0 else 1 + FirstTerminal(payloads[1..])
  }

  predicate NoneEmit(payloads: seq<Payload>) {
    forall i | 0 <= i < |payloads| :: !Emits(payloads[i])
  }

  lemma FollowsFirst(payloads: seq<Payload>, k: nat)
    requires k < |payloads| && Terminal(payloads[k]) && forall i | 0 <= i < k :: !Terminal(payloads[i])
    ensures NothingFollows(payloads) <==> NoneEmit(payloads[k + 1..])
  {
    var rest := payloads[k + 1..];
    if NoneEmit(rest) {
      forall i, j | 0 <= i < j < |payloads| && Terminal(payloads[i]) ensures !Emits(payloads[j]) {
        assert payloads[j] == rest[j - k - 1];
      }
    }
    if NothingFollows(payloads) {
      forall j | 0 <= j < |rest| ensures !Emits(rest[j]) {
        assert rest[j] == payloads[k + 1 + j];
      }
    }
  }

  /** The converted stream, cut at the first terminal event. */
  lemma CutAtTerminal(endpoint: Endpoint, payloads: seq<Payload>, k: nat)
    requires k < |payloads|
    ensures var head := Fold(endpoint, payloads[..k] + [payloads[k]], InitialState);
            var tail := Fold(endpoint, payloads[k + 1..], head.state);
            Fold(endpoint, payloads, InitialState) == Converted(head.frames + tail.frames, tail.state)
  {
    assert payloads == (payloads[..k] + [payloads[k]]) + payloads[k + 1..];
    FoldAppend(endpoint, payloads[..k] + [payloads[k]], payloads[k + 1..], InitialState);
  }

  /** The Messages output is grammatical exactly when nothing is sent on after the first terminal event. */
  lemma MessagesGrammar(payloads: seq<Payload>)
    ensures Grammatical(ConvertAll(Messages, payloads)) <==> NothingFollows(payloads)
  {
    var k := FirstTerminal(payloads);
    var c := Fold(Messages, payloads, InitialState);
    if k == |payloads| {
      assert payloads[..k] == payloads;
      FoldOpens(payloads);
      StoppedIsAnswered(c);
    } else {
      CutAtTerminal(Messages, payloads, k);
      EndsGrammatically(payloads[..k], payloads[k]);
      var head := Fold(Messages, payloads[..k] + [payloads[k]], InitialState);
      var tail := Fold(Messages, payloads[k + 1..], head.state);
      AfterTheEnd(Messages, payloads[k + 1..], head.state);
      FollowsFirst(payloads, k);
      var all := ConvertAll(Messages, payloads);
      assert all == head.frames + tail.frames;
      assert all[|head.frames| - 1] == head.frames[|head.frames| - 1];
      if Grammatical(all) {
        GrammarEnds(all, |head.frames| - 1);
      }
      assert head.frames + [] == head.frames;
    }
  }

  lemma StoppedIsAnswered(c: Converted)
    requires Opening(c.frames, |c.frames|) && c.state.messagesStarted == (c.frames != [])
    ensures Answered(c.frames + StopFrames(c.state))
  {
  }

  // ----- openings in every run -----

  function MessageStarts(fs: seq<Frame>): nat {
    if fs == [] then 0 else (if fs[0].MessageStart? then 1 else 0) + MessageStarts(fs[1..])
  }

  function BlockStarts(fs: seq<Frame>): nat {
    if fs == [] then 0 else (if fs[0].BlockStart? then 1 else 0) + BlockStarts(fs[1..])
  }

  lemma {:induction false} StartsAppend(a: seq<Frame>, b: seq<Frame>)
    ensures MessageStarts(a + b) == MessageStarts(a) + MessageStarts(b)
    ensures BlockStarts(a + b) == BlockStarts(a) + BlockStarts(b)
  {
    if a == [] {
      assert a + b == b;
    } else {
      assert (a + b)[1..] == a[1..] + b;
      StartsAppend(a[1..], b);
    }
  }

  lemma StopStarts(st: State)
    ensures MessageStarts(StopFrames(st)) == (if st.messagesStarted then 0 else 1)
    ensures BlockStarts(StopFrames(st)) == 0
  {
    var stop := [BlockStop, MessageDelta, MessageStop];
    assert stop[1..] == [MessageDelta, MessageStop] && stop[1..][1..] == [MessageStop];
    assert stop[1..][1..][1..] == [];
    var opening := if st.messagesStarted then [] else [StartFrame(st)];
    StartsAppend(opening, stop);
    if opening != [] { assert opening[1..] == []; }
  }

  lemma StepStarts(p: Payload, st: State)
    ensures var (frames, after) := MessagesStep(p, st);
            && MessageStarts(frames) == (if !st.messagesStarted && after.messagesStarted then 1 else 0)
            && BlockStarts(frames) <= MessageStarts(frames)
            && (st.messagesStarted ==> after.messagesStarted)
  {
    var st1 := UpdateState(p.value, st);
    StopStarts(st1);
    var (frames, after) := MessagesStep(p, st);
    if !Failed(p.value) && DeltaOf(p).Some? {
      var opening := if st1.messagesStarted then [] else [StartFrame(st1), BlockStart];
      var delta := [BlockDelta(DeltaOf(p).value)];
      StartsAppend(opening, delta);
      assert delta[1..] == [];
      if opening != [] { assert opening[1..] == [BlockStart] && opening[1..][1..] == []; }
    } else if frames != [] && Failed(p.value) {
      assert frames[1..] == [];
    }
  }

  lemma {:induction false} FoldStarts(payloads: seq<Payload>, st: State)
    ensures var c := Fold(Messages, payloads, st);
            && MessageStarts(c.frames) == (if !st.messagesStarted && c.state.messagesStarted then 1 else 0)
            && BlockStarts(c.frames) <= MessageStarts(c.frames)
            && (st.messagesStarted ==> c.state.messagesStarted)
  {
    if payloads != [] {
      var (frames, after) := Step(Messages, payloads[0], st);
      StepStarts(payloads[0], st);
      FoldStarts(payloads[1..], after);
      StartsAppend(frames, Fold(Messages, payloads[1..], after).frames);
    }
  }

  /** In every run, whatever the upstream sends, a message and its block are started at most once. */
  lemma StartedAtMostOnce(payloads: seq<Payload>)
    ensures var fs := ConvertAll(Messages, payloads); BlockStarts(fs) <= MessageStarts(fs) <= 1
  {
    var c := Fold(Messages, payloads, InitialState);
    FoldStarts(payloads, InitialState);
    StopStarts(c.state);
    StartsAppend(c.frames, Closing(Messages, c.state));
  }

  // ----- chat -----

  predicate Deltas(fs: seq<Frame>, n: nat)
    requires n <= |fs|
  {
    forall i | 0 <= i < n :: fs[i].ChatDelta?
  }

  /** Deltas, then an error, a finish and the end marker, or the end marker alone. */
  predicate ChatGrammatical(fs: seq<Frame>) {
    var n := |fs|;
    || (n >= 1 && fs[n - 1].ChatError? && Deltas(fs, n - 1))
    || (n >= 2 && fs[n - 2].ChatFinish? && fs[n - 1].ChatDone? && Deltas(fs, n - 2))
    || (n >= 1 && fs[n - 1].ChatDone? && Deltas(fs, n - 1))
  }

  lemma {:induction false} ChatFoldDeltas(payloads: seq<Payload>)
    requires NoTerminal(payloads)
    ensures var c := Fold(ChatCompletions, payloads, InitialState); Deltas(c.frames, |c.frames|) && !c.state.done
  {
    if payloads != [] {
      var front, last := payloads[..|payloads| - 1], payloads[|payloads| - 1];
      assert payloads == front + [last];
      ChatFoldDeltas(front);
      var before := Fold(ChatCompletions, front, InitialState);
      FoldAppend(ChatCompletions, front, [last], InitialState);
      StepAlone(ChatCompletions, last, before.state);
    }
  }

  lemma ChatEndsGrammatically(front: seq<Payload>, last: Payload)
    requires NoTerminal(front) && Terminal(last)
    ensures var c := Fold(ChatCompletions, front + [last], InitialState);
            && ChatGrammatical(c.frames) && c.state.done && c.frames != []
            && (c.frames[|c.frames| - 1].ChatDone? || c.frames[|c.frames| - 1].ChatError?)
  {
    ChatFoldDeltas(front);
    FoldAppend(ChatCompletions, front, [last], InitialState);
    var before := Fold(ChatCompletions, front, InitialState);
    StepAlone(ChatCompletions, last, before.state);
    var c := Fold(ChatCompletions, front + [last], InitialState);
    var (frames, _) := Step(ChatCompletions, last, before.state);
    assert c.frames == before.frames + frames;
  }

  /** The chat output is grammatical exactly when nothing is sent on after the first terminal event. */
  lemma ChatGrammar(payloads: seq<Payload>)
    ensures ChatGrammatical(ConvertAll(ChatCompletions, payloads)) <==> NothingFollows(payloads)
  {
    var k := FirstTerminal(payloads);
    var c := Fold(ChatCompletions, payloads, InitialState);
    var all := ConvertAll(ChatCompletions, payloads);
    if k == |payloads| {
      assert payloads[..k] == payloads;
      ChatFoldDeltas(payloads);
    } else {
      CutAtTerminal(ChatCompletions, payloads, k);
      ChatEndsGrammatically(payloads[..k], payloads[k]);
      var head := Fold(ChatCompletions, payloads[..k] + [payloads[k]], InitialState);
      var tail := Fold(ChatCompletions, payloads[k + 1..], head.state);
      AfterTheEnd(ChatCompletions, payloads[k + 1..], head.state);
      FollowsFirst(payloads, k);
      assert all == head.frames + tail.frames;
      assert all[|head.frames| - 1] == head.frames[|head.frames| - 1];
      if ChatGrammatical(all) {
        ChatGrammarEnds(all, |head.frames| - 1);
      }
      assert head.frames + [] == head.frames;
    }
  }

  lemma ChatGrammarEnds(fs: seq<Frame>, i: nat)
    requires ChatGrammatical(fs) && i < |fs| && (fs[i].ChatDone? || fs[i].ChatError?)
    ensures i == |fs| - 1
  {
  }
}
