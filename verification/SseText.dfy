/**
 Server-sent events as text: the gateway's own variant of the event stream format of the
 WHATWG HTML Standard, section 9.2. Only `event` and `data` fields count, all leading
 whitespace of a data value is dropped, and an unfinished event is flushed at the end.
 */
module SseText {
  import opened Options
  import opened Strings

  datatype Event = Event(name: Option<string>, data: string)

  // ----- parsing -----

  /** The lines of a text without their line endings and trailing carriage returns. */
  function CleanLines(s: string): seq<string> {
    if s == [] then []
    else
      var k := LineEnd(s);
      if k == |s| then [TrimEndCr(s)] else [TrimEndCr(s[..k])] + CleanLines(s[k + 1..])
  }

  function Flush(name: Option<string>, data: seq<string>): seq<Event> {
    if name.None? && data == [] then [] else [Event(name, Join(data, "\n"))]
  }

  /** The events of some lines, with an event under way. */
  function Scan(lines: seq<string>, name: Option<string>, data: seq<string>): seq<Event> {
    if lines == [] then Flush(name, data)
    else
      var line, rest := lines[0], lines[1..];
      if line == [] then Flush(name, data) + Scan(rest, None, [])
      else if StartsWith(line, "event:") then Scan(rest, Some(Trim(line[6..])), data)
      else if StartsWith(line, "data:") then Scan(rest, name, data + [TrimStart(line[5..])])
      else Scan(rest, name, data)
  }

  function ParseEvents(body: string): seq<Event> {
    Scan(CleanLines(body), None, [])
  }

  lemma {:induction false} TrimStripped(line: string)
    ensures TrimEndCr(StripCr(line)) == TrimEndCr(line)
  {
  }

  lemma {:induction false} CleanLinesAreLines(s: string)
    ensures |CleanLines(s)| == |Lines(s)|
    ensures forall i | 0 <= i < |Lines(s)| :: CleanLines(s)[i] == TrimEndCr(Lines(s)[i])
  {
    var k := LineEnd(s);
    if k < |s| {
      var line, rest := s[..k], s[k + 1..];
      CleanLinesAreLines(rest);
      assert CleanLines(s) == [TrimEndCr(line)] + CleanLines(rest);
      assert Lines(s) == [StripCr(line)] + Lines(rest);
      TrimStripped(line);
      CleanedCons(StripCr(line), Lines(rest), CleanLines(rest));
    }
  }

  lemma CleanedCons(line: string, raw: seq<string>, clean: seq<string>)
    requires |raw| == |clean| && forall i | 0 <= i < |raw| :: clean[i] == TrimEndCr(raw[i])
    ensures var r, c := [line] + raw, [TrimEndCr(line)] + clean;
            forall i | 0 <= i < |r| :: c[i] == TrimEndCr(r[i])
  {
  }

  lemma ScanFrom(lines: seq<string>, i: nat, name: Option<string>, data: seq<string>)
    requires i < |lines|
    ensures Scan(lines[i..], name, data)
         == if lines[i] == [] then Flush(name, data) + Scan(lines[i + 1..], None, [])
            else if StartsWith(lines[i], "event:") then Scan(lines[i + 1..], Some(Trim(lines[i][6..])), data)
            else if StartsWith(lines[i], "data:") then Scan(lines[i + 1..], name, data + [TrimStart(lines[i][5..])])
            else Scan(lines[i + 1..], name, data)
  {
    assert lines[i..][0] == lines[i] && lines[i..][1..] == lines[i + 1..];
  }

  /** `parse_sse_events`. */
  method ParseSseEvents(body: string) returns (events: seq<Event>)
    ensures events == ParseEvents(body)
  {
    events := [];
    var eventName: Option<string> := None;
    var dataLines: seq<string> := [];
    var lines := Lines(body);
    ghost var clean := CleanLines(body);
    CleanLinesAreLines(body);
    for i := 0 to |lines|
      invariant events + Scan(clean[i..], eventName, dataLines) == Scan(clean, None, [])
    {
      var line := TrimEndCr(lines[i]);
      ScanFrom(clean, i, eventName, dataLines);
      if line == [] {
        Assoc(events, Flush(eventName, dataLines), Scan(clean[i + 1..], None, []));
        events := events + Flush(eventName, dataLines);
        eventName, dataLines := None, [];
      } else if StartsWith(line, "event:") {
        eventName := Some(Trim(line[6..]));
      } else if StartsWith(line, "data:") {
        dataLines := dataLines + [TrimStart(line[5..])];
      }
    }
    assert clean[|lines|..] == [];
    events := events + Flush(eventName, dataLines);
  }

  // ----- splitting at a blank line -----

  /** A text is one line, or a line, a line feed and more. */
  lemma LineCut(s: string)
    ensures var k := LineEnd(s);
            && OneLine(s[..k])
            && (if k == |s| then s[..k] == s else s == s[..k] + "\n" + s[k + 1..])
  {
    var k := LineEnd(s);
    if k < |s| {
      Cut(s, k);
    }
  }

  lemma Cut(s: string, k: nat)
    requires k < |s|
    ensures s == s[..k] + [s[k]] + s[k + 1..]
  {
  }

  lemma CleanLinesCons(line: string, rest: string)
    requires OneLine(line)
    ensures CleanLines(line + "\n" + rest) == [TrimEndCr(line)] + CleanLines(rest)
  {
    var s := line + "\n" + rest;
    LineEndOf(line, rest);
    assert s[..|line|] == line && s[|line| + 1..] == rest;
  }

  lemma CleanLinesLast(line: string)
    requires OneLine(line)
    ensures CleanLines(line) == if line == [] then [] else [TrimEndCr(line)]
  {
  }

  /** The lines before and after a line feed that ends a non-empty line, or an empty one alone. */
  lemma {:induction false} CleanLinesSplit(x: string, z: string)
    requires x == [] || x[|x| - 1] != '\n'
    ensures CleanLines(x + "\n" + z) == (if x == [] then [""] else CleanLines(x)) + CleanLines(z)
  {
    var k := LineEnd(x);
    LineCut(x);
    if k == |x| {
      CleanLinesLast(x);
      CleanLinesCons(x, z);
    } else {
      var line, rest := x[..k], x[k + 1..];
      assert rest != [] && rest[|rest| - 1] == x[|x| - 1];
      CleanLinesSplit(rest, z);
      CleanLinesCons(line, rest);
      CleanLinesCons(line, rest + "\n" + z);
      AppendedLine(line, rest, z);
      Assoc([TrimEndCr(line)], CleanLines(rest), CleanLines(z));
    }
  }

  lemma AppendedLine(line: string, rest: string, z: string)
    ensures (line + "\n" + rest) + "\n" + z == line + "\n" + (rest + "\n" + z)
  {
  }

  /** The event under way after one more line that is not blank. */
  function NameAfter(line: string, name: Option<string>): Option<string> {
    if StartsWith(line, "event:") then Some(Trim(line[6..])) else name
  }

  function DataAfter(line: string, data: seq<string>): seq<string> {
    if !StartsWith(line, "event:") && StartsWith(line, "data:") then data + [TrimStart(line[5..])] else data
  }

  lemma ScanCons(line: string, rest: seq<string>, name: Option<string>, data: seq<string>)
    ensures Scan([line] + rest, name, data)
         == if line == [] then Flush(name, data) + Scan(rest, None, [])
            else Scan(rest, NameAfter(line, name), DataAfter(line, data))
  {
    var lines := [line] + rest;
    assert lines[1..] == rest && lines[0] == line;
  }

  lemma {:induction false} ScanSplit(before: seq<string>, after: seq<string>, name: Option<string>, data: seq<string>)
    ensures Scan(before + [""] + after, name, data) == Scan(before, name, data) + Scan(after, None, [])
  {
    if before == [] {
      ScanCons("", after, name, data);
      assert before + [""] + after == [""] + after;
    } else {
      var line, rest := before[0], before[1..];
      assert before == [line] + rest && before + [""] + after == [line] + (rest + [""] + after);
      ScanCons(line, rest, name, data);
      ScanCons(line, rest + [""] + after, name, data);
      if line == [] {
        ScanSplit(rest, after, None, []);
        Assoc(Flush(name, data), Scan(rest, None, []), Scan(after, None, []));
      } else {
        ScanSplit(rest, after, NameAfter(line, name), DataAfter(line, data));
      }
    }
  }

  /** A blank line separates the events before it from those after it. */
  lemma EventsSplit(x: string, y: string)
    requires x == [] || x[|x| - 1] != '\n'
    ensures ParseEvents(x + "\n\n" + y) == ParseEvents(x) + ParseEvents(y)
  {
    assert x + "\n\n" + y == x + "\n" + ("\n" + y);
    assert "\n" + y == [] + "\n" + y;
    CleanLinesSplit(x, "\n" + y);
    CleanLinesSplit([], y);
    var before := if x == [] then [""] else CleanLines(x);
    assert CleanLines(x + "\n\n" + y) == before + [""] + CleanLines(y);
    ScanSplit(before, CleanLines(y), None, []);
  }

  // ----- the incremental framer -----

  predicate BlankAt(s: string, j: nat) {
    j + 1 < |s| && s[j] == '\n' && s[j + 1] == '\n'
  }

  /** Index of the first "\n\n", or the length of the text. */
  function BlankLine(s: string): (k: nat)
    ensures k <= |s|
    ensures k < |s| ==> BlankAt(s, k)
    ensures forall j: nat | j < k :: !BlankAt(s, j)
  {
    if |s| < 2 then |s|
    else if BlankAt(s, 0) then 0
    else
      var k := BlankLine(s[1..]);
      assert forall j: nat | 1 <= j :: BlankAt(s, j) <==> BlankAt(s[1..], j - 1);
      1 + k
  }

  datatype Framed = Framed(blocks: seq<string>, rest: string)

  /** Cut a text at every blank line, greedily from the left. */
  function CutBlocks(s: string): Framed {
    var k := BlankLine(s);
    if k == |s| then Framed([], s)
    else
      var tail := CutBlocks(s[k + 2..]);
      Framed([s[..k]] + tail.blocks, tail.rest)
  }

  lemma {:induction false} BlankLineAppend(p: string, c: string)
    requires BlankLine(p) < |p|
    ensures BlankLine(p + c) == BlankLine(p)
  {
    if !BlankAt(p, 0) {
      assert (p + c)[1..] == p[1..] + c;
      BlankLineAppend(p[1..], c);
    }
  }

  /** Cutting at the first blank line. */
  lemma FrameStep(s: string)
    requires BlankLine(s) < |s|
    ensures var k := BlankLine(s);
            var tail := CutBlocks(s[k + 2..]);
            CutBlocks(s) == Framed([s[..k]] + tail.blocks, tail.rest)
  {
  }

  lemma FrameStepAppended(p: string, c: string)
    requires BlankLine(p) < |p|
    ensures var k := BlankLine(p);
            var tail := CutBlocks(p[k + 2..] + c);
            CutBlocks(p + c) == Framed([p[..k]] + tail.blocks, tail.rest)
  {
    var k := BlankLine(p);
    BlankLineAppend(p, c);
    FrameStep(p + c);
    assert (p + c)[..k] == p[..k] && (p + c)[k + 2..] == p[k + 2..] + c;
  }

  /** Framing a text that arrived in two parts: keep the blocks found so far, continue on the rest. */
  lemma {:induction false} FrameAppend(p: string, c: string)
    ensures var first := CutBlocks(p);
            var second := CutBlocks(first.rest + c);
            CutBlocks(p + c) == Framed(first.blocks + second.blocks, second.rest)
  {
    var k := BlankLine(p);
    if k == |p| {
      assert CutBlocks(p) == Framed([], p);
      assert [] + CutBlocks(p + c).blocks == CutBlocks(p + c).blocks;
    } else {
      FrameStep(p);
      FrameStepAppended(p, c);
      FrameAppend(p[k + 2..], c);
      var tail := CutBlocks(p[k + 2..]);
      Assoc([p[..k]], tail.blocks, CutBlocks(tail.rest + c).blocks);
    }
  }

  /** The pending buffer fed with chunks one after the other. */
  function FrameChunks(chunks: seq<string>): Framed {
    if chunks == [] then Framed([], "")
    else
      var before := FrameChunks(chunks[..|chunks| - 1]);
      var now := CutBlocks(before.rest + chunks[|chunks| - 1]);
      Framed(before.blocks + now.blocks, now.rest)
  }

  /** Chunk boundaries do not matter: the same text gives the same blocks and the same remainder. */
  lemma {:induction false} ChunksDoNotMatter(chunks: seq<string>)
    ensures FrameChunks(chunks) == CutBlocks(Concat(chunks))
  {
    if chunks != [] {
      var front, last := chunks[..|chunks| - 1], chunks[|chunks| - 1];
      ChunksDoNotMatter(front);
      assert chunks == front + [last];
      ConcatAppend(front, [last]);
      assert Concat([last]) == last;
      FrameAppend(Concat(front), last);
    }
  }

  // ----- blocks and events -----

  /**
   No line consists of carriage returns only. Every text without carriage returns is such;
   a text framed by CRLF is not.
   */
  predicate NoCrOnlyLine(s: string) {
    s == [] ||
    var k := LineEnd(s);
    (TrimEndCr(s[..k]) == [] ==> k == 0) && (k < |s| ==> NoCrOnlyLine(s[k + 1..]))
  }

  lemma {:induction false} LfOnlyFrames(s: string)
    requires '\r' !in s
    ensures NoCrOnlyLine(s)
  {
    if s != [] {
      var k := LineEnd(s);
      assert forall c | c in s[..k] :: c in s;
      if k < |s| { LfOnlyFrames(s[k + 1..]); }
    }
  }

  lemma NoCrOnlyLineCons(line: string, rest: string)
    requires OneLine(line)
    ensures NoCrOnlyLine(line + "\n" + rest) <==> (TrimEndCr(line) == [] ==> line == []) && NoCrOnlyLine(rest)
  {
    var s := line + "\n" + rest;
    LineEndOf(line, rest);
    assert s[..|line|] == line && s[|line| + 1..] == rest;
  }

  lemma {:induction false} NoCrOnlyLineSplit(x: string, z: string)
    requires NoCrOnlyLine(x + "\n" + z)
    ensures NoCrOnlyLine(x) && NoCrOnlyLine(z)
  {
    var k := LineEnd(x);
    LineCut(x);
    if k == |x| {
      NoCrOnlyLineCons(x, z);
    } else {
      var line, rest := x[..k], x[k + 1..];
      AppendedLine(line, rest, z);
      NoCrOnlyLineCons(line, rest + "\n" + z);
      NoCrOnlyLineCons(line, rest);
      NoCrOnlyLineSplit(rest, z);
    }
  }

  lemma NoBlankInTail(s: string, i: nat)
    requires BlankLine(s) == |s| && i <= |s|
    ensures BlankLine(s[i..]) == |s[i..]|
  {
    var m := BlankLine(s[i..]);
    assert BlankAt(s[i..], m) ==> BlankAt(s, i + m);
    assert !BlankAt(s, i + m);
  }

  /** Inside a block only the first line can be empty. */
  lemma {:induction false} BlockLines(block: string)
    requires BlankLine(block) == |block| && NoCrOnlyLine(block)
    requires block == [] || block[0] != '\n'
    ensures [] !in CleanLines(block)
  {
    if block != [] {
      var k := LineEnd(block);
      assert block[..|block|] == block;
      if k < |block| {
        var rest := block[k + 1..];
        assert !BlankAt(block, k);
        NoBlankInTail(block, k + 1);
        BlockLines(rest);
      }
    }
  }

  lemma {:induction false} ScanFullLines(lines: seq<string>, name: Option<string>, data: seq<string>)
    requires [] !in lines
    ensures |Scan(lines, name, data)| <= 1
  {
    if lines != [] {
      var line := lines[0];
      if StartsWith(line, "event:") {
        ScanFullLines(lines[1..], Some(Trim(line[6..])), data);
      } else if StartsWith(line, "data:") {
        ScanFullLines(lines[1..], name, data + [TrimStart(line[5..])]);
      } else {
        ScanFullLines(lines[1..], name, data);
      }
    }
  }

  /** A block holds at most one event. */
  lemma BlockHasOneEvent(block: string)
    requires BlankLine(block) == |block| && NoCrOnlyLine(block)
    ensures |ParseEvents(block)| <= 1
  {
    if block != [] && block[0] == '\n' {
      var rest := block[1..];
      assert block == [] + "\n" + rest;
      CleanLinesSplit([], rest);
      NoCrOnlyLineSplit([], rest);
      assert !BlankAt(block, 0);
      NoBlankInTail(block, 1);
      BlockLines(rest);
      ScanFullLines(CleanLines(rest), None, []);
      assert CleanLines(block)[1..] == CleanLines(rest);
    } else {
      BlockLines(block);
      ScanFullLines(CleanLines(block), None, []);
    }
  }

  function EventsOfBlocks(blocks: seq<string>): seq<Event> {
    if blocks == [] then [] else ParseEvents(blocks[0]) + EventsOfBlocks(blocks[1..])
  }

  /** The events of a text are those of its blocks and its remainder, whatever the text. */
  lemma {:induction false} FrameKeepsEvents(s: string)
    ensures var f := CutBlocks(s); ParseEvents(s) == EventsOfBlocks(f.blocks) + ParseEvents(f.rest)
  {
    var k := BlankLine(s);
    if k < |s| {
      var x, y := s[..k], s[k + 2..];
      FirstBlockText(s);
      EventsSplit(x, y);
      FrameKeepsEvents(y);
      FrameStep(s);
      EventsOfBlocksStep(x, CutBlocks(y).blocks);
      Assoc(ParseEvents(x), EventsOfBlocks(CutBlocks(y).blocks), ParseEvents(CutBlocks(y).rest));
    }
  }

  /** The events of a text are those of its blocks, each of which holds at most one. */
  lemma {:induction false} EventsOfFrame(s: string)
    requires NoCrOnlyLine(s)
    ensures var f := CutBlocks(s);
            && ParseEvents(s) == EventsOfBlocks(f.blocks) + ParseEvents(f.rest)
            && (forall b | b in f.blocks :: |ParseEvents(b)| <= 1)
            && |ParseEvents(f.rest)| <= 1
  {
    FrameKeepsEvents(s);
    var k := BlankLine(s);
    if k == |s| {
      BlockHasOneEvent(s);
    } else {
      FirstBlock(s);
      BlockHasOneEvent(s[..k]);
      EventsOfFrame(s[k + 2..]);
      FrameStep(s);
    }
  }

  lemma EventsOfBlocksStep(block: string, blocks: seq<string>)
    ensures EventsOfBlocks([block] + blocks) == ParseEvents(block) + EventsOfBlocks(blocks)
  {
    assert ([block] + blocks)[1..] == blocks;
  }

  lemma FirstBlock(s: string)
    requires BlankLine(s) < |s| && NoCrOnlyLine(s)
    ensures var k := BlankLine(s);
            var x, y := s[..k], s[k + 2..];
            && s == x + "\n\n" + y && BlankLine(x) == |x|
            && (x == [] || x[|x| - 1] != '\n')
            && NoCrOnlyLine(x) && NoCrOnlyLine(y)
  {
    var k := BlankLine(s);
    var x, y := s[..k], s[k + 2..];
    FirstBlockText(s);
    NoCrOnlyLineSplit(x, "\n" + y);
    AfterLineFeed(y);
  }

  lemma FirstBlockText(s: string)
    requires BlankLine(s) < |s|
    ensures var k := BlankLine(s);
            var x, y := s[..k], s[k + 2..];
            && s == x + "\n\n" + y && s == x + "\n" + ("\n" + y)
            && BlankLine(x) == |x| && (x == [] || x[|x| - 1] != '\n')
  {
    var k := BlankLine(s);
    var x := s[..k];
    var m := BlankLine(x);
    assert BlankAt(x, m) ==> BlankAt(s, m);
    assert x != [] ==> !BlankAt(s, k - 1);
  }

  lemma AfterLineFeed(y: string)
    requires NoCrOnlyLine("\n" + y)
    ensures NoCrOnlyLine(y)
  {
    assert "\n" + y == [] + "\n" + y;
    NoCrOnlyLineSplit([], y);
  }

  predicate AllWhitespace(s: string) {
    forall i | 0 <= i < |s| :: IsWhitespace(s[i])
  }

  lemma TrimmedAway(s: string)
    requires Trim(s) == []
    ensures AllWhitespace(s)
  {
    TrimEndKeeps(TrimStart(s));
    TrimStartDrops(s);
  }

  lemma {:induction false} TrimEndKeeps(s: string)
    ensures s != [] && !IsWhitespace(s[0]) ==> TrimEnd(s) != []
  {
    if s != [] && IsWhitespace(s[|s| - 1]) {
      TrimEndKeeps(s[..|s| - 1]);
    }
  }

  lemma {:induction false} TrimStartDrops(s: string)
    ensures TrimStart(s) == [] ==> AllWhitespace(s)
  {
    if s != [] && IsWhitespace(s[0]) {
      TrimStartDrops(s[1..]);
      assert forall i | 1 <= i < |s| :: s[i] == s[1..][i - 1];
    }
  }

  predicate AllBlank(lines: seq<string>) {
    forall i | 0 <= i < |lines| :: AllWhitespace(lines[i])
  }

  lemma {:induction false} WhitespaceLines(s: string)
    requires AllWhitespace(s)
    ensures AllBlank(CleanLines(s))
  {
    if s != [] {
      var k := LineEnd(s);
      if k < |s| { WhitespaceLines(s[k + 1..]); }
    }
  }

  lemma {:induction false} ScanWhitespace(lines: seq<string>)
    requires AllBlank(lines)
    ensures Scan(lines, None, []) == []
  {
    if lines != [] {
      NotAField(lines[0]);
      assert Flush(None, []) == [];
      ScanWhitespace(lines[1..]);
    }
  }

  lemma NotAField(line: string)
    requires AllWhitespace(line)
    ensures !StartsWith(line, "event:") && !StartsWith(line, "data:")
  {
    if line != [] {
      assert "event:"[0] == 'e' && "data:"[0] == 'd';
    }
  }

  /** A remainder that trims to nothing holds no event. */
  lemma BlankRestHasNoEvent(s: string)
    requires Trim(s) == []
    ensures ParseEvents(s) == []
  {
    TrimmedAway(s);
    WhitespaceLines(s);
    ScanWhitespace(CleanLines(s));
  }
}
