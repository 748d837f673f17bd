/** Printing an event again and parsing what was printed. */
module SsePrint {
  import opened Options
  import opened Strings
  import opened SseText

  function DataLines(lines: seq<string>): string {
    if lines == [] then [] else "data: " + lines[0] + "\n" + DataLines(lines[1..])
  }

  function NameLine(name: Option<string>): string {
    match name
    case Some(n) => "event: " + n + "\n"
    case None => ""
  }

  /** One event as the transcript converter prints it. */
  function Reprint(e: Event): string {
    NameLine(e.name) + DataLines(Lines(e.data)) + "\n"
  }

  // ----- what the parser can produce -----

  predicate GoodName(name: string) {
    OneLine(name) && (name == [] || (!IsWhitespace(name[0]) && !IsWhitespace(name[|name| - 1])))
  }

  predicate GoodLine(line: string) {
    OneLine(line) && (line == [] || (!IsWhitespace(line[0]) && line[|line| - 1] != '\r'))
  }

  /** Every line of the text is a good line. */
  predicate GoodData(s: string) {
    var k := LineEnd(s);
    GoodLine(s[..k]) && (k < |s| ==> GoodData(s[k + 1..]))
  }

  predicate GoodEvent(e: Event) {
    (e.name.Some? ==> GoodName(e.name.value)) && GoodData(e.data)
  }

  lemma {:induction false} TrimKeepsOneLine(s: string)
    requires OneLine(s)
    ensures GoodName(Trim(s))
  {
    var t := TrimStart(s);
    assert OneLine(t);
    assert OneLine(TrimEnd(t));
    TrimIsTrimmed(s);
  }

  lemma TrimStartGood(line: string)
    requires OneLine(line) && (line == [] || line[|line| - 1] != '\r')
    ensures GoodLine(TrimStart(line))
  {
    var t := TrimStart(line);
    assert t != [] ==> t[|t| - 1] == line[|line| - 1];
  }

  predicate GoodLines(lines: seq<string>) {
    forall i | 0 <= i < |lines| :: GoodLine(lines[i])
  }

  lemma GoodDataCons(line: string, rest: string)
    requires OneLine(line)
    ensures GoodData(line + "\n" + rest) <==> GoodLine(line) && GoodData(rest)
  {
    LineEndOf(line, rest);
    var s := line + "\n" + rest;
    assert s[..|line|] == line && s[|line| + 1..] == rest;
  }

  lemma GoodDataLast(line: string)
    requires OneLine(line)
    ensures GoodData(line) <==> GoodLine(line)
  {
    LineCut(line);
    assert LineEnd(line) == |line|;
    assert line[..|line|] == line;
  }

  lemma {:induction false} JoinGood(lines: seq<string>)
    requires GoodLines(lines)
    ensures GoodData(Join(lines, "\n"))
  {
    if |lines| <= 1 {
      GoodDataLast(Join(lines, "\n"));
    } else {
      JoinGood(lines[1..]);
      GoodDataCons(lines[0], Join(lines[1..], "\n"));
    }
  }

  /** Lines as the parser sees them: no line feed inside, no carriage return at the end. */
  predicate Cleaned(lines: seq<string>) {
    forall i | 0 <= i < |lines| :: OneLine(lines[i]) && (lines[i] == [] || lines[i][|lines[i]| - 1] != '\r')
  }

  lemma {:induction false} CleanLinesCleaned(s: string)
    ensures Cleaned(CleanLines(s))
  {
    var k := LineEnd(s);
    LineCut(s);
    if k == |s| {
      CleanLinesLast(s);
    } else {
      CleanLinesCons(s[..k], s[k + 1..]);
      CleanLinesCleaned(s[k + 1..]);
    }
  }

  predicate GoodEvents(events: seq<Event>) {
    forall i | 0 <= i < |events| :: GoodEvent(events[i])
  }

  lemma {:induction false} ScanGood(lines: seq<string>, name: Option<string>, data: seq<string>)
    requires Cleaned(lines) && GoodLines(data) && (name.Some? ==> GoodName(name.value))
    ensures GoodEvents(Scan(lines, name, data))
  {
    JoinGood(data);
    if lines != [] {
      var line := lines[0];
      if line == [] {
        ScanGood(lines[1..], None, []);
      } else if StartsWith(line, "event:") {
        assert OneLine(line[6..]);
        TrimKeepsOneLine(line[6..]);
        ScanGood(lines[1..], Some(Trim(line[6..])), data);
      } else if StartsWith(line, "data:") {
        assert OneLine(line[5..]);
        TrimStartGood(line[5..]);
        ScanGood(lines[1..], name, data + [TrimStart(line[5..])]);
      } else {
        ScanGood(lines[1..], name, data);
      }
    }
  }

  /** Whatever the text, the parsed events have trimmed names and data lines. */
  lemma ParsedEventsAreGood(s: string)
    ensures GoodEvents(ParseEvents(s))
  {
    CleanLinesCleaned(s);
    ScanGood(CleanLines(s), None, []);
  }

  // ----- printing, then parsing -----

  /** The data that comes back: a final line feed is lost. */
  function Chomp(data: string): string {
    if EndsWith(data, "\n") then data[..|data| - 1] else data
  }

  lemma LinesCons(line: string, rest: string)
    requires OneLine(line) && (line == [] || line[|line| - 1] != '\r')
    ensures Lines(line + "\n" + rest) == [line] + Lines(rest)
  {
    var s := line + "\n" + rest;
    LineEndOf(line, rest);
    assert s[..|line|] == line && s[|line| + 1..] == rest;
  }

  lemma ChompCons(line: string, rest: string)
    ensures rest != [] ==> Chomp(line + "\n" + rest) == line + "\n" + Chomp(rest)
    ensures rest == [] ==> Chomp(line + "\n" + rest) == line
  {
    var s := line + "\n" + rest;
    if rest != [] {
      assert s[|s| - 1..] == rest[|rest| - 1..];
      assert s[..|s| - 1] == line + "\n" + rest[..|rest| - 1];
    } else {
      assert s[|s| - 1..] == "\n";
    }
  }

  lemma {:induction false} JoinLines(data: string)
    requires GoodData(data)
    ensures GoodLines(Lines(data))
    ensures Join(Lines(data), "\n") == Chomp(data)
    ensures Lines(data) == [] <==> data == []
  {
    var k := LineEnd(data);
    LineCut(data);
    if k == |data| {
      assert !EndsWith(data, "\n");
    } else {
      var line, rest := data[..k], data[k + 1..];
      LinesCons(line, rest);
      JoinLines(rest);
      ChompCons(line, rest);
      if rest != [] {
        assert ([line] + Lines(rest))[1..] == Lines(rest);
      }
    }
  }

  lemma Spaced(s: string)
    requires s == [] || !IsWhitespace(s[0])
    ensures TrimStart(" " + s) == s
    ensures s == [] || !IsWhitespace(s[|s| - 1]) ==> Trim(" " + s) == s
  {
    assert (" " + s)[1..] == s;
    assert TrimStart(" " + s) == TrimStart(s);
  }

  lemma DataLineParsed(line: string)
    requires GoodLine(line)
    ensures var text := "data: " + line;
            && OneLine(text) && TrimEndCr(text) == text && text != []
            && StartsWith(text, "data:") && !StartsWith(text, "event:")
            && TrimStart(text[5..]) == line
  {
    var text := "data: " + line;
    assert text[..5] == "data:";
    assert text[0] == 'd' && "event:"[0] == 'e';
    assert text[5..] == " " + line;
    assert "data: "[5] == ' ';
    assert line != [] ==> text[|text| - 1] == line[|line| - 1];
    assert line == [] ==> text[|text| - 1] == ' ';
    Spaced(line);
  }

  lemma ScanData(text: string, line: string, rest: string, name: Option<string>, data: seq<string>)
    requires OneLine(text) && TrimEndCr(text) == text && text != []
    requires StartsWith(text, "data:") && !StartsWith(text, "event:") && TrimStart(text[5..]) == line
    ensures Scan(CleanLines(text + "\n" + rest), name, data) == Scan(CleanLines(rest), name, data + [line])
  {
    CleanLinesCons(text, rest);
    assert ([text] + CleanLines(rest))[1..] == CleanLines(rest);
  }

  lemma ScanName(text: string, value: string, rest: string, data: seq<string>)
    requires OneLine(text) && TrimEndCr(text) == text && text != []
    requires StartsWith(text, "event:") && Trim(text[6..]) == value
    ensures Scan(CleanLines(text + "\n" + rest), None, data) == Scan(CleanLines(rest), Some(value), data)
  {
    CleanLinesCons(text, rest);
    assert ([text] + CleanLines(rest))[1..] == CleanLines(rest);
  }

  lemma DataLinesCons(text: string, rest: string)
    ensures text + "\n" + rest + "\n" == text + "\n" + (rest + "\n")
  {
  }

  lemma {:induction false} ScanDataLines(lines: seq<string>, name: Option<string>, data: seq<string>)
    requires GoodLines(lines)
    ensures Scan(CleanLines(DataLines(lines) + "\n"), name, data) == Flush(name, data + lines)
  {
    if lines == [] {
      ScanBlank(name, data);
      assert data + lines == data;
    } else {
      var text := FirstDataLine(lines);
      DataLinesCons(text, DataLines(lines[1..]));
      ScanData(text, lines[0], DataLines(lines[1..]) + "\n", name, data);
      ScanDataLines(lines[1..], name, data + [lines[0]]);
      Shift(data, lines);
    }
  }

  lemma Shift(a: seq<string>, b: seq<string>)
    requires b != []
    ensures a + [b[0]] + b[1..] == a + b
  {
  }

  lemma FirstDataLine(lines: seq<string>) returns (text: string)
    requires lines != [] && GoodLine(lines[0])
    ensures DataLines(lines) == text + "\n" + DataLines(lines[1..])
    ensures OneLine(text) && TrimEndCr(text) == text && text != []
    ensures StartsWith(text, "data:") && !StartsWith(text, "event:") && TrimStart(text[5..]) == lines[0]
  {
    text := "data: " + lines[0];
    DataLineParsed(lines[0]);
  }

  lemma ScanBlank(name: Option<string>, data: seq<string>)
    ensures Scan(CleanLines([] + "\n"), name, data) == Flush(name, data)
  {
    assert [] + "\n" == [] + "\n" + [];
    CleanLinesCons([], []);
    assert CleanLines([] + "\n") == [""];
    ScanFrom([""], 0, name, data);
    assert [""][0..] == [""] && [""][1..] == [];
    assert Scan([], None, []) == [];
  }

  lemma NameLineParsed(name: string)
    requires GoodName(name)
    ensures var text := "event: " + name;
            && OneLine(text) && TrimEndCr(text) == text && text != []
            && StartsWith(text, "event:") && Trim(text[6..]) == name
  {
    var text := "event: " + name;
    assert text[..6] == "event:";
    assert text[6..] == " " + name;
    assert "event: "[6] == ' ';
    assert name != [] ==> text[|text| - 1] == name[|name| - 1];
    assert name == [] ==> text[|text| - 1] == ' ';
    Spaced(name);
  }

  /** What one printed event is parsed as. */
  lemma ReprintParsed(e: Event)
    requires GoodEvent(e)
    ensures ParseEvents(Reprint(e))
         == if e.name.None? && e.data == "" then [] else [Event(e.name, Chomp(e.data))]
  {
    JoinLines(e.data);
    var lines := Lines(e.data);
    var rest := DataLines(lines) + "\n";
    ScanDataLines(lines, e.name, []);
    assert [] + lines == lines;
    match e.name
    case None =>
      assert [] + DataLines(lines) == DataLines(lines);
    case Some(name) =>
      NameLineParsed(name);
      DataLinesCons("event: " + name, DataLines(lines));
      ScanName("event: " + name, name, rest, []);
  }

  /**
   Print then parse gives an event back, unchanged and alone, exactly when its data does not end
   in a line feed and it is not the nameless event without data.
   */
  lemma PrintThenParse(e: Event)
    requires GoodEvent(e)
    ensures ParseEvents(Reprint(e)) == [e] <==>
            !EndsWith(e.data, "\n") && !(e.name.None? && e.data == "")
  {
    ReprintParsed(e);
    assert EndsWith(e.data, "\n") ==> |Chomp(e.data)| < |e.data|;
  }

  function ReprintAll(events: seq<Event>): string {
    if events == [] then [] else Reprint(events[0]) + ReprintAll(events[1..])
  }

  lemma ReprintEndsBlank(e: Event) returns (x: string)
    requires GoodEvent(e) && e.data != []
    ensures Reprint(e) == x + "\n\n" && x != [] && x[|x| - 1] != '\n'
  {
    JoinLines(e.data);
    var head := DataLinesEnd(Lines(e.data));
    var name := NameLine(e.name);
    x := name + head;
    LastOf(name, head);
    TwoLineFeeds(name, head);
  }

  lemma TwoLineFeeds(a: string, b: string)
    ensures a + (b + "\n") + "\n" == (a + b) + "\n\n"
  {
  }

  lemma {:induction false} DataLinesEnd(lines: seq<string>) returns (x: string)
    requires lines != [] && GoodLines(lines)
    ensures DataLines(lines) == x + "\n" && x != [] && x[|x| - 1] != '\n'
  {
    var text := FirstDataLine(lines);
    if |lines| == 1 {
      x := text;
      assert x + "\n" + [] == x + "\n";
    } else {
      var y := DataLinesEnd(lines[1..]);
      x := text + "\n" + y;
      DataLinesCons(text, y);
      LastOf(text + "\n", y);
    }
  }

  lemma LastOf(a: string, b: string)
    requires b != []
    ensures a + b != [] && (a + b)[|a + b| - 1] == b[|b| - 1]
  {
  }

  /** Events whose data is neither empty nor ends in a line feed come back unchanged. */
  predicate Printable(e: Event) {
    GoodEvent(e) && e.data != "" && !EndsWith(e.data, "\n")
  }

  /** A client that parses a printed stream gets the printed events, in order. */
  lemma {:induction false} PrintAllThenParse(events: seq<Event>)
    requires forall e | e in events :: Printable(e)
    ensures ParseEvents(ReprintAll(events)) == events
  {
    if events != [] {
      var first, rest := events[0], events[1..];
      PrintAllThenParse(rest);
      assert Printable(first);
      PrintThenParse(first);
      var x := ReprintEndsBlank(first);
      PrintedFirst(x, ReprintAll(rest), first);
      assert events == [first] + rest;
    }
  }

  lemma PrintedFirst(x: string, rest: string, e: Event)
    requires x == [] || x[|x| - 1] != '\n'
    requires ParseEvents(x + "\n\n") == [e]
    ensures ParseEvents(x + "\n\n" + rest) == [e] + ParseEvents(rest)
  {
    EventsSplit(x, rest);
    EventsSplit(x, []);
    assert x + "\n\n" + [] == x + "\n\n";
    assert ParseEvents([]) == [];
    assert ParseEvents(x) + [] == ParseEvents(x);
  }
}
