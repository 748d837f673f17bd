/**
 JSON values and the compact text serde_json gives them (RFC 8259; strings in section 7).
 An object is the list of its entries in iteration order; its keys are distinct in every
 value a parser can build, which is what `Valid` says.
 */
module Json {
  import opened Options

  /** serde_json keeps three kinds of number; a float is identified by its shortest text. */
  datatype Number = PosInt(n: nat) | NegInt(magnitude: nat) | Float(text: string)

  datatype Value =
    | Null
    | Bool(b: bool)
    | Num(number: Number)
    | String(s: string)
    | Array(items: seq<Value>)
    | Object(entries: seq<Entry>)
  {
    /** `Value::get(key)`: a field of an object, nothing on any other value. */
    function Get(key: string): Option<Value> {
      if Object? then Lookup(entries, key) else None
    }

    function AsStr(): Option<string> {
      if String? then Some(s) else None
    }
  }

  datatype Entry = Entry(key: string, value: Value)

  function Lookup(entries: seq<Entry>, key: string): Option<Value> {
    if entries == [] then None
    else if entries[0].key == key then Some(entries[0].value)
    else Lookup(entries[1..], key)
  }

  lemma {:induction false} LookupAt(entries: seq<Entry>, key: string, i: nat)
    requires i < |entries| && entries[i].key == key && forall j | 0 <= j < i :: entries[j].key != key
    ensures Lookup(entries, key) == Some(entries[i].value)
  {
    if i > 0 {
      assert forall j | 0 <= j < i - 1 :: entries[1..][j] == entries[j + 1];
      LookupAt(entries[1..], key, i - 1);
    }
  }

  /** `value.get(key).and_then(Value::as_str)`. */
  function GetStr(v: Value, key: string): Option<string> {
    match v.Get(key)
    case Some(field) => field.AsStr()
    case None => None
  }

  // ----- validity -----

  predicate IsNumberChar(c: char) {
    '0' <= c <= '9' || c == '-' || c == '+' || c == '.' || c == 'e'
  }

  predicate ValidNumber(n: Number) {
    match n
    case PosInt(_) => true
    case NegInt(m) => m > 0
    case Float(t) => (forall c | c in t :: IsNumberChar(c)) && ('.' in t || 'e' in t)
  }

  predicate DistinctKeys(entries: seq<Entry>) {
    forall i, j | 0 <= i < j < |entries| :: entries[i].key != entries[j].key
  }

  predicate Valid(v: Value) {
    match v
    case Num(n) => ValidNumber(n)
    case Array(items) => forall i | 0 <= i < |items| :: Valid(items[i])
    case Object(entries) =>
      DistinctKeys(entries) && forall i | 0 <= i < |entries| :: Valid(entries[i].value)
    case _ => true
  }

  // ----- compact text -----

  function Digit(d: nat): char
    requires d < 10
  {
    '0' + d as char
  }

  function Decimal(n: nat): string {
    if n < 10 then [Digit(n)] else Decimal(n / 10) + [Digit(n % 10)]
  }

  function NumberText(n: Number): string {
    match n
    case PosInt(k) => Decimal(k)
    case NegInt(m) => "-" + Decimal(m)
    case Float(t) => t
  }

  function HexLower(d: nat): char
    requires d < 16
  {
    if d < 10 then '0' + d as char else 'a' + (d - 10) as char
  }

  /** serde_json escapes the quote, the backslash and the control characters below U+0020. */
  function EscapeChar(c: char): string {
    if c == '\"' then "\\\""
    else if c == '\\' then "\\\\"
    else if c as int == 8 then "\\b"
    else if c as int == 12 then "\\f"
    else if c == '\n' then "\\n"
    else if c == '\r' then "\\r"
    else if c == '\t' then "\\t"
    else if (c as int) < 32 then "\\u00" + [HexLower(c as int / 16), HexLower(c as int % 16)]
    else [c]
  }

  function Escape(s: string): string {
    if s == [] then [] else EscapeChar(s[0]) + Escape(s[1..])
  }

  function Quote(s: string): string {
    "\"" + Escape(s) + "\""
  }

  /** The text of a value whose objects are printed in the order of their entries. */
  function Text(v: Value): string {
    match v
    case Null => "null"
    case Bool(b) => if b then "true" else "false"
    case Num(n) => NumberText(n)
    case String(s) => Quote(s)
    case Array(items) => "[" + ItemsText(items) + "]"
    case Object(entries) => "{" + EntriesText(entries) + "}"
  }

  function ItemsText(items: seq<Value>): string {
    if items == [] then []
    else if |items| == 1 then Text(items[0])
    else Text(items[0]) + "," + ItemsText(items[1..])
  }

  function EntryText(e: Entry): string {
    Quote(e.key) + ":" + Text(e.value)
  }

  function EntriesText(entries: seq<Entry>): string {
    if entries == [] then []
    else if |entries| == 1 then EntryText(entries[0])
    else EntryText(entries[0]) + "," + EntriesText(entries[1..])
  }
}

/** A reader of compact JSON texts (RFC 8259, without white space), and that it reads every printed value back. */
module JsonReader {
  import opened Options
  import opened Json

  // ----- strings -----

  function HexDigit(c: char): Option<nat> {
    if '0' <= c <= '9' then Some(c as int - '0' as int)
    else if 'a' <= c <= 'f' then Some(c as int - 'a' as int + 10)
    else if 'A' <= c <= 'F' then Some(c as int - 'A' as int + 10)
    else None
  }

  /** What a backslash and one letter stand for. */
  function Escaped(c: char): Option<char> {
    match c
    case '\"' => Some('\"')
    case '\\' => Some('\\')
    case '/' => Some('/')
    case 'b' => Some(8 as char)
    case 'f' => Some(12 as char)
    case 'n' => Some(10 as char)
    case 'r' => Some(13 as char)
    case 't' => Some(9 as char)
    case _ => None
  }

  /** Four hexadecimal digits; halves of a surrogate pair are not read. */
  function CodeUnit(digits: string): Option<char>
    requires |digits| == 4
  {
    var a, b, c, d := HexDigit(digits[0]), HexDigit(digits[1]), HexDigit(digits[2]), HexDigit(digits[3]);
    if a.None? || b.None? || c.None? || d.None? then None
    else
      var n := ((a.value * 16 + b.value) * 16 + c.value) * 16 + d.value;
      if n < 0xD800 || 0xE000 <= n < 0x10000 then Some(n as char) else None
  }

  /** One character of a string, and what follows it. */
  function ReadChar(s: string): (r: Option<(char, string)>)
    ensures r.Some? ==> |r.value.1| < |s|
  {
    if s == [] || s[0] == '\"' || s[0] as int < 32 then None
    else if s[0] != '\\' then Some((s[0], s[1..]))
    else if |s| >= 6 && s[1] == 'u' then
      match CodeUnit(s[2..6]) case Some(c) => Some((c, s[6..])) case None => None
    else if |s| >= 2 then
      match Escaped(s[1]) case Some(c) => Some((c, s[2..])) case None => None
    else None
  }

  /** A string from after its opening quote, and what follows its closing one. */
  function ReadString(s: string): (r: Option<(string, string)>)
    ensures r.Some? ==> |r.value.1| < |s|
  {
    if s != [] && s[0] == '\"' then Some(("", s[1..]))
    else match ReadChar(s)
      case None => None
      case Some((c, more)) =>
        match ReadString(more)
        case None => None
        case Some((text, rest)) => Some(([c] + text, rest))
  }

  // ----- numbers -----

  /** How many characters of a text can belong to the number at its start. */
  function NumberPrefix(s: string): (k: nat)
    ensures k <= |s|
  {
    if s == [] || !IsNumberChar(s[0]) then 0 else 1 + NumberPrefix(s[1..])
  }

  function DecimalValue(digits: string): Option<nat> {
    if digits == [] then Some(0)
    else
      var last := digits[|digits| - 1];
      match DecimalValue(digits[..|digits| - 1])
      case Some(n) => if '0' <= last <= '9' then Some(10 * n + (last as int - '0' as int)) else None
      case None => None
  }

  /** A number token: a float if it has a point or an exponent, or else an integer. */
  function NumberOf(token: string): Option<Number> {
    if '.' in token || 'e' in token then Some(Float(token))
    else if token != [] && token[0] == '-' then
      match DecimalValue(token[1..]) case Some(n) => Some(NegInt(n)) case None => None
    else
      match DecimalValue(token) case Some(n) => Some(PosInt(n)) case None => None
  }

  // ----- values -----

  /** A value at the start of a text, and what follows it. */
  function Read(s: string): (r: Option<(Value, string)>)
    ensures r.Some? ==> |r.value.1| < |s|
    decreases |s|, 0
  {
    if s == [] then None
    else if s[0] == '\"' then
      match ReadString(s[1..]) case Some((text, rest)) => Some((Value.String(text), rest)) case None => None
    else if s[0] == '[' then
      if |s| > 1 && s[1] == ']' then Some((Array([]), s[2..]))
      else match ReadItems(s[1..]) case Some((items, rest)) => Some((Array(items), rest)) case None => None
    else if s[0] == '{' then
      if |s| > 1 && s[1] == '}' then Some((Object([]), s[2..]))
      else match ReadEntries(s[1..]) case Some((entries, rest)) => Some((Object(entries), rest)) case None => None
    else if IsNumberChar(s[0]) then
      match NumberOf(s[..NumberPrefix(s)]) case Some(n) => Some((Num(n), s[NumberPrefix(s)..])) case None => None
    else ReadWord(s)
  }

  function ReadWord(s: string): (r: Option<(Value, string)>)
    ensures r.Some? ==> |r.value.1| < |s|
  {
    if |s| >= 4 && s[..4] == "null" then Some((Null, s[4..]))
    else if |s| >= 4 && s[..4] == "true" then Some((Bool(true), s[4..]))
    else if |s| >= 5 && s[..5] == "false" then Some((Bool(false), s[5..]))
    else None
  }

  /** The items of an array up to its closing bracket. */
  function ReadItems(s: string): (r: Option<(seq<Value>, string)>)
    ensures r.Some? ==> |r.value.1| < |s|
    decreases |s|, 1
  {
    match Read(s)
    case None => None
    case Some((item, more)) =>
      if more == [] then None
      else if more[0] == ']' then Some(([item], more[1..]))
      else if more[0] != ',' then None
      else match ReadItems(more[1..])
        case Some((items, rest)) => Some(([item] + items, rest))
        case None => None
  }

  function ReadEntry(s: string): (r: Option<(Entry, string)>)
    ensures r.Some? ==> |r.value.1| < |s|
    decreases |s|, 1
  {
    if s == [] || s[0] != '\"' then None
    else match ReadString(s[1..])
      case None => None
      case Some((key, more)) =>
        if more == [] || more[0] != ':' then None
        else match Read(more[1..])
          case Some((value, rest)) => Some((Entry(key, value), rest))
          case None => None
  }

  /** The entries of an object up to its closing brace. */
  function ReadEntries(s: string): (r: Option<(seq<Entry>, string)>)
    ensures r.Some? ==> |r.value.1| < |s|
    decreases |s|, 2
  {
    match ReadEntry(s)
    case None => None
    case Some((entry, more)) =>
      if more == [] then None
      else if more[0] == '}' then Some(([entry], more[1..]))
      else if more[0] != ',' then None
      else match ReadEntries(more[1..])
        case Some((entries, rest)) => Some(([entry] + entries, rest))
        case None => None
  }

  /** A whole text. */
  function ReadAll(s: string): Option<Value> {
    match Read(s)
    case Some((v, rest)) => if rest == [] then Some(v) else None
    case None => None
  }

  // ----- strings are read back -----

  lemma CharReadsBack(c: char, rest: string)
    ensures ReadChar(EscapeChar(c) + rest) == Some((c, rest))
    ensures EscapeChar(c) != [] && EscapeChar(c)[0] != '\"'
  {
    var e, whole := EscapeChar(c), EscapeChar(c) + rest;
    assert whole[|e|..] == rest;
    assert forall i | 0 <= i < |e| :: whole[i] == e[i];
    if |e| == 6 {
      assert whole[2..6] == ['0', '0', e[4], e[5]];
    }
  }

  lemma {:induction false} StringReadsBack(s: string, rest: string)
    ensures ReadString(Escape(s) + "\"" + rest) == Some((s, rest))
  {
    if s == [] {
      assert Escape(s) + "\"" + rest == "\"" + rest;
    } else {
      var more := Escape(s[1..]) + "\"" + rest;
      CharReadsBack(s[0], more);
      assert Escape(s) + "\"" + rest == EscapeChar(s[0]) + more;
      StringReadsBack(s[1..], rest);
      assert [s[0]] + s[1..] == s;
    }
  }

  // ----- numbers are read back -----

  /** What may follow a number inside a JSON text: nothing, or a character no number contains. */
  predicate Delimited(rest: string) {
    rest == [] || !IsNumberChar(rest[0])
  }

  lemma {:induction false} NumberPrefixOf(a: string, r: string)
    requires forall c | c in a :: IsNumberChar(c)
    requires Delimited(r)
    ensures NumberPrefix(a + r) == |a|
  {
    if a == [] {
      assert a + r == r;
    } else {
      assert (a + r)[1..] == a[1..] + r;
      NumberPrefixOf(a[1..], r);
    }
  }

  lemma {:induction false} DecimalReadsBack(n: nat)
    ensures DecimalValue(Decimal(n)) == Some(n)
    ensures Decimal(n) != [] && forall c | c in Decimal(n) :: '0' <= c <= '9'
  {
    var text := Decimal(n);
    if n < 10 {
      assert text[..0] == [];
    } else {
      DecimalReadsBack(n / 10);
      assert text[..|text| - 1] == Decimal(n / 10);
    }
  }

  lemma DigitsAlone(digits: string)
    requires digits != [] && forall c | c in digits :: '0' <= c <= '9'
    ensures '.' !in digits && 'e' !in digits && '.' !in "-" + digits && 'e' !in "-" + digits && digits[0] != '-'
  {
    assert digits[0] in digits;
  }

  lemma NumberReadsBack(n: Number)
    requires ValidNumber(n)
    ensures NumberOf(NumberText(n)) == Some(n)
    ensures NumberText(n) != [] && forall c | c in NumberText(n) :: IsNumberChar(c)
  {
    match n
    case PosInt(k) =>
      DecimalReadsBack(k);
      DigitsAlone(Decimal(k));
    case NegInt(m) =>
      DecimalReadsBack(m);
      DigitsAlone(Decimal(m));
      assert NumberText(n)[0] == '-' && NumberText(n)[1..] == Decimal(m);
    case Float(_) =>
  }

  // ----- values are read back -----

  lemma TextFirst(v: Value)
    requires Valid(v)
    ensures Text(v) != [] && Text(v)[0] !in {',', ']', '}', '\n', '\r'}
  {
    if v.Num? {
      NumberReadsBack(v.number);
      assert Text(v)[0] in Text(v);
    }
  }

  lemma WordReadsBack(v: Value, word: string, rest: string)
    requires v.Null? || v.Bool?
    requires word == Text(v)
    ensures Read(word + rest) == Some((v, rest))
  {
    var whole := word + rest;
    assert whole[..|word|] == word && whole[|word|..] == rest;
    assert whole[0] == word[0];
    if word == "false" { assert whole[..4][0] != "null"[0] && whole[..4][0] != "true"[0]; }
    if word == "true" { assert whole[..4][0] != "null"[0]; }
  }

  lemma ReadNumber(token: string, rest: string, n: Number)
    requires token != [] && (forall c | c in token :: IsNumberChar(c)) && Delimited(rest)
    requires NumberOf(token) == Some(n)
    ensures Read(token + rest) == Some((Num(n), rest))
  {
    var whole := token + rest;
    NumberPrefixOf(token, rest);
    assert whole[..|token|] == token && whole[|token|..] == rest && whole[0] == token[0];
    assert whole[0] in token;
  }

  lemma ReadArray(s: string, items: seq<Value>, rest: string)
    requires s != [] && s[0] != ']' && ReadItems(s) == Some((items, rest))
    ensures Read("[" + s) == Some((Array(items), rest))
  {
    assert ("[" + s)[1..] == s;
  }

  lemma ReadObject(s: string, entries: seq<Entry>, rest: string)
    requires s != [] && s[0] != '}' && ReadEntries(s) == Some((entries, rest))
    ensures Read("{" + s) == Some((Object(entries), rest))
  {
    assert ("{" + s)[1..] == s;
  }

  lemma ReadEmpty(rest: string)
    ensures Read("[]" + rest) == Some((Array([]), rest)) && Read("{}" + rest) == Some((Object([]), rest))
  {
    assert ("[]" + rest)[2..] == rest && ("{}" + rest)[2..] == rest;
  }

  lemma ReadQuoted(s: string, rest: string)
    ensures Quote(s) + rest == "\"" + (Escape(s) + "\"" + rest)
    ensures Read(Quote(s) + rest) == Some((Value.String(s), rest))
  {
    StringReadsBack(s, rest);
    var inner := Escape(s) + "\"" + rest;
    assert Quote(s) + rest == "\"" + inner && ("\"" + inner)[1..] == inner;
  }

  lemma Enclosed(open: string, inner: string, close: string, rest: string)
    ensures open + inner + close + rest == open + (inner + (close + rest))
  {
  }

  /** Every valid value is read back from its text, whatever may follow it. */
  lemma {:induction false} ReadsBack(v: Value, rest: string)
    requires Valid(v) && Delimited(rest)
    ensures Read(Text(v) + rest) == Some((v, rest))
    decreases v
  {
    match v
    case Null => WordReadsBack(v, Text(v), rest);
    case Bool(_) => WordReadsBack(v, Text(v), rest);
    case Num(n) =>
      NumberReadsBack(n);
      ReadNumber(NumberText(n), rest, n);
    case String(s) => ReadQuoted(s, rest);
    case Array(items) =>
      if items == [] {
        ReadEmpty(rest);
      } else {
        ItemsReadBack(v, items, rest);
        ItemsStart(items, "]" + rest);
        Enclosed("[", ItemsText(items), "]", rest);
        ReadArray(ItemsText(items) + ("]" + rest), items, rest);
      }
    case Object(entries) =>
      if entries == [] {
        ReadEmpty(rest);
      } else {
        EntriesReadBack(v, entries, rest);
        EntriesStart(entries, "}" + rest);
        Enclosed("{", EntriesText(entries), "}", rest);
        ReadObject(EntriesText(entries) + ("}" + rest), entries, rest);
      }
  }

  ghost predicate ItemsWithin(v: Value, items: seq<Value>) {
    forall i | 0 <= i < |items| :: items[i] < v && Valid(items[i])
  }

  ghost predicate EntriesWithin(v: Value, entries: seq<Entry>) {
    forall i | 0 <= i < |entries| :: entries[i].value < v && Valid(entries[i].value)
  }

  lemma ReadLastItem(s: string, item: Value, rest: string)
    requires Read(s) == Some((item, "]" + rest))
    ensures ReadItems(s) == Some(([item], rest))
  {
    assert ("]" + rest)[1..] == rest;
  }

  lemma ReadNextItem(s: string, item: Value, more: string, items: seq<Value>, rest: string)
    requires Read(s) == Some((item, "," + more)) && ReadItems(more) == Some((items, rest))
    ensures ReadItems(s) == Some(([item] + items, rest))
  {
    assert ("," + more)[1..] == more;
  }

  lemma CommaFirst(a: string, b: string, c: string)
    ensures a + "," + b + c == a + ("," + (b + c))
  {
  }

  lemma ItemsNext(items: seq<Value>, close: string)
    requires |items| > 1
    ensures ItemsText(items) + close == Text(items[0]) + ("," + (ItemsText(items[1..]) + close))
  {
    CommaFirst(Text(items[0]), ItemsText(items[1..]), close);
  }

  lemma {:induction false} ItemsReadBack(v: Value, items: seq<Value>, rest: string)
    requires items != [] && ItemsWithin(v, items)
    ensures ReadItems(ItemsText(items) + ("]" + rest)) == Some((items, rest))
    decreases v, 0, |items|
  {
    var close := "]" + rest;
    if |items| == 1 {
      ReadsBack(items[0], close);
      ReadLastItem(ItemsText(items) + close, items[0], rest);
      assert items == [items[0]];
    } else {
      var more := ItemsText(items[1..]) + close;
      ItemsNext(items, close);
      ReadsBack(items[0], "," + more);
      ItemsReadBack(v, items[1..], rest);
      ReadNextItem(Text(items[0]) + ("," + more), items[0], more, items[1..], rest);
      assert [items[0]] + items[1..] == items;
    }
  }

  lemma ItemsStart(items: seq<Value>, close: string)
    requires items != [] && Valid(items[0])
    ensures var s := ItemsText(items) + close; s != [] && s[0] != ']'
  {
    TextFirst(items[0]);
    if |items| > 1 { ItemsNext(items, close); }
  }

  lemma ReadOneEntry(s: string, key: string, more: string, value: Value, rest: string)
    requires ReadString(s) == Some((key, ":" + more)) && Read(more) == Some((value, rest))
    ensures ReadEntry("\"" + s) == Some((Entry(key, value), rest))
  {
    assert (":" + more)[1..] == more && ("\"" + s)[1..] == s;
  }

  lemma EntryShape(e: Entry, rest: string)
    ensures EntryText(e) + rest == "\"" + (Escape(e.key) + "\"" + (":" + (Text(e.value) + rest)))
    ensures EntryText(e) != [] && EntryText(e)[0] == '\"'
  {
    var key, value := Escape(e.key), Text(e.value);
    Regrouped(key, value, rest);
  }

  lemma Regrouped(key: string, value: string, rest: string)
    ensures "\"" + key + "\"" + ":" + value + rest == "\"" + (key + "\"" + (":" + (value + rest)))
  {
  }

  lemma {:induction false} EntryReadsBack(v: Value, e: Entry, rest: string)
    requires e.value < v && Valid(e.value) && Delimited(rest)
    ensures ReadEntry(EntryText(e) + rest) == Some((e, rest))
    decreases v, 0, 0
  {
    var more := Text(e.value) + rest;
    StringReadsBack(e.key, ":" + more);
    ReadsBack(e.value, rest);
    EntryShape(e, rest);
    ReadOneEntry(Escape(e.key) + "\"" + (":" + more), e.key, more, e.value, rest);
  }

  lemma ReadLastEntry(s: string, e: Entry, rest: string)
    requires ReadEntry(s) == Some((e, "}" + rest))
    ensures ReadEntries(s) == Some(([e], rest))
  {
    assert ("}" + rest)[1..] == rest;
  }

  lemma ReadNextEntry(s: string, e: Entry, more: string, entries: seq<Entry>, rest: string)
    requires ReadEntry(s) == Some((e, "," + more)) && ReadEntries(more) == Some((entries, rest))
    ensures ReadEntries(s) == Some(([e] + entries, rest))
  {
    assert ("," + more)[1..] == more;
  }

  lemma EntriesNext(entries: seq<Entry>, close: string)
    requires |entries| > 1
    ensures EntriesText(entries) + close == EntryText(entries[0]) + ("," + (EntriesText(entries[1..]) + close))
  {
    CommaFirst(EntryText(entries[0]), EntriesText(entries[1..]), close);
  }

  lemma {:induction false} EntriesReadBack(v: Value, entries: seq<Entry>, rest: string)
    requires entries != [] && EntriesWithin(v, entries)
    ensures ReadEntries(EntriesText(entries) + ("}" + rest)) == Some((entries, rest))
    decreases v, 1, |entries|
  {
    var close := "}" + rest;
    if |entries| == 1 {
      EntryReadsBack(v, entries[0], close);
      ReadLastEntry(EntriesText(entries) + close, entries[0], rest);
      assert entries == [entries[0]];
    } else {
      var more := EntriesText(entries[1..]) + close;
      EntriesNext(entries, close);
      EntryReadsBack(v, entries[0], "," + more);
      EntriesReadBack(v, entries[1..], rest);
      ReadNextEntry(EntryText(entries[0]) + ("," + more), entries[0], more, entries[1..], rest);
      assert [entries[0]] + entries[1..] == entries;
    }
  }

  lemma EntriesStart(entries: seq<Entry>, close: string)
    requires entries != []
    ensures var s := EntriesText(entries) + close; s != [] && s[0] != '}'
  {
    EntryShape(entries[0], close);
    if |entries| > 1 { EntriesNext(entries, close); }
  }

  lemma TextReadsBack(v: Value)
    requires Valid(v)
    ensures ReadAll(Text(v)) == Some(v)
  {
    ReadsBack(v, "");
    assert Text(v) + "" == Text(v);
  }

  /** Two valid values whose texts start the same way are equal, and so is what follows. */
  lemma TextInjective(v: Value, r: string, w: Value, s: string)
    requires Valid(v) && Valid(w)
    requires Delimited(r) && Delimited(s)
    requires Text(v) + r == Text(w) + s
    ensures v == w && r == s
  {
    ReadsBack(v, r);
    ReadsBack(w, s);
  }
}
