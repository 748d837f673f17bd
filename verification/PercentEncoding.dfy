/** The two percent-encoders (RFC 3986, sections 2.1 and 2.3) and the query strings built with them. */
module PercentEncoding {
  import opened Options
  import opened Strings

  newtype byte = b: int | 0 <= b < 256

  /** The unreserved characters. */
  predicate Unreserved(b: byte) {
    'A' as byte <= b <= 'Z' as byte || 'a' as byte <= b <= 'z' as byte || '0' as byte <= b <= '9' as byte
    || b == '-' as byte || b == '_' as byte || b == '.' as byte || b == '~' as byte
  }

  /** `hex_upper`. */
  function HexUpper(nibble: byte): char
    requires nibble < 16
  {
    if nibble <= 9 then (('0' as byte) + nibble) as char else (('A' as byte) + (nibble - 10)) as char
  }

  /** `{:02X}`: two digits, base sixteen, upper case, zero-padded. */
  function TwoHexDigits(b: byte): string {
    var digits := "0123456789ABCDEF";
    [digits[b / 16], digits[b % 16]]
  }

  function EncodeByte(b: byte): string {
    if Unreserved(b) then [b as char] else ['%', HexUpper(b / 16), HexUpper(b % 16)]
  }

  function Encode(value: seq<byte>): string {
    if value == [] then [] else EncodeByte(value[0]) + Encode(value[1..])
  }

  lemma {:induction false} EncodeSnoc(value: seq<byte>, b: byte)
    ensures Encode(value + [b]) == Encode(value) + EncodeByte(b)
  {
    if value == [] {
      assert value + [b] == [b];
      assert Encode([b][1..]) == [];
      assert EncodeByte(b) + [] == EncodeByte(b);
    } else {
      assert (value + [b])[1..] == value[1..] + [b];
      EncodeSnoc(value[1..], b);
      Assoc(EncodeByte(value[0]), Encode(value[1..]), EncodeByte(b));
    }
  }

  /** `percent_encode` of the Codex login. */
  method PercentEncode(value: seq<byte>) returns (encoded: string)
    ensures encoded == Encode(value)
  {
    encoded := "";
    for i := 0 to |value|
      invariant encoded == Encode(value[..i])
    {
      var b := value[i];
      assert value[..i + 1] == value[..i] + [b];
      EncodeSnoc(value[..i], b);
      if Unreserved(b) {
        encoded := encoded + [b as char];
      } else {
        encoded := encoded + ['%', HexUpper(b / 16), HexUpper(b % 16)];
      }
    }
    assert value[..|value|] == value;
  }

  lemma SameDigits(b: byte)
    ensures TwoHexDigits(b) == [HexUpper(b / 16), HexUpper(b % 16)]
  {
    SameDigit(b / 16);
    SameDigit(b % 16);
  }

  lemma SameDigit(d: byte)
    requires d < 16
    ensures "0123456789ABCDEF"[d] == HexUpper(d)
  {
  }

  lemma SpaceEncoded()
    ensures EncodeByte(' ' as byte) == "%20"
  {
  }

  /** `encode_query_component` of the search adapter: the same text as the other encoder. */
  method EncodeQueryComponent(value: seq<byte>) returns (encoded: string)
    ensures encoded == Encode(value)
  {
    encoded := "";
    for i := 0 to |value|
      invariant encoded == Encode(value[..i])
    {
      var b := value[i];
      assert value[..i + 1] == value[..i] + [b];
      EncodeSnoc(value[..i], b);
      if Unreserved(b) {
        encoded := encoded + [b as char];
      } else if b == ' ' as byte {
        SpaceEncoded();
        encoded := encoded + "%20";
      } else {
        SameDigits(b);
        encoded := encoded + (['%'] + TwoHexDigits(b));
      }
    }
    assert value[..|value|] == value;
  }

  /** Letters, digits and four marks stand for themselves; every other byte is three characters. */
  predicate IsItself(c: char) {
    'a' <= c <= 'z' || 'A' <= c <= 'Z' || '0' <= c <= '9' || c in ['-', '.', '_', '~']
  }

  /** The value of an upper-case digit. */
  function UpperHex(c: char): int {
    if '0' <= c <= '9' then c as int - '0' as int else if 'A' <= c <= 'F' then c as int - 'A' as int + 10 else -1
  }

  lemma ByteExactly(b: byte)
    ensures IsItself(b as char) ==> EncodeByte(b) == [b as char]
    ensures !IsItself(b as char) ==>
      var e := EncodeByte(b);
      && |e| == 3 && e[0] == '%' && UpperHex(e[1]) >= 0 && UpperHex(e[2]) >= 0
      && 16 * UpperHex(e[1]) + UpperHex(e[2]) == b as int
  {
    if !IsItself(b as char) {
      HexIs(b / 16);
      HexIs(b % 16);
    }
  }

  lemma HexIs(d: byte)
    requires d < 16
    ensures UpperHex(HexUpper(d)) == d as int
  {
  }

  lemma {:induction false} EncodeAppend(a: seq<byte>, b: seq<byte>)
    ensures Encode(a + b) == Encode(a) + Encode(b)
  {
    if b == [] {
      assert a + b == a;
    } else {
      assert a + b == (a + b[..|b| - 1]) + [b[|b| - 1]] && b == b[..|b| - 1] + [b[|b| - 1]];
      EncodeAppend(a, b[..|b| - 1]);
      EncodeSnoc(a + b[..|b| - 1], b[|b| - 1]);
      EncodeSnoc(b[..|b| - 1], b[|b| - 1]);
      Assoc(Encode(a), Encode(b[..|b| - 1]), EncodeByte(b[|b| - 1]));
    }
  }

  /** A byte as it is written: itself if unreserved (RFC 3986, section 2.3), or its two digits (section 2.1). */
  predicate Writes(text: string, b: byte) {
    if IsItself(b as char) then text == [b as char]
    else
      && |text| == 3 && text[0] == '%' && UpperHex(text[1]) >= 0 && UpperHex(text[2]) >= 0
      && 16 * UpperHex(text[1]) + UpperHex(text[2]) == b as int
  }

  /** Every byte of a value is written in its place, whatever stands around it. */
  lemma EncodesExactly(before: seq<byte>, b: byte, after: seq<byte>)
    ensures exists text :: Writes(text, b) && Encode(before + [b] + after) == Encode(before) + text + Encode(after)
    ensures Encode([]) == []
  {
    ByteExactly(b);
    EncodeSnoc(before, b);
    EncodeAppend(before + [b], after);
    assert Writes(EncodeByte(b), b);
  }

  // ----- decoding -----

  function HexValue(c: char): Option<byte> {
    if '0' <= c <= '9' then Some((c as int - '0' as int) as byte)
    else if 'A' <= c <= 'F' then Some((c as int - 'A' as int + 10) as byte)
    else if 'a' <= c <= 'f' then Some((c as int - 'a' as int + 10) as byte)
    else None
  }

  /** RFC 3986 decoding: `%XX` is a byte, any other ASCII character is itself. */
  function Decode(s: string): Option<seq<byte>> {
    if s == [] then Some([])
    else if s[0] == '%' then
      if |s| < 3 || HexValue(s[1]).None? || HexValue(s[2]).None? then None
      else
        var b := HexValue(s[1]).value as int * 16 + HexValue(s[2]).value as int;
        if b >= 256 then None
        else match Decode(s[3..]) case Some(rest) => Some([b as byte] + rest) case None => None
    else if s[0] as int >= 128 then None
    else match Decode(s[1..]) case Some(rest) => Some([s[0] as byte] + rest) case None => None
  }

  lemma HexRoundTrip(d: byte)
    requires d < 16
    ensures HexValue(HexUpper(d)) == Some(d)
  {
  }

  /** Decoding inverts encoding, for every byte string. */
  lemma {:induction false} DecodeEncode(value: seq<byte>)
    ensures Decode(Encode(value)) == Some(value)
  {
    if value != [] {
      var b, rest := value[0], Encode(value[1..]);
      DecodeEncode(value[1..]);
      DecodeFirst(b, rest);
      assert value == [b] + value[1..];
    }
  }

  lemma DecodeFirst(b: byte, rest: string)
    ensures Decode(EncodeByte(b) + rest)
         == match Decode(rest) case Some(tail) => Some([b] + tail) case None => None
  {
    if Unreserved(b) {
      assert ([b as char] + rest)[1..] == rest;
    } else {
      HexRoundTrip(b / 16);
      HexRoundTrip(b % 16);
      assert (['%', HexUpper(b / 16), HexUpper(b % 16)] + rest)[3..] == rest;
    }
  }

  /** Only unreserved characters and percent signs come out. */
  predicate Encoded(s: string) {
    forall i | 0 <= i < |s| :: s[i] == '%' || (s[i] as int < 128 && Unreserved(s[i] as byte))
  }

  lemma {:induction false} EncodeIsEncoded(value: seq<byte>)
    ensures Encoded(Encode(value))
  {
    if value != [] {
      EncodeIsEncoded(value[1..]);
      HexIsUnreserved(value[0]);
    }
  }

  lemma HexIsUnreserved(b: byte)
    ensures Encoded(EncodeByte(b))
  {
  }

  // ----- query strings -----

  datatype Pair = Pair(key: seq<byte>, value: seq<byte>)

  function PairText(p: Pair): string {
    Encode(p.key) + "=" + Encode(p.value)
  }

  function PairTexts(pairs: seq<Pair>): (texts: seq<string>)
    ensures |texts| == |pairs|
  {
    if pairs == [] then [] else [PairText(pairs[0])] + PairTexts(pairs[1..])
  }

  /** `map(..).collect().join("&")`. */
  function QueryString(pairs: seq<Pair>): string {
    Join(PairTexts(pairs), "&")
  }

  /** `split(sep)`: always at least one piece. */
  function Split(s: string, sep: char): (pieces: seq<string>)
    ensures pieces != []
  {
    if s == [] then [[]]
    else
      var rest := Split(s[1..], sep);
      if s[0] == sep then [[]] + rest else [[s[0]] + rest[0]] + rest[1..]
  }

  predicate Without(s: string, c: char) {
    forall i | 0 <= i < |s| :: s[i] != c
  }

  lemma {:induction false} SplitNone(s: string, sep: char)
    requires Without(s, sep)
    ensures Split(s, sep) == [s]
  {
    if s != [] {
      SplitNone(s[1..], sep);
      assert s == [s[0]] + s[1..];
    }
  }

  lemma {:induction false} SplitFirst(a: string, rest: string, sep: char)
    requires Without(a, sep)
    ensures Split(a + [sep] + rest, sep) == [a] + Split(rest, sep)
  {
    if a == [] {
      assert (a + [sep] + rest)[1..] == rest;
    } else {
      assert (a + [sep] + rest)[1..] == a[1..] + [sep] + rest;
      SplitFirst(a[1..], rest, sep);
      assert a == [a[0]] + a[1..];
    }
  }

  /** A key and a value around the first equals sign, both decoded. */
  function ParsePair(s: string): Option<Pair> {
    var pieces := Split(s, '=');
    if |pieces| != 2 then None
    else
      match (Decode(pieces[0]), Decode(pieces[1]))
      case (Some(k), Some(v)) => Some(Pair(k, v))
      case _ => None
  }

  function ParsePairs(texts: seq<string>): Option<seq<Pair>> {
    if texts == [] then Some([])
    else
      match (ParsePair(texts[0]), ParsePairs(texts[1..]))
      case (Some(p), Some(rest)) => Some([p] + rest)
      case _ => None
  }

  /** What a server reads from a query string. */
  function ParseQuery(s: string): Option<seq<Pair>> {
    ParsePairs(Split(s, '&'))
  }

  /** A corollary of the shape of encoded text. */
  lemma EncodedHasNoSeparators(value: seq<byte>)
    ensures Without(Encode(value), '&') && Without(Encode(value), '=')
  {
    EncodeIsEncoded(value);
  }

  lemma PairTextParses(p: Pair)
    ensures ParsePair(PairText(p)) == Some(p)
    ensures Without(PairText(p), '&')
  {
    EncodedHasNoSeparators(p.key);
    EncodedHasNoSeparators(p.value);
    SplitFirst(Encode(p.key), Encode(p.value), '=');
    SplitNone(Encode(p.value), '=');
    DecodeEncode(p.key);
    DecodeEncode(p.value);
    assert Encode(p.key) + ['='] + Encode(p.value) == PairText(p);
  }

  lemma {:induction false} PairTextsSplit(pairs: seq<Pair>)
    requires pairs != []
    ensures Split(QueryString(pairs), '&') == PairTexts(pairs)
  {
    PairTextParses(pairs[0]);
    if |pairs| == 1 {
      SplitNone(PairText(pairs[0]), '&');
      assert PairTexts(pairs[1..]) == [];
      assert PairTexts(pairs) == [PairText(pairs[0])];
    } else {
      PairTextsSplit(pairs[1..]);
      var rest := QueryString(pairs[1..]);
      assert PairTexts(pairs)[1..] == PairTexts(pairs[1..]);
      assert QueryString(pairs) == PairText(pairs[0]) + "&" + rest;
      SplitFirst(PairText(pairs[0]), rest, '&');
      assert PairText(pairs[0]) + ['&'] + rest == QueryString(pairs);
    }
  }

  lemma {:induction false} PairTextsParse(pairs: seq<Pair>)
    ensures ParsePairs(PairTexts(pairs)) == Some(pairs)
  {
    if pairs != [] {
      PairTextParses(pairs[0]);
      PairTextsParse(pairs[1..]);
      assert PairTexts(pairs)[1..] == PairTexts(pairs[1..]);
      assert pairs == [pairs[0]] + pairs[1..];
    }
  }

  /** Every built query string splits back into the original list of keys and values. */
  lemma QueryRoundTrip(pairs: seq<Pair>)
    requires pairs != []
    ensures ParseQuery(QueryString(pairs)) == Some(pairs)
  {
    PairTextsSplit(pairs);
    PairTextsParse(pairs);
  }

  // ----- the authorization URL, which leaves its literal keys unencoded -----

  function AsText(value: seq<byte>): string {
    if value == [] then [] else [value[0] as char] + AsText(value[1..])
  }

  function LiteralKeyText(p: Pair): string {
    AsText(p.key) + "=" + Encode(p.value)
  }

  function LiteralKeyTexts(pairs: seq<Pair>): seq<string> {
    if pairs == [] then [] else [LiteralKeyText(pairs[0])] + LiteralKeyTexts(pairs[1..])
  }

  /** The query of `build_authorization_url`. */
  function AuthorizationQuery(pairs: seq<Pair>): string {
    Join(LiteralKeyTexts(pairs), "&")
  }

  predicate AllUnreserved(value: seq<byte>) {
    forall i | 0 <= i < |value| :: Unreserved(value[i])
  }

  lemma {:induction false} UnreservedIsFixed(value: seq<byte>)
    requires AllUnreserved(value)
    ensures Encode(value) == AsText(value)
  {
    if value != [] { UnreservedIsFixed(value[1..]); }
  }

  lemma {:induction false} LiteralKeysAreEncoded(pairs: seq<Pair>)
    requires forall i | 0 <= i < |pairs| :: AllUnreserved(pairs[i].key)
    ensures LiteralKeyTexts(pairs) == PairTexts(pairs)
  {
    if pairs != [] {
      UnreservedIsFixed(pairs[0].key);
      LiteralKeysAreEncoded(pairs[1..]);
    }
  }

  /** With unreserved keys, as all of that URL's are, its query splits back into keys and values too. */
  lemma AuthorizationQueryRoundTrip(pairs: seq<Pair>)
    requires pairs != [] && forall i | 0 <= i < |pairs| :: AllUnreserved(pairs[i].key)
    ensures ParseQuery(AuthorizationQuery(pairs)) == Some(pairs)
  {
    LiteralKeysAreEncoded(pairs);
    QueryRoundTrip(pairs);
  }
}
