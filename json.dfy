/**
 * The subset of JSON the caches store: what `json.dumps` writes with its
 * default settings (separators ", " and ": ", ensure_ascii) and what
 * `json.loads` reads back. Numbers are integers only.
 */
module Json {
  import opened Wrappers
  import opened Decimal
  import opened Strings

  datatype Json =
    | Null
    | Bool(b: bool)
    | Int(i: int)
    | Str(s: string)
    | Arr(items: seq<Json>)
    | Obj(members: seq<(string, Json)>)

  const Backspace: char := 8 as char
  const FormFeed: char := 12 as char

  predicate IsWs(c: char) {
    c == ' ' || c == '\t' || c == '\n' || c == '\r'
  }

  /** Drops the whitespace json.loads allows between tokens. */
  function SkipWs(s: string): (r: string)
    ensures |r| <= |s|
    ensures r == [] || !IsWs(r[0])
  {
    if s != [] && IsWs(s[0]) then SkipWs(s[1..]) else s
  }

  // ---------------------------------------------------------------- hex digits

  function HexDigit(d: nat): char
    requires d < 16
  {
    if d < 10 then ('0' as int + d) as char else ('a' as int + d - 10) as char
  }

  function HexValue(c: char): (r: Option<nat>)
    ensures r.Some? ==> r.value < 16
  {
    if '0' <= c <= '9' then Some(c as int - '0' as int)
    else if 'a' <= c <= 'f' then Some(c as int - 'a' as int + 10)
    else if 'A' <= c <= 'F' then Some(c as int - 'A' as int + 10)
    else None
  }

  /** The lower-case hex digits of n, exactly `width` of them. */
  function HexDigits(n: nat, width: nat): (s: string)
    ensures |s| == width
  {
    if width == 0 then [] else HexDigits(n / 16, width - 1) + [HexDigit(n % 16)]
  }

  function ParseHex(s: string): (r: Option<nat>)
    ensures r.Some? ==> r.value < Pow16(|s|)
  {
    if s == [] then Some(0)
    else match (ParseHex(s[..|s| - 1]), HexValue(s[|s| - 1]))
      case (Some(hi), Some(lo)) => Some(hi * 16 + lo)
      case _ => None
  }

  function Pow16(w: nat): (p: nat)
    ensures p >= 1
  {
    if w == 0 then 1 else 16 * Pow16(w - 1)
  }

  lemma {:induction false} HexRoundTrip(n: nat, width: nat)
    requires n < Pow16(width)
    ensures ParseHex(HexDigits(n, width)) == Some(n)
  {
    if width > 0 {
      var s := HexDigits(n, width);
      assert s[..|s| - 1] == HexDigits(n / 16, width - 1);
      assert n / 16 < Pow16(width - 1) by {
        DivideBound(n, Pow16(width - 1));
      }
      HexRoundTrip(n / 16, width - 1);
      assert HexValue(HexDigit(n % 16)) == Some(n % 16);
    }
  }

  lemma DivideBound(n: nat, p: nat)
    requires n < 16 * p
    ensures n / 16 < p
  {
  }

  function Hex4(n: nat): (s: string)
    requires n < 0x10000
    ensures |s| == 4
  {
    HexDigits(n, 4)
  }

  // ------------------------------------------------------------------ strings

  /** How json.dumps (ensure_ascii) writes one character inside a string literal. */
  function EscapeChar(c: char): string {
    if c == '"' then "\\\""
    else if c == '\\' then "\\\\"
    else if c == '\n' then "\\n"
    else if c == '\r' then "\\r"
    else if c == '\t' then "\\t"
    else if c == Backspace then "\\b"
    else if c == FormFeed then "\\f"
    else if ' ' <= c <= '~' then [c]
    else if c as int < 0x10000 then "\\u" + Hex4(c as int)
    else
      // outside the basic plane: a UTF-16 surrogate pair
      var v := c as int - 0x10000;
      "\\u" + Hex4(0xD800 + v / 1024) + "\\u" + Hex4(0xDC00 + v % 1024)
  }

  function EscapeString(s: string): string {
    if s == [] then [] else EscapeChar(s[0]) + EscapeString(s[1..])
  }

  function Quote(s: string): string {
    "\"" + EscapeString(s) + "\""
  }

  function ParseHex4(s: string): (r: Option<nat>)
    requires |s| == 4
    ensures r.Some? ==> r.value < 0x10000
  {
    assert Pow16(4) == 0x10000;
    ParseHex(s)
  }

  /** The character and the remaining text after a backslash; None for an escape json.loads refuses. */
  function ParseEscape(s: string): (r: Option<(char, string)>)
    ensures r.Some? ==> |r.value.1| < |s|
  {
    if s == [] then None
    else if s[0] == '"' then Some(('"', s[1..]))
    else if s[0] == '\\' then Some(('\\', s[1..]))
    else if s[0] == '/' then Some(('/', s[1..]))
    else if s[0] == 'b' then Some((Backspace, s[1..]))
    else if s[0] == 'f' then Some((FormFeed, s[1..]))
    else if s[0] == 'n' then Some(('\n', s[1..]))
    else if s[0] == 'r' then Some(('\r', s[1..]))
    else if s[0] == 't' then Some(('\t', s[1..]))
    else if s[0] == 'u' && |s| >= 5 then
      match ParseHex4(s[1..5])
      case None => None
      case Some(u) =>
        if 0xD800 <= u < 0xDC00 then
          if |s| >= 11 && s[5] == '\\' && s[6] == 'u' then
            match ParseHex4(s[7..11])
            case Some(l) =>
              if 0xDC00 <= l < 0xE000 then
                Some(((0x10000 + (u - 0xD800) * 1024 + (l - 0xDC00)) as char, s[11..]))
              else None
            case None => None
          else None
        else if 0xDC00 <= u < 0xE000 then None
        else Some((u as char, s[5..]))
    else None
  }

  /** The body of a string literal after its opening quote, through the closing quote. */
  function ParseString(s: string): (r: Option<(string, string)>)
    ensures r.Some? ==> |r.value.1| < |s|
  {
    if s == [] then None
    else if s[0] == '"' then Some(([], s[1..]))
    else if s[0] == '\\' then
      match ParseEscape(s[1..])
      case None => None
      case Some((c, rest)) => Prepend(c, ParseString(rest))
    else if s[0] < ' ' then None
    else Prepend(s[0], ParseString(s[1..]))
  }

  function Prepend(c: char, r: Option<(string, string)>): Option<(string, string)> {
    match r
    case None => None
    case Some((t, rest)) => Some(([c] + t, rest))
  }

  lemma EscapeCharParses(c: char, t: string)
    ensures ParseString(EscapeChar(c) + t) == Prepend(c, ParseString(t))
  {
    if c == '"' || c == '\\' || c == '\n' || c == '\r' || c == '\t' || c == Backspace || c == FormFeed {
      ShortEscapeParses(c, t);
    } else if ' ' <= c <= '~' {
      assert (EscapeChar(c) + t)[1..] == t;
    } else if c as int < 0x10000 {
      UnicodeEscapeParses(c, t);
    } else {
      SurrogatePairParses(c, t);
    }
  }

  lemma ShortEscapeParses(c: char, t: string)
    requires c == '"' || c == '\\' || c == '\n' || c == '\r' || c == '\t' || c == Backspace || c == FormFeed
    ensures ParseString(EscapeChar(c) + t) == Prepend(c, ParseString(t))
  {
    var e := EscapeChar(c);
    assert |e| == 2 && e[0] == '\\';
    var s := (e + t)[1..];
    assert s == [e[1]] + t;
    assert s[1..] == t;
    assert ParseEscape(s) == Some((c, t));
  }

  lemma UnicodeEscapeParses(c: char, t: string)
    requires !(c == '"' || c == '\\' || c == '\n' || c == '\r' || c == '\t' || c == Backspace || c == FormFeed)
    requires !(' ' <= c <= '~') && c as int < 0x10000
    ensures ParseString(EscapeChar(c) + t) == Prepend(c, ParseString(t))
  {
    var h := Hex4(c as int);
    assert EscapeChar(c) == "\\u" + h;
    var x := EscapeChar(c) + t;
    assert x[0] == '\\' && x[1..] == ['u'] + h + t;
    assert ParseEscape(x[1..]) == Some((c, t)) by {
      SingleEscapeParses(x[1..], c as int, t);
    }
    BackslashDispatch(x, c, t);
  }

  lemma SingleEscapeParses(s: string, u: nat, t: string)
    requires u < 0x10000 && !(0xD800 <= u < 0xE000)
    requires s == ['u'] + Hex4(u) + t
    ensures ParseEscape(s) == Some((u as char, t))
  {
    HexRoundTrip(u, 4);
    assert s[1..5] == Hex4(u);
    assert s[5..] == t;
  }

  lemma BackslashDispatch(x: string, c: char, rest: string)
    requires x != [] && x[0] == '\\' && ParseEscape(x[1..]) == Some((c, rest))
    ensures ParseString(x) == Prepend(c, ParseString(rest))
  {
  }

  lemma SurrogatePairParses(c: char, t: string)
    requires c as int >= 0x10000
    ensures ParseString(EscapeChar(c) + t) == Prepend(c, ParseString(t))
  {
    var v := c as int - 0x10000;
    var hi, lo := 0xD800 + v / 1024, 0xDC00 + v % 1024;
    SurrogateHalves(c as int);
    var s := ['u'] + Hex4(hi) + ['\\', 'u'] + Hex4(lo) + t;
    PairEscapeText(Hex4(hi), Hex4(lo), t);
    assert EscapeChar(c) + t == ['\\'] + s;
    assert (['\\'] + s)[1..] == s;
    PairEscapeParses(s, hi, lo, t);
  }

  /** The two halves of a UTF-16 surrogate pair are in their ranges and recombine to the code point. */
  lemma SurrogateHalves(n: int)
    requires 0x10000 <= n < 0x110000
    ensures var v := n - 0x10000;
      && 0xD800 <= 0xD800 + v / 1024 < 0xDC00 && 0xDC00 <= 0xDC00 + v % 1024 < 0xE000
      && 0x10000 + v / 1024 * 1024 + v % 1024 == n
  {
  }

  /** The escaped text of a surrogate pair, regrouped after its backslash. */
  lemma PairEscapeText(h1: string, h2: string, t: string)
    ensures "\\u" + h1 + "\\u" + h2 + t == ['\\'] + (['u'] + h1 + ['\\', 'u'] + h2 + t)
  {
  }

  lemma PairEscapeParses(s: string, hi: nat, lo: nat, t: string)
    requires 0xD800 <= hi < 0xDC00 && 0xDC00 <= lo < 0xE000
    requires s == ['u'] + Hex4(hi) + ['\\', 'u'] + Hex4(lo) + t
    ensures 0x10000 + (hi - 0xD800) * 1024 + (lo - 0xDC00) < 0x110000
    ensures ParseEscape(s) == Some(((0x10000 + (hi - 0xD800) * 1024 + (lo - 0xDC00)) as char, t))
  {
    HexRoundTrip(hi, 4);
    HexRoundTrip(lo, 4);
    PairSlices(Hex4(hi), Hex4(lo), t);
  }

  /** Where the parts of an escaped surrogate pair sit in the text after the backslash. */
  lemma PairSlices(a: string, b: string, t: string)
    requires |a| == 4 && |b| == 4
    ensures var s := ['u'] + a + ['\\', 'u'] + b + t;
      && |s| >= 11 && s[0] == 'u' && s[1..5] == a && s[5] == '\\' && s[6] == 'u' && s[7..11] == b && s[11..] == t
  {
  }

  lemma {:induction false} QuoteParses(str: string, rest: string)
    ensures ParseString(EscapeString(str) + "\"" + rest) == Some((str, rest))
  {
    if str == [] {
      assert EscapeString(str) + "\"" + rest == "\"" + rest;
    } else {
      var t := EscapeString(str[1..]) + "\"" + rest;
      assert EscapeString(str) + "\"" + rest == EscapeChar(str[0]) + t;
      EscapeCharParses(str[0], t);
      QuoteParses(str[1..], rest);
      assert [str[0]] + str[1..] == str;
    }
  }

  // ------------------------------------------------------------------ encoder

  /** json.dumps with its default separators and ensure_ascii. */
  function Encode(v: Json): (s: string)
    ensures |s| >= 1 && !IsWs(s[0]) && s[0] != ']'
    decreases v
  {
    match v
    case Null => "null"
    case Bool(b) => if b then "true" else "false"
    case Int(i) => IntToString(i)
    case Str(s) => Quote(s)
    case Arr(items) => "[" + EncodeItems(items) + "]"
    case Obj(members) => "{" + EncodeMembers(members) + "}"
  }

  function EncodeItems(items: seq<Json>): string
    decreases items
  {
    if items == [] then []
    else if |items| == 1 then Encode(items[0])
    else Encode(items[0]) + ", " + EncodeItems(items[1..])
  }

  function EncodeMember(m: (string, Json)): string
    decreases m
  {
    Quote(m.0) + ": " + Encode(m.1)
  }

  function EncodeMembers(members: seq<(string, Json)>): string
    decreases members
  {
    if members == [] then []
    else if |members| == 1 then EncodeMember(members[0])
    else EncodeMember(members[0]) + ", " + EncodeMembers(members[1..])
  }

  // ------------------------------------------------------------------ decoder

  /** An integer literal: optional minus, then the magnitude. */
  function ParseNumber(s: string): (r: Option<(Json, string)>)
    ensures r.Some? ==> |r.value.1| < |s|
  {
    if s != [] && s[0] == '-' then
      match ParseMagnitude(s[1..])
      case None => None
      case Some((m, rest)) => Some((Int(-(m as int)), rest))
    else
      match ParseMagnitude(s)
      case None => None
      case Some((m, rest)) => Some((Int(m), rest))
  }

  /** "0" or a digit run without leading zero, not followed by a fraction or exponent. */
  function ParseMagnitude(s: string): (r: Option<(nat, string)>)
    ensures r.Some? ==> |r.value.1| < |s|
  {
    if s == [] || !IsDigit(s[0]) then None
    else
      var n := if s[0] == '0' then 1 else DigitSpan(s);
      var rest := s[n..];
      if rest != [] && (rest[0] == '.' || rest[0] == 'e' || rest[0] == 'E') then None  // a float
      else Some((DigitsToNat(s[..n]), rest))
  }

  /** One JSON value at the very start of `s`, and the text after it. */
  function ParseValue(s: string): (r: Option<(Json, string)>)
    ensures r.Some? ==> |r.value.1| < |s|
    decreases |s|, 0
  {
    if s == [] then None
    else if s[0] == '"' then
      match ParseString(s[1..])
      case None => None
      case Some((str, rest)) => Some((Str(str), rest))
    else if s[0] == '[' then ParseArray(SkipWs(s[1..]))
    else if s[0] == '{' then ParseObject(SkipWs(s[1..]))
    else if s[0] == '-' || IsDigit(s[0]) then ParseNumber(s)
    else if s[0] == 'n' then (if HasPrefix(s, "null") then Some((Null, s[4..])) else None)
    else if s[0] == 't' then (if HasPrefix(s, "true") then Some((Bool(true), s[4..])) else None)
    else if s[0] == 'f' then (if HasPrefix(s, "false") then Some((Bool(false), s[5..])) else None)
    else None
  }

  /** The rest of an array after "[" and any whitespace. */
  function ParseArray(s: string): (r: Option<(Json, string)>)
    ensures r.Some? ==> |r.value.1| < |s|
    decreases |s|, 2
  {
    if s != [] && s[0] == ']' then Some((Arr([]), s[1..]))
    else
      match ParseItems(s)
      case None => None
      case Some((items, rest)) => Some((Arr(items), rest))
  }

  /** One or more comma-separated values and the closing "]". */
  function ParseItems(s: string): (r: Option<(seq<Json>, string)>)
    ensures r.Some? ==> |r.value.1| < |s|
    decreases |s|, 1
  {
    match ParseValue(s)
    case None => None
    case Some((v, rest)) =>
      var t := SkipWs(rest);
      if t != [] && t[0] == ']' then Some(([v], t[1..]))
      else if t != [] && t[0] == ',' then
        match ParseItems(SkipWs(t[1..]))
        case None => None
        case Some((vs, rest')) => Some(([v] + vs, rest'))
      else None
  }

  /** The rest of an object after "{" and any whitespace. */
  function ParseObject(s: string): (r: Option<(Json, string)>)
    ensures r.Some? ==> |r.value.1| < |s|
    decreases |s|, 3
  {
    if s != [] && s[0] == '}' then Some((Obj([]), s[1..]))
    else
      match ParseMembers(s)
      case None => None
      case Some((ms, rest)) => Some((Obj(ms), rest))
  }

  /** One or more comma-separated members and the closing "}". */
  function ParseMembers(s: string): (r: Option<(seq<(string, Json)>, string)>)
    ensures r.Some? ==> |r.value.1| < |s|
    decreases |s|, 2
  {
    match ParseMember(s)
    case None => None
    case Some((m, rest)) =>
      var u := SkipWs(rest);
      if u != [] && u[0] == '}' then Some(([m], u[1..]))
      else if u != [] && u[0] == ',' then
        match ParseMembers(SkipWs(u[1..]))
        case None => None
        case Some((ms, rest')) => Some(([m] + ms, rest'))
      else None
  }

  /** One `"key": value` member. */
  function ParseMember(s: string): (r: Option<((string, Json), string)>)
    ensures r.Some? ==> |r.value.1| < |s|
    decreases |s|, 1
  {
    if s == [] || s[0] != '"' then None
    else
      match ParseString(s[1..])
      case None => None
      case Some((key, afterKey)) =>
        var t := SkipWs(afterKey);
        if t == [] || t[0] != ':' then None
        else
          match ParseValue(SkipWs(t[1..]))
          case None => None
          case Some((v, rest)) => Some(((key, v), rest))
  }

  /** json.loads: one value, optionally surrounded by whitespace, and nothing else. */
  function Decode(s: string): (r: Option<Json>)
    ensures r.Some? ==> SkipWs(s) != []
  {
    match ParseValue(SkipWs(s))
    case Some((v, rest)) => if SkipWs(rest) == [] then Some(v) else None
    case None => None
  }

  /** `json.loads`: the decoded value, or the error it raises on malformed text. */
  function Loads(s: string): (r: Result<Json, Exception>)
    ensures r.Ok? <==> Decode(s).Some?
    ensures r.Err? ==> r.error == JsonDecodeError
  {
    match Decode(s)
    case Some(v) => Ok(v)
    case None => Err(JsonDecodeError)
  }

  /** json.loads reads past whitespace in front of the value. */
  lemma LoadsSkipsLeadingWhitespace(w: string, s: string)
    requires forall i :: 0 <= i < |w| ==> IsWs(w[i])
    ensures Loads(w + s) == Loads(s)
  {
    SkipWsPrefix(w, s);
  }

  lemma {:induction false} SkipWsPrefix(w: string, s: string)
    requires forall i :: 0 <= i < |w| ==> IsWs(w[i])
    ensures SkipWs(w + s) == SkipWs(s)
  {
    if w != [] {
      assert (w + s)[0] == w[0] && (w + s)[1..] == w[1..] + s;
      assert forall i :: 0 <= i < |w[1..]| ==> w[1..][i] == w[i + 1];
      SkipWsPrefix(w[1..], s);
    } else {
      assert w + s == s;
    }
  }

  // --------------------------------------------------------------- round trip

  /** What may follow a value inside the text json.dumps writes. */
  predicate Delimited(rest: string) {
    rest == [] || rest[0] == ',' || rest[0] == ']' || rest[0] == '}'
  }

  lemma SkipWsNoWs(s: string)
    requires s != [] && !IsWs(s[0])
    ensures SkipWs(s) == s
  {
  }

  lemma NumberParses(i: int, rest: string)
    requires Delimited(rest)
    ensures ParseNumber(IntToString(i) + rest) == Some((Int(i), rest))
  {
    var s := IntToString(i) + rest;
    if i < 0 {
      assert s == "-" + (NatToString(-i) + rest);
      assert s[1..] == NatToString(-i) + rest;
      MagnitudeParses(-i, rest);
    } else {
      MagnitudeParses(i, rest);
    }
  }

  lemma MagnitudeParses(m: nat, rest: string)
    requires Delimited(rest)
    ensures ParseMagnitude(NatToString(m) + rest) == Some((m, rest))
  {
    var d := NatToString(m);
    var s := d + rest;
    var n := if s[0] == '0' then 1 else DigitSpan(s);
    assert n == |d| by {
      if d[0] != '0' {
        DigitSpanOfDigits(d, rest);
      }
    }
    assert s[..n] == d && s[n..] == rest;
    NatRoundTrip(m);
  }

  lemma {:induction false} ParseEncoded(v: Json, rest: string)
    requires Delimited(rest)
    ensures ParseValue(Encode(v) + rest) == Some((v, rest))
    decreases v
  {
    match v
    case Null => LiteralParses(v, rest);
    case Bool(_) => LiteralParses(v, rest);
    case Int(i) => IntParses(i, rest);
    case Str(str) => StrParses(str, rest);
    case Arr(items) =>
      if items == [] {
        EmptyContainerParses(v, rest);
      } else {
        var t := EncodeItems(items) + "]" + rest;
        ParseItemsEncoded(items, rest);
        EncodedArrayText(items, rest);
        OpenBracket(Encode(v) + rest, t);
      }
    case Obj(members) =>
      if members == [] {
        EmptyContainerParses(v, rest);
      } else {
        var t := EncodeMembers(members) + "}" + rest;
        ParseMembersEncoded(members, rest);
        EncodedObjectText(members, rest);
        OpenBrace(Encode(v) + rest, t);
      }
  }

  lemma EmptyContainerParses(v: Json, rest: string)
    requires v == Arr([]) || v == Obj([])
    ensures ParseValue(Encode(v) + rest) == Some((v, rest))
  {
    var s := Encode(v) + rest;
    if v.Arr? {
      assert Encode(v) == "[]";
      assert s[0] == '[' && s[1..] == "]" + rest;
    } else {
      assert Encode(v) == "{}";
      assert s[0] == '{' && s[1..] == "}" + rest;
    }
  }

  lemma EncodedArrayText(items: seq<Json>, rest: string)
    requires items != []
    ensures
      var t := EncodeItems(items) + "]" + rest;
      Encode(Arr(items)) + rest == "[" + t && t != [] && !IsWs(t[0]) && t[0] != ']'
  {
    EncodeItemsStart(items);
  }

  lemma EncodedObjectText(members: seq<(string, Json)>, rest: string)
    requires members != []
    ensures
      var t := EncodeMembers(members) + "}" + rest;
      Encode(Obj(members)) + rest == "{" + t && t != [] && t[0] == '"'
  {
  }

  lemma OpenBracket(s: string, t: string)
    requires s == "[" + t && t != [] && !IsWs(t[0]) && t[0] != ']'
    ensures ParseValue(s) == match ParseItems(t)
                             case None => None
                             case Some((items, rest)) => Some((Arr(items), rest))
  {
    assert s[0] == '[' && s[1..] == t;
    SkipWsNoWs(t);
  }

  lemma OpenBrace(s: string, t: string)
    requires s == "{" + t && t != [] && t[0] == '"'
    ensures ParseValue(s) == match ParseMembers(t)
                             case None => None
                             case Some((ms, rest)) => Some((Obj(ms), rest))
  {
    assert s[0] == '{' && s[1..] == t;
    SkipWsNoWs(t);
  }

  lemma LiteralParses(v: Json, rest: string)
    requires v.Null? || v.Bool?
    ensures ParseValue(Encode(v) + rest) == Some((v, rest))
  {
    var s := Encode(v) + rest;
    if v.Null? {
      assert s[0] == 'n' && s[..4] == "null" && s[4..] == rest;
    } else if v.b {
      assert s[0] == 't' && s[..4] == "true" && s[4..] == rest;
    } else {
      assert s[0] == 'f' && s[..5] == "false" && s[5..] == rest;
    }
  }

  lemma IntParses(i: int, rest: string)
    requires Delimited(rest)
    ensures ParseValue(Encode(Int(i)) + rest) == Some((Int(i), rest))
  {
    var s := IntToString(i) + rest;
    assert s[0] == '-' || IsDigit(s[0]);
    NumberDispatch(s);
    NumberParses(i, rest);
  }

  lemma NumberDispatch(s: string)
    requires s != [] && (s[0] == '-' || IsDigit(s[0]))
    ensures ParseValue(s) == ParseNumber(s)
  {
  }

  lemma StrParses(str: string, rest: string)
    ensures ParseValue(Encode(Str(str)) + rest) == Some((Str(str), rest))
  {
    var s := Encode(Str(str)) + rest;
    assert s[0] == '"';
    assert s[1..] == EscapeString(str) + "\"" + rest;
    QuoteParses(str, rest);
  }

  lemma EncodeItemsStart(items: seq<Json>)
    requires items != []
    ensures EncodeItems(items) != [] && EncodeItems(items)[0] == Encode(items[0])[0]
  {
  }

  lemma ItemsLast(s: string, v: Json, rest: string)
    requires ParseValue(s) == Some((v, "]" + rest))
    ensures ParseItems(s) == Some(([v], rest))
  {
    SkipWsNoWs("]" + rest);
    assert ("]" + rest)[1..] == rest;
  }

  lemma ItemsMore(s: string, v: Json, tail: string, vs: seq<Json>, rest: string)
    requires tail != [] && !IsWs(tail[0])
    requires ParseValue(s) == Some((v, ", " + tail))
    requires ParseItems(tail) == Some((vs, rest))
    ensures ParseItems(s) == Some(([v] + vs, rest))
  {
    CommaThen(tail);
  }

  lemma {:induction false} ParseItemsEncoded(items: seq<Json>, rest: string)
    requires items != []
    ensures ParseItems(EncodeItems(items) + "]" + rest) == Some((items, rest))
    decreases items
  {
    var s := EncodeItems(items) + "]" + rest;
    if |items| == 1 {
      assert ParseValue(s) == Some((items[0], "]" + rest)) by {
        OneItemText(items, rest);
        ParseEncoded(items[0], "]" + rest);
      }
      ItemsLast(s, items[0], rest);
      assert [items[0]] == items;
    } else {
      var tail := EncodeItems(items[1..]) + "]" + rest;
      assert tail != [] && !IsWs(tail[0]) && ParseValue(s) == Some((items[0], ", " + tail)) by {
        MoreItemsText(items, rest);
        ParseEncoded(items[0], ", " + tail);
      }
      assert ParseItems(tail) == Some((items[1..], rest)) by {
        ParseItemsEncoded(items[1..], rest);
      }
      ItemsMore(s, items[0], tail, items[1..], rest);
      assert [items[0]] + items[1..] == items;
    }
  }

  /** The text of a one-item list followed by "]" and what comes after. */
  lemma OneItemText(items: seq<Json>, rest: string)
    requires |items| == 1
    ensures EncodeItems(items) + "]" + rest == Encode(items[0]) + ("]" + rest)
  {
    assert EncodeItems(items) == Encode(items[0]);
  }

  /** The text of a longer list splits after its first item and ", ". */
  lemma MoreItemsText(items: seq<Json>, rest: string)
    requires |items| > 1
    ensures
      var tail := EncodeItems(items[1..]) + "]" + rest;
      EncodeItems(items) + "]" + rest == Encode(items[0]) + (", " + tail) &&
      tail != [] && !IsWs(tail[0])
  {
    var head, more := Encode(items[0]), EncodeItems(items[1..]);
    assert EncodeItems(items) == head + ", " + more;
    Regroup(head, ", ", more, "]", rest);
    EncodeItemsStart(items[1..]);
  }

  lemma Regroup(a: string, b: string, c: string, d: string, e: string)
    ensures a + b + c + d + e == a + (b + (c + d + e))
  {
  }

  /** After ", " the whitespace skip lands on what follows. */
  lemma CommaThen(tail: string)
    requires tail != [] && !IsWs(tail[0])
    ensures SkipWs(", " + tail) == ", " + tail
    ensures SkipWs((", " + tail)[1..]) == tail
  {
    assert (", " + tail)[1..] == " " + tail;
    assert (" " + tail)[1..] == tail;
  }

  lemma {:induction false} ParseMembersEncoded(members: seq<(string, Json)>, rest: string)
    requires members != []
    ensures ParseMembers(EncodeMembers(members) + "}" + rest) == Some((members, rest))
    decreases members
  {
    var m := members[0];
    var s := EncodeMembers(members) + "}" + rest;
    if |members| == 1 {
      assert ParseMember(s) == Some((m, "}" + rest)) by {
        OneMemberText(members, rest);
        MemberParses(m, "}" + rest);
      }
      MembersLast(s, m, rest);
      assert [m] == members;
    } else {
      var tail := EncodeMembers(members[1..]) + "}" + rest;
      assert tail != [] && !IsWs(tail[0]) && ParseMember(s) == Some((m, ", " + tail)) by {
        MoreMembersText(members, rest);
        MemberParses(m, ", " + tail);
      }
      assert ParseMembers(tail) == Some((members[1..], rest)) by {
        ParseMembersEncoded(members[1..], rest);
      }
      MembersMore(s, m, tail, members[1..], rest);
      assert [m] + members[1..] == members;
    }
  }

  lemma EncodeMembersStart(members: seq<(string, Json)>)
    requires members != []
    ensures EncodeMembers(members) != [] && EncodeMembers(members)[0] == '"'
  {
    var m := EncodeMember(members[0]);
    assert m[0] == '"';
  }

  lemma OneMemberText(members: seq<(string, Json)>, rest: string)
    requires |members| == 1
    ensures EncodeMembers(members) + "}" + rest == EncodeMember(members[0]) + ("}" + rest)
  {
    assert EncodeMembers(members) == EncodeMember(members[0]);
  }

  lemma MoreMembersText(members: seq<(string, Json)>, rest: string)
    requires |members| > 1
    ensures
      var tail := EncodeMembers(members[1..]) + "}" + rest;
      EncodeMembers(members) + "}" + rest == EncodeMember(members[0]) + (", " + tail) &&
      tail != [] && tail[0] == '"'
  {
    var head, more := EncodeMember(members[0]), EncodeMembers(members[1..]);
    assert EncodeMembers(members) == head + ", " + more;
    Regroup(head, ", ", more, "}", rest);
    EncodeMembersStart(members[1..]);
  }

  lemma MembersLast(s: string, m: (string, Json), rest: string)
    requires ParseMember(s) == Some((m, "}" + rest))
    ensures ParseMembers(s) == Some(([m], rest))
  {
    SkipWsNoWs("}" + rest);
    assert ("}" + rest)[1..] == rest;
  }

  lemma MembersMore(s: string, m: (string, Json), tail: string, ms: seq<(string, Json)>, rest: string)
    requires tail != [] && !IsWs(tail[0])
    requires ParseMember(s) == Some((m, ", " + tail))
    requires ParseMembers(tail) == Some((ms, rest))
    ensures ParseMembers(s) == Some(([m] + ms, rest))
  {
    CommaThen(tail);
  }

  /** One encoded member followed by its delimiter: key, colon and value are read back. */
  lemma MemberParses(m: (string, Json), after: string)
    requires after != [] && (after[0] == ',' || after[0] == '}')
    ensures ParseMember(EncodeMember(m) + after) == Some((m, after))
    decreases m
  {
    var s := EncodeMember(m) + after;
    var valueText := Encode(m.1) + after;
    var afterKey := ": " + Encode(m.1) + after;
    MemberText(m, after);
    QuoteParses(m.0, afterKey);
    ColonThen(valueText);
    assert afterKey == ": " + valueText;
    ParseEncoded(m.1, after);
  }

  lemma MemberText(m: (string, Json), after: string)
    ensures
      var s := EncodeMember(m) + after;
      s[0] == '"' && s[1..] == EscapeString(m.0) + "\"" + (": " + Encode(m.1) + after)
  {
    var s := EncodeMember(m) + after;
    assert s == "\"" + (EscapeString(m.0) + "\"" + (": " + Encode(m.1) + after));
  }

  lemma ColonThen(tail: string)
    requires tail != [] && !IsWs(tail[0])
    ensures SkipWs(": " + tail) == ": " + tail
    ensures SkipWs((": " + tail)[1..]) == tail
  {
    assert (": " + tail)[1..] == " " + tail;
    assert (" " + tail)[1..] == tail;
  }

  /** json.loads(json.dumps(v)) == v for every modelled value. */
  lemma RoundTrip(v: Json)
    ensures Decode(Encode(v)) == Some(v)
  {
    var s := Encode(v);
    SkipWsNoWs(s);
    ParseEncoded(v, []);
    assert s + [] == s;
  }

  /** What `json.dumps` wrote, `json.loads` reads back. */
  lemma LoadsDumps(v: Json)
    ensures Loads(Encode(v)) == Ok(v)
  {
    RoundTrip(v);
  }
}
