/**
  JSON values as Python's `json` module and pydantic see them, the text `json.dumps`
  prints for them (default separators, `ensure_ascii=True`), the JSON string literal
  pydantic writes for a `str` (control characters escaped, everything else raw),
  and a reader of JSON text (`json.loads`, integer numbers only), proved to invert both.
 */
module Json {
  import opened Results

  /** A decoded JSON value. Objects keep their members in order, as a Python dict does.
      A dict never repeats a key, but a member list can: an object read from text keeps
      the repetitions the text has, and `Get` gives the dict `json.loads` makes of it (the
      last occurrence wins). Values built from Python dicts have distinct keys.
      Floating-point numbers are not modelled. */
  datatype Json =
    | JNull
    | JBool(b: bool)
    | JInt(i: int)
    | JStr(s: string)
    | JArray(items: seq<Json>)
    | JObject(members: seq<(string, Json)>)

  /** Python truthiness (`bool(v)`) of a decoded JSON value. */
  predicate Truthy(v: Json) {
    match v
    case JNull => false
    case JBool(b) => b
    case JInt(i) => i != 0
    case JStr(s) => s != ""
    case JArray(items) => items != []
    case JObject(members) => members != []
  }

  /** True iff some member of the object has this key. */
  predicate HasKey(members: seq<(string, Json)>, key: string) {
    exists i :: 0 <= i < |members| && members[i].0 == key
  }

  /** `d.get(key, default)` on the dict `json.loads` builds from an object:
      when a key is repeated the last occurrence wins. */
  function Get(members: seq<(string, Json)>, key: string, default: Json): (r: Json)
    ensures !HasKey(members, key) ==> r == default
    ensures HasKey(members, key) ==>
      exists i :: 0 <= i < |members| && members[i] == (key, r) &&
        forall j :: i < j < |members| ==> members[j].0 != key
  {
    if members == [] then default
    else if members[|members| - 1].0 == key then members[|members| - 1].1
    else
      var r := Get(members[..|members| - 1], key, default);
      assert forall i :: 0 <= i < |members| - 1 ==> members[..|members| - 1][i] == members[i];
      assert HasKey(members, key) ==> HasKey(members[..|members| - 1], key);
      r
  }

  // ---------------------------------------------------------------- decimal

  function DecimalDigit(d: nat): (c: char)
    requires d < 10
    ensures '0' <= c <= '9'
  {
    ('0' as int + d) as char
  }

  /** `str(n)` for a natural number: its decimal digits, no leading zeros. */
  function NatToString(n: nat): (s: string)
    ensures |s| > 0
    ensures forall i :: 0 <= i < |s| ==> '0' <= s[i] <= '9'
  {
    if n < 10 then [DecimalDigit(n)] else NatToString(n / 10) + [DecimalDigit(n % 10)]
  }

  /** `str(i)` for a Python int. */
  function IntToString(i: int): (s: string)
    ensures |s| > 0
  {
    if i < 0 then "-" + NatToString(-i) else NatToString(i)
  }

  /** Reads back a string of decimal digits; the reference inverse of `NatToString`. */
  function ParseNat(s: string): nat
    requires forall i :: 0 <= i < |s| ==> '0' <= s[i] <= '9'
  {
    if s == [] then 0 else ParseNat(s[..|s| - 1]) * 10 + (s[|s| - 1] as int - '0' as int)
  }

  lemma {:induction false} ParseNatToString(n: nat)
    ensures ParseNat(NatToString(n)) == n
  {
    if n >= 10 {
      var s := NatToString(n);
      assert s[..|s| - 1] == NatToString(n / 10);
      ParseNatToString(n / 10);
    }
  }

  // ---------------------------------------------------------------- hexadecimal

  /** A lower-case hexadecimal digit, as `'{0:04x}'.format` prints it. */
  function HexDigit(d: nat): (c: char)
    requires d < 16
  {
    if d < 10 then ('0' as int + d) as char else ('a' as int + d - 10) as char
  }

  /** The value of a hexadecimal digit of either case. */
  function HexValue(c: char): Option<nat> {
    if '0' <= c <= '9' then Some(c as int - '0' as int)
    else if 'a' <= c <= 'f' then Some(c as int - 'a' as int + 10)
    else if 'A' <= c <= 'F' then Some(c as int - 'A' as int + 10)
    else None
  }

  function Hex2(m: nat): (s: string)
    requires m < 0x100
    ensures |s| == 2
  {
    [HexDigit(m / 16), HexDigit(m % 16)]
  }

  /** Four lower-case hexadecimal digits of a UTF-16 code unit. */
  function Hex4(n: nat): (s: string)
    requires n < 0x10000
    ensures |s| == 4
  {
    Hex2(n / 0x100) + Hex2(n % 0x100)
  }

  function ParseHex2(s: string): Option<nat>
    requires |s| == 2
  {
    match (HexValue(s[0]), HexValue(s[1]))
    case (Some(a), Some(b)) => Some(a * 16 + b)
    case _ => None
  }

  function ParseHex4(s: string): (r: Option<nat>)
    requires |s| == 4
    ensures r.Some? ==> r.value < 0x10000
  {
    match (ParseHex2(s[..2]), ParseHex2(s[2..]))
    case (Some(a), Some(b)) =>
      assert a < 0x100 && b < 0x100;
      Some(a * 0x100 + b)
    case _ => None
  }

  lemma ParseHex4OfHex4(n: nat)
    requires n < 0x10000
    ensures ParseHex4(Hex4(n)) == Some(n)
  {
    var s := Hex4(n);
    assert s[..2] == Hex2(n / 0x100) && s[2..] == Hex2(n % 0x100);
    ParseHex2OfHex2(n / 0x100);
    ParseHex2OfHex2(n % 0x100);
  }

  lemma ParseHex2OfHex2(m: nat)
    requires m < 0x100
    ensures ParseHex2(Hex2(m)) == Some(m)
  {
    assert HexValue(HexDigit(m / 16)) == Some(m / 16);
    assert HexValue(HexDigit(m % 16)) == Some(m % 16);
  }

  // ---------------------------------------------------------------- string quoting

  /** A UTF-16 surrogate half, which no `char` is. */
  predicate IsSurrogate(u: int) {
    0xD800 <= u < 0xE000
  }

  /** The escape of one character inside a JSON string literal. `asciiOnly` selects the
      behaviour of `json.dumps` (every character outside space..tilde becomes `\uXXXX`,
      a surrogate pair above U+FFFF); without it, pydantic's, where only `"`, `\` and the
      control characters below U+0020 are escaped. */
  function EscapeChar(c: char, asciiOnly: bool): string {
    var n := c as int;
    if c == '"' then "\\\""
    else if c == '\\' then "\\\\"
    else if n == 0x08 then "\\b"
    else if n == 0x0C then "\\f"
    else if c == '\n' then "\\n"
    else if c == '\r' then "\\r"
    else if c == '\t' then "\\t"
    else if n < 0x20 then "\\u" + Hex4(n)
    else if !asciiOnly || n < 0x7F then [c]
    else if n < 0x10000 then "\\u" + Hex4(n)
    else
      var v := n - 0x10000;
      "\\u" + Hex4(0xD800 + v / 0x400) + "\\u" + Hex4(0xDC00 + v % 0x400)
  }

  function Escape(s: string, asciiOnly: bool): string {
    if s == [] then [] else EscapeChar(s[0], asciiOnly) + Escape(s[1..], asciiOnly)
  }

  /** The JSON string literal for `s`. */
  function Quote(s: string, asciiOnly: bool): (q: string)
    ensures |q| >= 2 && q[0] == '"' && q[|q| - 1] == '"'
  {
    "\"" + Escape(s, asciiOnly) + "\""
  }

  /** The character a one-letter escape `\e` stands for. */
  function ShortEscape(e: char): Option<char> {
    if e == '"' then Some('"')
    else if e == '\\' then Some('\\')
    else if e == '/' then Some('/')
    else if e == 'b' then Some(0x08 as char)
    else if e == 'f' then Some(0x0C as char)
    else if e == 'n' then Some('\n')
    else if e == 'r' then Some('\r')
    else if e == 't' then Some('\t')
    else None
  }

  /** A scanned string with one more character in front. */
  function Cons(c: char, r: Option<(string, string)>): (r': Option<(string, string)>)
    ensures r'.Some? <==> r.Some?
    ensures r.Some? ==> r'.value == ([c] + r.value.0, r.value.1)
  {
    match r
    case None => None
    case Some((s, rest)) => Some(([c] + s, rest))
  }

  /** Reads the body of a JSON string literal up to its closing quote: the text it stands
      for and what follows the quote, or `None` when the body is not valid JSON. */
  function ScanString(t: string): (r: Option<(string, string)>)
    ensures r.Some? ==> |r.value.1| < |t|
    decreases |t|
  {
    if t == [] then None
    else if t[0] == '"' then Some(([], t[1..]))
    else if t[0] == '\\' then
      if |t| < 2 then None
      else if t[1] != 'u' then
        match ShortEscape(t[1])
        case None => None
        case Some(c) => Cons(c, ScanString(t[2..]))
      else if |t| < 6 then None
      else
        match ParseHex4(t[2..6])
        case None => None
        case Some(hi) =>
          if 0xD800 <= hi < 0xDC00 then
            if |t| < 12 || t[6] != '\\' || t[7] != 'u' then None
            else
              match ParseHex4(t[8..12])
              case None => None
              case Some(lo) =>
                if 0xDC00 <= lo < 0xE000 then
                  Cons((0x10000 + (hi - 0xD800) * 0x400 + (lo - 0xDC00)) as char, ScanString(t[12..]))
                else None
          else if 0xDC00 <= hi < 0xE000 then None
          else Cons(hi as char, ScanString(t[6..]))
    else if (t[0] as int) < 0x20 then None
    else Cons(t[0], ScanString(t[1..]))
  }

  /** Reads a JSON string literal, and nothing after it, back into the text it stands
      for. */
  function Unquote(q: string): Option<string> {
    if q == [] || q[0] != '"' then None
    else
      match ScanString(q[1..])
      case None => None
      case Some((s, rest)) => if rest == [] then Some(s) else None
  }

  lemma ScanHex(n: nat, rest: string)
    requires n < 0x10000 && !IsSurrogate(n)
    ensures ScanString("\\u" + Hex4(n) + rest) == Cons(n as char, ScanString(rest))
  {
    var t := "\\u" + Hex4(n) + rest;
    assert t[2..6] == Hex4(n) && t[6..] == rest;
    ParseHex4OfHex4(n);
  }

  /** The two ten-bit halves of a code point's offset above U+FFFF, and how they
      recombine. */
  lemma SurrogateHalves(v: int)
    requires 0 <= v < 0x100000
    ensures 0 <= v / 0x400 < 0x400 && 0 <= v % 0x400 < 0x400
    ensures v / 0x400 * 0x400 + v % 0x400 == v
  {
  }

  /** The escapes `\uHHHH\uLLLL` of a surrogate pair scan as the character it encodes. */
  lemma ScanHexPair(hi: nat, lo: nat, c: char, rest: string)
    requires 0xD800 <= hi < 0xDC00 && 0xDC00 <= lo < 0xE000
    requires 0x10000 + (hi - 0xD800) * 0x400 + (lo - 0xDC00) == c as int
    ensures ScanString("\\u" + Hex4(hi) + "\\u" + Hex4(lo) + rest) == Cons(c, ScanString(rest))
  {
    ParseHex4OfHex4(hi);
    ParseHex4OfHex4(lo);
    ScanPair("\\u" + Hex4(hi) + "\\u" + Hex4(lo) + rest, Hex4(hi), Hex4(lo), hi, lo, c, rest);
  }

  /** Two `\uXXXX` escapes holding a high and a low surrogate scan as the character they
      encode together. */
  lemma ScanPair(t: string, a: string, b: string, hi: nat, lo: nat, c: char, rest: string)
    requires t == "\\u" + a + "\\u" + b + rest && |a| == 4 && |b| == 4
    requires ParseHex4(a) == Some(hi) && 0xD800 <= hi < 0xDC00
    requires ParseHex4(b) == Some(lo) && 0xDC00 <= lo < 0xE000
    requires 0x10000 + (hi - 0xD800) * 0x400 + (lo - 0xDC00) == c as int
    ensures ScanString(t) == Cons(c, ScanString(rest))
  {
    assert t[0] == '\\' && t[1] == 'u' && t[2..6] == a && t[6] == '\\' && t[7] == 'u';
    assert t[8..12] == b && t[12..] == rest;
  }

  /** A character above U+FFFF escapes, under `ensure_ascii`, to the `\uXXXX` escapes of
      the high and low halves of its surrogate pair, which together give it back. */
  lemma SurrogateEscape(c: char) returns (hi: nat, lo: nat)
    requires c as int >= 0x10000
    ensures 0xD800 <= hi < 0xDC00 && 0xDC00 <= lo < 0xE000
    ensures 0x10000 + (hi - 0xD800) * 0x400 + (lo - 0xDC00) == c as int
    ensures EscapeChar(c, true) == "\\u" + Hex4(hi) + "\\u" + Hex4(lo)
  {
    var n := c as int;
    assert !(c == '"' || c == '\\' || n == 0x08 || n == 0x0C || c == '\n' || c == '\r' || c == '\t');
    assert !(n < 0x20) && !(n < 0x7F) && !(n < 0x10000);
    var v := n - 0x10000;
    SurrogateHalves(v);
    SurrogateRecombine(v);
    hi, lo := 0xD800 + v / 0x400, 0xDC00 + v % 0x400;
  }

  /** The high and low halves of a surrogate pair give back the code point. */
  lemma SurrogateRecombine(v: int)
    requires 0 <= v < 0x100000
    ensures 0x10000 + ((0xD800 + v / 0x400) - 0xD800) * 0x400 + ((0xDC00 + v % 0x400) - 0xDC00) == 0x10000 + v
  {
    SurrogateHalves(v);
  }

  lemma ScanChar(c: char, asciiOnly: bool, rest: string)
    ensures ScanString(EscapeChar(c, asciiOnly) + rest) == Cons(c, ScanString(rest))
  {
    var n := c as int;
    var t := EscapeChar(c, asciiOnly) + rest;
    if c == '"' || c == '\\' || n == 0x08 || n == 0x0C || c == '\n' || c == '\r' || c == '\t' {
      assert t[2..] == rest;
    } else if n < 0x20 || (asciiOnly && 0x7F <= n < 0x10000) {
      ScanHex(n, rest);
    } else if !asciiOnly || n < 0x7F {
      assert t[1..] == rest;
    } else {
      var hi, lo := SurrogateEscape(c);
      ScanHexPair(hi, lo, c, rest);
    }
  }

  /** An escaped body followed by the closing quote scans back to the text, leaving
      whatever follows the quote. */
  lemma {:induction false} ScanEscape(s: string, asciiOnly: bool, rest: string)
    ensures ScanString(Escape(s, asciiOnly) + "\"" + rest) == Some((s, rest))
  {
    if s == [] {
      assert (Escape(s, asciiOnly) + "\"" + rest)[1..] == rest;
    } else {
      var tail := Escape(s[1..], asciiOnly) + "\"" + rest;
      assert Escape(s, asciiOnly) + "\"" + rest == EscapeChar(s[0], asciiOnly) + tail;
      ScanChar(s[0], asciiOnly, tail);
      ScanEscape(s[1..], asciiOnly, rest);
      assert [s[0]] + s[1..] == s;
    }
  }

  /** A quoted string followed by anything scans back to the text and what follows. */
  lemma ScanQuote(s: string, asciiOnly: bool, rest: string)
    ensures (Quote(s, asciiOnly) + rest)[0] == '"'
    ensures ScanString((Quote(s, asciiOnly) + rest)[1..]) == Some((s, rest))
  {
    assert (Quote(s, asciiOnly) + rest)[1..] == Escape(s, asciiOnly) + "\"" + rest;
    ScanEscape(s, asciiOnly, rest);
  }

  /** Both quoting styles are read back exactly: quoting loses nothing. */
  lemma QuoteRoundTrip(s: string, asciiOnly: bool)
    ensures Unquote(Quote(s, asciiOnly)) == Some(s)
  {
    ScanQuote(s, asciiOnly, []);
    assert Quote(s, asciiOnly) + [] == Quote(s, asciiOnly);
  }

  // ---------------------------------------------------------------- json.dumps

  /** `json.dumps(v)` with Python's defaults: `", "` between items, `": "` after keys,
      `ensure_ascii=True`. Members print in their order; for an object with a repeated key
      (which no Python dict has) each occurrence prints. */
  function Dumps(v: Json): string
    decreases v, 1
  {
    match v
    case JNull => "null"
    case JBool(b) => if b then "true" else "false"
    case JInt(i) => IntToString(i)
    case JStr(s) => Quote(s, true)
    case JArray(items) => "[" + DumpItems(v, items) + "]"
    case JObject(members) => "{" + DumpMembers(v, members) + "}"
  }

  function DumpItems(ghost parent: Json, items: seq<Json>): string
    requires forall i :: 0 <= i < |items| ==> items[i] < parent
    decreases parent, 0, |items|
  {
    if items == [] then ""
    else if |items| == 1 then Dumps(items[0])
    else Dumps(items[0]) + ", " + DumpItems(parent, items[1..])
  }

  function DumpMembers(ghost parent: Json, members: seq<(string, Json)>): string
    requires forall i :: 0 <= i < |members| ==> members[i].1 < parent
    decreases parent, 0, |members|
  {
    if members == [] then ""
    else
      var m := Quote(members[0].0, true) + ": " + Dumps(members[0].1);
      if |members| == 1 then m else m + ", " + DumpMembers(parent, members[1..])
  }

  /** Every character is printable ASCII, from space to tilde. */
  ghost predicate PrintableAscii(s: string) {
    forall i :: 0 <= i < |s| ==> 0x20 <= s[i] as int < 0x7F
  }

  lemma PrintableConcat(a: string, b: string)
    requires PrintableAscii(a) && PrintableAscii(b)
    ensures PrintableAscii(a + b)
  {
    forall i | 0 <= i < |a + b| ensures 0x20 <= (a + b)[i] as int < 0x7F {
      if i >= |a| { assert (a + b)[i] == b[i - |a|]; }
    }
  }

  lemma HexEscapeIsPrintable(n: nat)
    requires n < 0x10000
    ensures PrintableAscii("\\u" + Hex4(n))
  {
    var h := "\\u" + Hex4(n);
    assert h == ['\\', 'u', HexDigit(n / 0x100 / 16), HexDigit(n / 0x100 % 16), HexDigit(n % 0x100 / 16), HexDigit(n % 0x100 % 16)];
  }

  /** Each character escapes to printable ASCII under `ensure_ascii`. */
  lemma EscapeCharAsciiIsPrintable(c: char)
    ensures PrintableAscii(EscapeChar(c, true))
  {
    var n := c as int;
    if c == '"' || c == '\\' || n == 0x08 || n == 0x0C || c == '\n' || c == '\r' || c == '\t' {
    } else if n < 0x20 {
      HexEscapeIsPrintable(n);
    } else if n < 0x7F {
    } else if n < 0x10000 {
      HexEscapeIsPrintable(n);
    } else {
      SurrogatePairIsPrintable(c);
    }
  }

  /** A character above U+FFFF escapes to two printable `\uXXXX` escapes. */
  lemma SurrogatePairIsPrintable(c: char)
    requires c as int >= 0x10000
    ensures PrintableAscii(EscapeChar(c, true))
  {
    var hi, lo := SurrogateEscape(c);
    HexEscapeIsPrintable(hi);
    HexEscapeIsPrintable(lo);
    PrintableConcat("\\u" + Hex4(hi), "\\u" + Hex4(lo));
    assert "\\u" + Hex4(hi) + "\\u" + Hex4(lo) == ("\\u" + Hex4(hi)) + ("\\u" + Hex4(lo));
  }

  lemma {:induction false} EscapeAsciiIsPrintable(s: string)
    ensures PrintableAscii(Escape(s, true))
  {
    if s != [] {
      EscapeCharAsciiIsPrintable(s[0]);
      EscapeAsciiIsPrintable(s[1..]);
      PrintableConcat(EscapeChar(s[0], true), Escape(s[1..], true));
    }
  }

  lemma QuoteAsciiIsPrintable(s: string)
    ensures PrintableAscii(Quote(s, true))
  {
    EscapeAsciiIsPrintable(s);
    PrintableConcat("\"", Escape(s, true));
    PrintableConcat("\"" + Escape(s, true), "\"");
  }

  /** What `ensure_ascii=True` is for: the text `json.dumps` prints is printable ASCII,
      whatever characters the value holds. */
  lemma {:induction false} DumpsIsPrintableAscii(v: Json)
    ensures PrintableAscii(Dumps(v))
    decreases v, 1
  {
    match v
    case JNull =>
    case JBool(b) =>
    case JInt(i) =>
    case JStr(s) => QuoteAsciiIsPrintable(s);
    case JArray(items) =>
      DumpItemsIsPrintableAscii(v, items);
      PrintableConcat("[", DumpItems(v, items));
      PrintableConcat("[" + DumpItems(v, items), "]");
    case JObject(members) =>
      DumpMembersIsPrintableAscii(v, members);
      PrintableConcat("{", DumpMembers(v, members));
      PrintableConcat("{" + DumpMembers(v, members), "}");
  }

  lemma {:induction false} DumpItemsIsPrintableAscii(parent: Json, items: seq<Json>)
    requires forall i :: 0 <= i < |items| ==> items[i] < parent
    ensures PrintableAscii(DumpItems(parent, items))
    decreases parent, 0, |items|
  {
    if items != [] {
      DumpsIsPrintableAscii(items[0]);
      if |items| > 1 {
        DumpItemsIsPrintableAscii(parent, items[1..]);
        PrintableConcat(Dumps(items[0]), ", ");
        PrintableConcat(Dumps(items[0]) + ", ", DumpItems(parent, items[1..]));
      }
    }
  }

  lemma {:induction false} DumpMembersIsPrintableAscii(parent: Json, members: seq<(string, Json)>)
    requires forall i :: 0 <= i < |members| ==> members[i].1 < parent
    ensures PrintableAscii(DumpMembers(parent, members))
    decreases parent, 0, |members|
  {
    if members != [] {
      var key := Quote(members[0].0, true);
      QuoteAsciiIsPrintable(members[0].0);
      DumpsIsPrintableAscii(members[0].1);
      PrintableConcat(key, ": ");
      PrintableConcat(key + ": ", Dumps(members[0].1));
      var m := key + ": " + Dumps(members[0].1);
      if |members| > 1 {
        DumpMembersIsPrintableAscii(parent, members[1..]);
        PrintableConcat(m, ", ");
        PrintableConcat(m + ", ", DumpMembers(parent, members[1..]));
      }
    }
  }

  // ---------------------------------------------------------------- json.loads

  /** The whitespace JSON allows between tokens. */
  predicate IsWs(c: char) {
    c == ' ' || c == '\t' || c == '\n' || c == '\r'
  }

  predicate IsDigit(c: char) {
    '0' <= c <= '9'
  }

  /** What is left once the leading whitespace is skipped. */
  function SkipWs(t: string): (r: string)
    ensures |r| <= |t|
    ensures r == [] || !IsWs(r[0])
  {
    if t != [] && IsWs(t[0]) then SkipWs(t[1..]) else t
  }

  /** The length of the run of decimal digits `t` starts with. */
  function DigitCount(t: string): (n: nat)
    ensures n <= |t|
    ensures forall i :: 0 <= i < n ==> IsDigit(t[i])
    ensures n == |t| || !IsDigit(t[n])
  {
    if t == [] || !IsDigit(t[0]) then 0 else 1 + DigitCount(t[1..])
  }

  /** The literal `word` standing for `v` at the start of `t`. */
  function ParseWord(t: string, word: string, v: Json): (r: Option<(Json, string)>)
    requires word != []
    ensures r.Some? <==> |word| <= |t| && t[..|word|] == word
    ensures r.Some? ==> r.value == (v, t[|word|..])
  {
    if |word| <= |t| && t[..|word|] == word then Some((v, t[|word|..])) else None
  }

  /** The longest run of decimal digits at the start of `t`, read as a number. */
  function ParseDigits(t: string): (r: Option<(nat, string)>)
    ensures r.Some? ==> |r.value.1| < |t|
  {
    var n := DigitCount(t);
    if n == 0 then None else Some((ParseNat(t[..n]), t[n..]))
  }

  /** An integer at the start of `t`: an optional `-`, then the longest run of digits. */
  function ParseInt(t: string): (r: Option<(Json, string)>)
    ensures r.Some? ==> |r.value.1| < |t|
  {
    if t != [] && t[0] == '-' then
      match ParseDigits(t[1..])
      case None => None
      case Some((m, rest)) => Some((JInt(-(m as int)), rest))
    else
      match ParseDigits(t)
      case None => None
      case Some((m, rest)) => Some((JInt(m), rest))
  }

  /**
    Reads one JSON value from the start of `t`, which starts at a token: the value and the
    text after it, or `None` when no value starts there. Numbers are integers. An object's
    members are kept in the order and with the repetitions the text has; `Get` then gives
    the dict `json.loads` makes of them.
   */
  function ParseValue(t: string): (r: Option<(Json, string)>)
    ensures r.Some? ==> |r.value.1| < |t|
    decreases |t|, 0
  {
    if t == [] then None
    else if t[0] == 'n' then ParseWord(t, "null", JNull)
    else if t[0] == 't' then ParseWord(t, "true", JBool(true))
    else if t[0] == 'f' then ParseWord(t, "false", JBool(false))
    else if t[0] == '-' || IsDigit(t[0]) then ParseInt(t)
    else if t[0] == '"' then
      match ScanString(t[1..])
      case None => None
      case Some((s, rest)) => Some((JStr(s), rest))
    else if t[0] == '[' then
      var w := SkipWs(t[1..]);
      if w != [] && w[0] == ']' then Some((JArray([]), w[1..]))
      else
        match ParseItems(w)
        case None => None
        case Some((items, rest)) => Some((JArray(items), rest))
    else if t[0] == '{' then
      var w := SkipWs(t[1..]);
      if w != [] && w[0] == '}' then Some((JObject([]), w[1..]))
      else
        match ParseMembers(w)
        case None => None
        case Some((members, rest)) => Some((JObject(members), rest))
    else None
  }

  /** The items of a non-empty array up to and including its `]`. */
  function ParseItems(t: string): (r: Option<(seq<Json>, string)>)
    ensures r.Some? ==> |r.value.1| < |t|
    decreases |t|, 1
  {
    match ParseValue(t)
    case None => None
    case Some((v, after)) =>
      var s := SkipWs(after);
      if s == [] then None
      else if s[0] == ']' then Some(([v], s[1..]))
      else if s[0] == ',' then
        match ParseItems(SkipWs(s[1..]))
        case None => None
        case Some((vs, rest)) => Some(([v] + vs, rest))
      else None
  }

  /** The members of a non-empty object up to and including its `}`. */
  function ParseMembers(t: string): (r: Option<(seq<(string, Json)>, string)>)
    ensures r.Some? ==> |r.value.1| < |t|
    decreases |t|, 1
  {
    if t == [] || t[0] != '"' then None
    else
      match ScanString(t[1..])
      case None => None
      case Some((key, afterKey)) =>
        var s := SkipWs(afterKey);
        if s == [] || s[0] != ':' then None
        else ParseMemberValue(key, SkipWs(s[1..]))
  }

  /** The rest of a member once its key and `:` are read: its value, then `}` or `,` and
      the members that follow. */
  function ParseMemberValue(key: string, t: string): (r: Option<(seq<(string, Json)>, string)>)
    ensures r.Some? ==> |r.value.1| < |t|
    decreases |t|, 1
  {
    match ParseValue(t)
    case None => None
    case Some((v, after)) =>
      var s := SkipWs(after);
      if s == [] then None
      else if s[0] == '}' then Some(([(key, v)], s[1..]))
      else if s[0] == ',' then
        match ParseMembers(SkipWs(s[1..]))
        case None => None
        case Some((ms, rest)) => Some(([(key, v)] + ms, rest))
      else None
  }

  /** `json.loads(s)`: the one value the text holds, whitespace allowed around tokens. */
  function Loads(s: string): Option<Json> {
    match ParseValue(SkipWs(s))
    case None => None
    case Some((v, rest)) => if SkipWs(rest) == [] then Some(v) else None
  }

  /** A character a value's text can start with. */
  predicate IsValueStart(c: char) {
    c == 'n' || c == 't' || c == 'f' || c == '-' || IsDigit(c) || c == '"' || c == '[' || c == '{'
  }

  lemma DumpsStart(v: Json)
    ensures |Dumps(v)| > 0 && IsValueStart(Dumps(v)[0])
  {
    match v
    case JInt(i) => if i < 0 { assert Dumps(v)[0] == '-'; } else { assert Dumps(v) == NatToString(i); }
    case _ =>
  }

  lemma DumpItemsStart(parent: Json, items: seq<Json>)
    requires items != [] && forall i :: 0 <= i < |items| ==> items[i] < parent
    ensures |DumpItems(parent, items)| > 0 && IsValueStart(DumpItems(parent, items)[0])
  {
    DumpsStart(items[0]);
    if |items| > 1 {
      assert DumpItems(parent, items)[0] == Dumps(items[0])[0];
    }
  }

  lemma DumpMembersStart(parent: Json, members: seq<(string, Json)>)
    requires members != [] && forall i :: 0 <= i < |members| ==> members[i].1 < parent
    ensures |DumpMembers(parent, members)| > 0 && DumpMembers(parent, members)[0] == '"'
  {
    var m := Quote(members[0].0, true) + ": " + Dumps(members[0].1);
    assert m[0] == '"';
    if |members| > 1 {
      assert DumpMembers(parent, members)[0] == m[0];
    }
  }

  /** Skipping whitespace before one space and a token lands on the token. */
  lemma SkipSpace(t: string)
    requires t != [] && !IsWs(t[0])
    ensures SkipWs(" " + t) == t
  {
    assert (" " + t)[1..] == t;
  }

  /** `DigitCount` stops exactly at the end of a run of digits. */
  lemma DigitCountOf(x: string, rest: string)
    requires forall i :: 0 <= i < |x| ==> IsDigit(x[i])
    requires rest == [] || !IsDigit(rest[0])
    ensures DigitCount(x + rest) == |x|
  {
    forall i | 0 <= i < |x| ensures (x + rest)[i] == x[i] { }
    if rest != [] {
      assert (x + rest)[|x|] == rest[0];
    }
  }

  lemma ParseValueKeyword(rest: string)
    ensures ParseValue("null" + rest) == Some((JNull, rest))
    ensures ParseValue("true" + rest) == Some((JBool(true), rest))
    ensures ParseValue("false" + rest) == Some((JBool(false), rest))
  {
    assert ("null" + rest)[..4] == "null" && ("null" + rest)[4..] == rest;
    assert ("true" + rest)[..4] == "true" && ("true" + rest)[4..] == rest;
    assert ("false" + rest)[..5] == "false" && ("false" + rest)[5..] == rest;
  }

  /** `str(i)` followed by text that does not continue the number reads back as `i`. */
  lemma ParseIntOfIntToString(i: int, rest: string)
    requires rest == [] || !IsDigit(rest[0])
    ensures ParseInt(IntToString(i) + rest) == Some((JInt(i), rest))
  {
    if i < 0 {
      ParseIntOfNegativeText(i, rest);
    } else {
      ParseIntOfNatText(i, rest);
    }
  }

  lemma ParseIntOfNatText(n: nat, rest: string)
    requires rest == [] || !IsDigit(rest[0])
    ensures ParseInt(IntToString(n) + rest) == Some((JInt(n), rest))
  {
    var x := NatToString(n);
    ParseNatToString(n);
    ParseDigitsOf(x, rest, n);
    assert (x + rest)[0] == x[0];
    ParseIntOfDigits(x + rest, n, rest);
  }

  lemma ParseIntOfNegativeText(i: int, rest: string)
    requires i < 0
    requires rest == [] || !IsDigit(rest[0])
    ensures ParseInt(IntToString(i) + rest) == Some((JInt(i), rest))
  {
    var x := NatToString(-i);
    ParseNatToString(-i);
    ParseDigitsOf(x, rest, -i);
    assert IntToString(i) + rest == "-" + (x + rest);
    ParseIntOfNegativeDigits(x + rest, -i, rest);
  }

  /** A run of digits followed by a non-digit reads back as its value. */
  lemma ParseDigitsOf(x: string, rest: string, n: nat)
    requires x != [] && forall i :: 0 <= i < |x| ==> '0' <= x[i] <= '9'
    requires ParseNat(x) == n
    requires rest == [] || !IsDigit(rest[0])
    ensures ParseDigits(x + rest) == Some((n, rest))
  {
    DigitCountOf(x, rest);
    assert (x + rest)[..|x|] == x && (x + rest)[|x|..] == rest;
  }

  /** Text that starts with digits reads as the unsigned number they make. */
  lemma ParseIntOfDigits(d: string, n: nat, rest: string)
    requires d != [] && IsDigit(d[0]) && ParseDigits(d) == Some((n, rest))
    ensures ParseInt(d) == Some((JInt(n), rest))
  {
  }

  /** A `-` before digits negates the number they make. */
  lemma ParseIntOfNegativeDigits(d: string, n: nat, rest: string)
    requires ParseDigits(d) == Some((n, rest))
    ensures ParseInt("-" + d) == Some((JInt(-(n as int)), rest))
  {
    assert ("-" + d)[1..] == d;
  }

  lemma ParseValueInt(t: string, i: int, rest: string)
    requires rest == [] || !IsDigit(rest[0])
    requires t == IntToString(i) + rest
    ensures ParseValue(t) == Some((JInt(i), rest))
  {
    ParseIntOfIntToString(i, rest);
    if i < 0 {
      assert t[0] == '-';
    } else {
      assert t[0] == NatToString(i)[0];
    }
  }

  lemma ParseValueStr(t: string, s: string, rest: string)
    requires t == Quote(s, true) + rest
    ensures ParseValue(t) == Some((JStr(s), rest))
  {
    ScanQuote(s, true, rest);
  }

  lemma ParseValueArray(t: string, w: string, items: seq<Json>, rest: string)
    requires t == "[" + w
    requires w != [] && IsValueStart(w[0]) && ParseItems(w) == Some((items, rest))
    ensures ParseValue(t) == Some((JArray(items), rest))
  {
    assert t[1..] == w;
  }

  lemma ParseValueObject(t: string, w: string, members: seq<(string, Json)>, rest: string)
    requires t == "{" + w
    requires w != [] && w[0] == '"' && ParseMembers(w) == Some((members, rest))
    ensures ParseValue(t) == Some((JObject(members), rest))
  {
    assert t[1..] == w;
  }

  lemma ParseValueEmpty(rest: string)
    ensures ParseValue("[]" + rest) == Some((JArray([]), rest))
    ensures ParseValue("{}" + rest) == Some((JObject([]), rest))
  {
    assert ("[]" + rest)[1..] == "]" + rest && ("]" + rest)[1..] == rest;
    assert ("{}" + rest)[1..] == "}" + rest && ("}" + rest)[1..] == rest;
  }

  /** What `json.dumps` prints for a value reads back as that value, leaving the text that
      follows it, when that text does not continue a number. */
  lemma {:induction false} ParseValueDumps(v: Json, rest: string)
    requires rest == [] || !IsDigit(rest[0])
    ensures ParseValue(Dumps(v) + rest) == Some((v, rest))
    decreases v, 2
  {
    match v
    case JNull => ParseValueKeyword(rest);
    case JBool(b) => ParseValueKeyword(rest);
    case JInt(i) => ParseValueInt(Dumps(v) + rest, i, rest);
    case JStr(s) => ParseValueStr(Dumps(v) + rest, s, rest);
    case JArray(items) => ParseArrayDumps(v, rest);
    case JObject(members) => ParseObjectDumps(v, rest);
  }

  lemma {:induction false} ParseArrayDumps(v: Json, rest: string)
    requires v.JArray?
    ensures ParseValue(Dumps(v) + rest) == Some((v, rest))
    decreases v, 1
  {
    var items := v.items;
    if items == [] {
      ParseValueEmpty(rest);
    } else {
      var w := DumpItems(v, items) + "]" + rest;
      assert Dumps(v) + rest == "[" + w;
      assert w != [] && IsValueStart(w[0]) by {
        DumpItemsStart(v, items);
        assert w[0] == DumpItems(v, items)[0];
      }
      assert ParseItems(w) == Some((items, rest)) by { ParseItemsDumps(v, items, rest); }
      ParseValueArray(Dumps(v) + rest, w, items, rest);
    }
  }

  lemma {:induction false} ParseObjectDumps(v: Json, rest: string)
    requires v.JObject?
    ensures ParseValue(Dumps(v) + rest) == Some((v, rest))
    decreases v, 1
  {
    if v.members == [] {
      ParseValueEmpty(rest);
    } else {
      ParseFilledObjectDumps(v, rest);
    }
  }

  lemma {:induction false} ParseFilledObjectDumps(v: Json, rest: string)
    requires v.JObject? && v.members != []
    ensures ParseValue(Dumps(v) + rest) == Some((v, rest))
    decreases v, 0, |v.members|, 3
  {
    var members := v.members;
    var w := DumpMembers(v, members) + "}" + rest;
    assert Dumps(v) + rest == "{" + w;
    assert w != [] && w[0] == '"' by {
      DumpMembersStart(v, members);
      assert w[0] == DumpMembers(v, members)[0];
    }
    ParseMembersDumps(v, members, rest);
    ParseValueObject(Dumps(v) + rest, w, members, rest);
  }

  /** The last item of an array: its value, then `]`. */
  lemma ParseItemsLast(t: string, v: Json, rest: string)
    requires ParseValue(t) == Some((v, "]" + rest))
    ensures ParseItems(t) == Some(([v], rest))
  {
    assert ("]" + rest)[1..] == rest;
  }

  /** An item followed by `, ` and more items. */
  lemma ParseItemsNext(t: string, v: Json, more: string)
    requires ParseValue(t) == Some((v, ", " + more))
    requires more != [] && !IsWs(more[0])
    ensures ParseItems(t) == match ParseItems(more)
                             case None => None
                             case Some((vs, rest)) => Some(([v] + vs, rest))
  {
    assert (", " + more)[1..] == " " + more;
    SkipSpace(more);
  }

  lemma {:induction false} ParseItemsDumps(parent: Json, items: seq<Json>, rest: string)
    requires items != [] && forall i :: 0 <= i < |items| ==> items[i] < parent
    ensures ParseItems(DumpItems(parent, items) + "]" + rest) == Some((items, rest))
    decreases parent, 0, |items|, 2
  {
    if |items| == 1 {
      var t := DumpItems(parent, items) + "]" + rest;
      assert ParseValue(t) == Some((items[0], "]" + rest)) by {
        assert t == Dumps(items[0]) + ("]" + rest);
        ParseValueDumps(items[0], "]" + rest);
      }
      ParseItemsLast(t, items[0], rest);
      assert [items[0]] == items;
    } else {
      ParseMoreItemsDumps(parent, items, rest);
    }
  }

  lemma {:induction false} ParseMoreItemsDumps(parent: Json, items: seq<Json>, rest: string)
    requires |items| > 1 && forall i :: 0 <= i < |items| ==> items[i] < parent
    ensures ParseItems(DumpItems(parent, items) + "]" + rest) == Some((items, rest))
    decreases parent, 0, |items|, 1
  {
    var t := DumpItems(parent, items) + "]" + rest;
    var tail := DumpItems(parent, items[1..]) + "]" + rest;
    ParseFirstItemDumps(parent, items, rest);
    ParseItemsNext(t, items[0], tail);
    ParseItemsDumps(parent, items[1..], rest);
    assert [items[0]] + items[1..] == items;
  }

  /** The first of two or more items parses back, leaving `, ` and the others' text. */
  lemma {:induction false} ParseFirstItemDumps(parent: Json, items: seq<Json>, rest: string)
    requires |items| > 1 && forall i :: 0 <= i < |items| ==> items[i] < parent
    ensures var tail := DumpItems(parent, items[1..]) + "]" + rest;
      && ParseValue(DumpItems(parent, items) + "]" + rest) == Some((items[0], ", " + tail))
      && tail != [] && !IsWs(tail[0])
    decreases parent, 0, |items|, 0
  {
    var tail := DumpItems(parent, items[1..]) + "]" + rest;
    DumpItemsCons(parent, items, rest);
    ParseValueDumps(items[0], ", " + tail);
    DumpItemsStart(parent, items[1..]);
    assert tail[0] == DumpItems(parent, items[1..])[0];
  }

  /** A key followed by `: ` hands the text after it to `ParseMemberValue`. */
  lemma ParseMembersKey(t: string, key: string, u: string)
    requires t != [] && t[0] == '"' && ScanString(t[1..]) == Some((key, ": " + u))
    requires u != [] && !IsWs(u[0])
    ensures ParseMembers(t) == ParseMemberValue(key, u)
  {
    assert (": " + u)[1..] == " " + u;
    SkipSpace(u);
  }

  /** The text of two or more items: the first, `, `, then the others. */
  lemma DumpItemsCons(parent: Json, items: seq<Json>, rest: string)
    requires |items| > 1 && forall i :: 0 <= i < |items| ==> items[i] < parent
    ensures DumpItems(parent, items) + "]" + rest
         == Dumps(items[0]) + (", " + (DumpItems(parent, items[1..]) + "]" + rest))
  {
  }

  /** One member, `"key": value`, followed by `}`. */
  lemma ParseMembersLast(t: string, key: string, u: string, v: Json, rest: string)
    requires t != [] && t[0] == '"' && ScanString(t[1..]) == Some((key, ": " + u))
    requires u != [] && !IsWs(u[0]) && ParseValue(u) == Some((v, "}" + rest))
    ensures ParseMembers(t) == Some(([(key, v)], rest))
  {
    ParseMembersKey(t, key, u);
    assert ("}" + rest)[1..] == rest;
  }

  /** One member followed by `, ` and more members. */
  lemma ParseMembersNext(t: string, key: string, u: string, v: Json, more: string)
    requires t != [] && t[0] == '"' && ScanString(t[1..]) == Some((key, ": " + u))
    requires u != [] && !IsWs(u[0]) && ParseValue(u) == Some((v, ", " + more))
    requires more != [] && !IsWs(more[0])
    ensures ParseMembers(t) == match ParseMembers(more)
                               case None => None
                               case Some((ms, rest)) => Some(([(key, v)] + ms, rest))
  {
    ParseMembersKey(t, key, u);
    ParseMemberValueNext(key, u, v, more);
  }

  /** A member's value followed by `, ` and more members. */
  lemma ParseMemberValueNext(key: string, u: string, v: Json, more: string)
    requires ParseValue(u) == Some((v, ", " + more))
    requires more != [] && !IsWs(more[0])
    ensures ParseMemberValue(key, u) == match ParseMembers(more)
                                        case None => None
                                        case Some((ms, rest)) => Some(([(key, v)] + ms, rest))
  {
    var after := ", " + more;
    assert SkipWs(after) == after;
    assert after[1..] == " " + more;
    SkipSpace(more);
  }

  /** The text of one member, `"key": value`, followed by `after`: the key scans back,
      and the value after `: ` parses back. */
  lemma {:induction false} MemberDumps(parent: Json, key: string, value: Json, after: string)
    requires value < parent
    requires after == [] || !IsDigit(after[0])
    ensures var t := Quote(key, true) + ": " + Dumps(value) + after;
      var u := Dumps(value) + after;
      && t != [] && t[0] == '"' && ScanString(t[1..]) == Some((key, ": " + u))
      && u != [] && !IsWs(u[0]) && ParseValue(u) == Some((value, after))
    decreases parent, 0, 0
  {
    var u := Dumps(value) + after;
    assert Quote(key, true) + ": " + Dumps(value) + after == Quote(key, true) + (": " + u);
    ScanQuote(key, true, ": " + u);
    DumpsStart(value);
    assert u[0] == Dumps(value)[0];
    ParseValueDumps(value, after);
  }

  lemma {:induction false} ParseMembersDumps(parent: Json, members: seq<(string, Json)>, rest: string)
    requires members != [] && forall i :: 0 <= i < |members| ==> members[i].1 < parent
    ensures ParseMembers(DumpMembers(parent, members) + "}" + rest) == Some((members, rest))
    decreases parent, 0, |members|, 2
  {
    if |members| == 1 {
      var key, value := members[0].0, members[0].1;
      var t := DumpMembers(parent, members) + "}" + rest;
      assert t == Quote(key, true) + ": " + Dumps(value) + ("}" + rest);
      MemberDumps(parent, key, value, "}" + rest);
      ParseMembersLast(t, key, Dumps(value) + ("}" + rest), value, rest);
      assert [(key, value)] == members;
    } else {
      ParseMoreMembersDumps(parent, members, rest);
    }
  }

  lemma {:induction false} ParseMoreMembersDumps(parent: Json, members: seq<(string, Json)>, rest: string)
    requires |members| > 1 && forall i :: 0 <= i < |members| ==> members[i].1 < parent
    ensures ParseMembers(DumpMembers(parent, members) + "}" + rest) == Some((members, rest))
    decreases parent, 0, |members|, 1
  {
    var key, value := members[0].0, members[0].1;
    var tail := DumpMembers(parent, members[1..]) + "}" + rest;
    var t := DumpMembers(parent, members) + "}" + rest;
    ParseFirstMemberDumps(parent, members, rest);
    ParseMembersNext(t, key, Dumps(value) + (", " + tail), value, tail);
    ParseMembersDumps(parent, members[1..], rest);
    assert [(key, value)] + members[1..] == members;
  }

  /** The first of two or more members reads back, leaving `, ` and the others' text. */
  lemma {:induction false} ParseFirstMemberDumps(parent: Json, members: seq<(string, Json)>, rest: string)
    requires |members| > 1 && forall i :: 0 <= i < |members| ==> members[i].1 < parent
    ensures var key, value := members[0].0, members[0].1;
      var tail := DumpMembers(parent, members[1..]) + "}" + rest;
      var t := DumpMembers(parent, members) + "}" + rest;
      var u := Dumps(value) + (", " + tail);
      && t != [] && t[0] == '"' && ScanString(t[1..]) == Some((key, ": " + u))
      && u != [] && !IsWs(u[0]) && ParseValue(u) == Some((value, ", " + tail))
      && tail != [] && !IsWs(tail[0])
    decreases parent, 0, |members|, 0
  {
    var key, value := members[0].0, members[0].1;
    var tail := DumpMembers(parent, members[1..]) + "}" + rest;
    var t := DumpMembers(parent, members) + "}" + rest;
    assert t == Quote(key, true) + ": " + Dumps(value) + (", " + tail);
    MemberDumps(parent, key, value, ", " + tail);
    DumpMembersStart(parent, members[1..]);
    assert tail[0] == DumpMembers(parent, members[1..])[0];
  }

  /** `json.loads(json.dumps(v)) == v`: the printed text reads back as the value. */
  lemma LoadsDumps(v: Json)
    ensures Loads(Dumps(v)) == Some(v)
  {
    DumpsStart(v);
    ParseValueDumps(v, []);
    assert Dumps(v) + [] == Dumps(v);
  }
}
