/**
 * `json.dumps` applied to a string, with Python's default `ensure_ascii=True`:
 * a JSON string (section 7 of RFC 8259) in which every character outside the
 * printable ASCII range is written as a `\u` escape with lower-case hex digits,
 * characters above U+FFFF as a surrogate pair. A decoder for JSON strings
 * reads every such encoding back.
 */
module JsonText {
  import opened Strs

  function HexDigit(d: nat): (c: char)
    requires d < 16
  {
    if d < 10 then ('0' as int + d) as char else ('a' as int + d - 10) as char
  }

  /** Value of one hex digit, either case. */
  function HexValue(c: char): Option<nat>
  {
    if '0' <= c <= '9' then Some(c as int - '0' as int)
    else if 'a' <= c <= 'f' then Some(c as int - 'a' as int + 10)
    else if 'A' <= c <= 'F' then Some(c as int - 'A' as int + 10)
    else None
  }

  /** Four lower-case hex digits of `n`, as Python's `'{0:04x}'.format(n)`. */
  function Hex4(n: nat): string
    requires n < 0x10000
  {
    [HexDigit(n / 16 / 16 / 16), HexDigit(n / 16 / 16 % 16), HexDigit(n / 16 % 16), HexDigit(n % 16)]
  }

  function ParseHex4(t: string): Option<nat>
    requires |t| == 4
  {
    match (HexValue(t[0]), HexValue(t[1]), HexValue(t[2]), HexValue(t[3]))
    case (Some(a), Some(b), Some(c), Some(d)) => Some(((a * 16 + b) * 16 + c) * 16 + d)
    case _ => None
  }

  lemma Hex4RoundTrip(n: nat)
    requires n < 0x10000
    ensures ParseHex4(Hex4(n)) == Some(n)
  {
    var h := Hex4(n);
    assert HexValue(h[0]) == Some(n / 16 / 16 / 16);
    assert HexValue(h[1]) == Some(n / 16 / 16 % 16);
    assert HexValue(h[2]) == Some(n / 16 % 16);
    assert HexValue(h[3]) == Some(n % 16);
  }

  /** One character of the encoded text, as Python's `py_encode_basestring_ascii`. */
  function EscapeChar(c: char): string
  {
    if c == '"' then "\\\""
    else if c == '\\' then "\\\\"
    else if c == '\n' then "\\n"
    else if c == '\r' then "\\r"
    else if c == '\t' then "\\t"
    else if c == '\U{8}' then "\\b"
    else if c == '\U{c}' then "\\f"
    else if ' ' <= c <= '~' then [c]
    else if c as int < 0x10000 then "\\u" + Hex4(c as int)
    else
      var n := c as int - 0x10000;
      "\\u" + Hex4(0xD800 + n / 1024) + "\\u" + Hex4(0xDC00 + n % 1024)
  }

  function Escape(s: string): string
    decreases |s|
  {
    if |s| == 0 then "" else EscapeChar(s[0]) + Escape(s[1..])
  }

  /** `json.dumps(s)` for a string `s`. */
  function Quote(s: string): string
  {
    "\"" + Escape(s) + "\""
  }

  predicate PrintableAscii(t: string)
  {
    forall k :: 0 <= k < |t| ==> ' ' <= t[k] <= '~'
  }

  lemma {:induction false} EscapePrintable(s: string)
    ensures PrintableAscii(Escape(s))
    decreases |s|
  {
    if |s| > 0 {
      EscapePrintable(s[1..]);
      EscapeCharPrintable(s[0]);
      PrintableConcat(EscapeChar(s[0]), Escape(s[1..]));
    }
  }

  /** Each character is written in printable ASCII. */
  lemma EscapeCharPrintable(c: char)
    ensures PrintableAscii(EscapeChar(c))
  {
    if c as int >= 0x10000 {
      var n := c as int - 0x10000;
      PairPrintable(0xD800 + n / 1024, 0xDC00 + n % 1024);
    } else if !(' ' <= c <= '~') && c as int < 0x10000 {
      Hex4Printable(c as int);
      PrintableConcat("\\u", Hex4(c as int));
    }
  }

  /** A surrogate pair's text is printable. */
  lemma PairPrintable(hi: nat, lo: nat)
    requires hi < 0x10000 && lo < 0x10000
    ensures PrintableAscii("\\u" + Hex4(hi) + "\\u" + Hex4(lo))
  {
    Hex4Printable(hi);
    Hex4Printable(lo);
    PrintableConcat("\\u", Hex4(hi));
    PrintableConcat("\\u" + Hex4(hi), "\\u");
    PrintableConcat("\\u" + Hex4(hi) + "\\u", Hex4(lo));
  }

  lemma Hex4Printable(n: nat)
    requires n < 0x10000
    ensures PrintableAscii(Hex4(n))
  {
  }

  lemma PrintableConcat(a: string, b: string)
    requires PrintableAscii(a) && PrintableAscii(b)
    ensures PrintableAscii(a + b)
  {
    assert forall k :: |a| <= k < |a + b| ==> (a + b)[k] == b[k - |a|];
  }

  /** The encoding is quoted and uses printable ASCII only. */
  lemma QuoteShape(s: string)
    ensures var r := Quote(s);
      && |r| >= 2 && r[0] == '"' && r[|r| - 1] == '"'
      && PrintableAscii(r)
  {
    EscapePrintable(s);
  }

  // ---------------------------------------------------------------------------
  // Decoding JSON string contents

  /**
   * The first character of JSON string contents and how many characters of
   * text encode it; `None` for text that is not valid JSON or that denotes a
   * lone surrogate.
   */
  function DecodeOne(t: string): (r: Option<(char, nat)>)
    requires |t| > 0
    ensures r.Some? ==> 1 <= r.value.1 <= |t|
  {
    if t[0] == '"' || t[0] < ' ' then None
    else if t[0] != '\\' then Some((t[0], 1))
    else if |t| < 2 then None
    else if t[1] == '"' || t[1] == '\\' || t[1] == '/' then Some((t[1], 2))
    else if t[1] == 'b' then Some(('\U{8}', 2))
    else if t[1] == 'f' then Some(('\U{c}', 2))
    else if t[1] == 'n' then Some(('\n', 2))
    else if t[1] == 'r' then Some(('\r', 2))
    else if t[1] == 't' then Some(('\t', 2))
    else if t[1] != 'u' || |t| < 6 then None
    else
      match ParseHex4(t[2..6])
      case None => None
      case Some(hi) =>
        if 0xDC00 <= hi < 0xE000 then None
        else if hi < 0xD800 || 0xE000 <= hi then Some((hi as char, 6))
        else if |t| < 12 || t[6] != '\\' || t[7] != 'u' then None
        else
          match ParseHex4(t[8..12])
          case None => None
          case Some(lo) =>
            if 0xDC00 <= lo < 0xE000 then Some(((0x10000 + (hi - 0xD800) * 1024 + (lo - 0xDC00)) as char, 12))
            else None
  }

  /** JSON string contents (between the quotes) to the string they denote. */
  function Unescape(t: string): Option<string>
    decreases |t|
  {
    if |t| == 0 then Some("")
    else
      match DecodeOne(t)
      case None => None
      case Some((c, k)) =>
        match Unescape(t[k..])
        case None => None
        case Some(rest) => Some([c] + rest)
  }

  /** A JSON string literal to the string it denotes. */
  function Unquote(t: string): Option<string>
  {
    if |t| >= 2 && t[0] == '"' && t[|t| - 1] == '"' then Unescape(t[1..|t| - 1]) else None
  }

  lemma DecodeEscapeChar(c: char, rest: string)
    ensures DecodeOne(EscapeChar(c) + rest) == Some((c, |EscapeChar(c)|))
  {
    if c == '"' || c == '\\' || c == '\n' || c == '\r' || c == '\t' || c == '\U{8}' || c == '\U{c}' {
    } else if ' ' <= c <= '~' {
    } else if c as int < 0x10000 {
      DecodeBmp(c, rest);
    } else {
      DecodeAstral(c, rest);
    }
  }

  /** A character below U+10000 written as `\\uXXXX` reads back. */
  lemma DecodeBmp(c: char, rest: string)
    requires !(' ' <= c <= '~') && c != '\n' && c != '\r' && c != '\t' && c != '\U{8}' && c != '\U{c}'
    requires c as int < 0x10000
    ensures DecodeOne("\\u" + Hex4(c as int) + rest) == Some((c, 6))
  {
    var t := "\\u" + Hex4(c as int) + rest;
    assert t[2..6] == Hex4(c as int);
    Hex4RoundTrip(c as int);
  }

  /** A character above U+FFFF written as a surrogate pair reads back. */
  lemma DecodeAstral(c: char, rest: string)
    requires c as int >= 0x10000
    ensures var n := c as int - 0x10000;
      DecodeOne("\\u" + Hex4(0xD800 + n / 1024) + "\\u" + Hex4(0xDC00 + n % 1024) + rest) == Some((c, 12))
  {
    var n := c as int - 0x10000;
    var hi, lo := 0xD800 + n / 1024, 0xDC00 + n % 1024;
    var t := "\\u" + Hex4(hi) + "\\u" + Hex4(lo) + rest;
    assert t[2..6] == Hex4(hi);
    assert t[6] == '\\' && t[7] == 'u';
    assert t[8..12] == Hex4(lo);
    Hex4RoundTrip(hi);
    Hex4RoundTrip(lo);
    assert 0x10000 + (hi - 0xD800) * 1024 + (lo - 0xDC00) == c as int;
  }

  /** Text that decodes to `c` in its first `|e|` characters, then to `rest`. */
  lemma UnescapePrefix(e: string, tail: string, c: char, rest: string)
    requires |e| > 0 && DecodeOne(e + tail) == Some((c, |e|)) && Unescape(tail) == Some(rest)
    ensures Unescape(e + tail) == Some([c] + rest)
  {
    assert (e + tail)[|e|..] == tail;
  }

  lemma {:induction false} UnescapeEscape(s: string)
    ensures Unescape(Escape(s)) == Some(s)
    decreases |s|
  {
    if |s| > 0 {
      DecodeEscapeChar(s[0], Escape(s[1..]));
      UnescapeEscape(s[1..]);
      UnescapePrefix(EscapeChar(s[0]), Escape(s[1..]), s[0], s[1..]);
      assert [s[0]] + s[1..] == s;
    }
  }

  /** Decoding the JSON text of a string gives the string back. */
  lemma QuoteRoundTrip(s: string)
    ensures Unquote(Quote(s)) == Some(s)
  {
    var r := Quote(s);
    assert r[1..|r| - 1] == Escape(s);
    UnescapeEscape(s);
  }

  /** Different strings have different JSON texts. */
  lemma QuoteInjective(s: string, t: string)
    requires Quote(s) == Quote(t)
    ensures s == t
  {
    QuoteRoundTrip(s);
    QuoteRoundTrip(t);
  }
}
