/**
 * The generic program realizer: literal code for argument values, the
 * initial fixture taken from a fixture map, one call snippet per plan step,
 * and the output serializer chosen by the fixture's hint. Reading the fixture
 * file is an input: `fixtures` is the map it holds.
 */
module Realizer {
  import opened Strs
  import opened PyValues
  import opened JsonText
  import opened Cards

  // ---------------------------------------------------------------------------
  // Literal code for values

  /**
   * `_value_code`: strings as JSON strings, lists as `[a,b]`, dicts as
   * `{k:v}` in insertion order, anything else as its `repr`.
   */
  function ValueCode(v: Value): string
    decreases v
  {
    match v
    case VStr(s) => Quote(s)
    case VList(xs) => "[" + Join(",", Codes(xs)) + "]"
    case VDict(es) => "{" + Join(",", EntryCodes(es)) + "}"
    case _ => Repr(v)
  }

  function Codes(xs: seq<Value>): (r: seq<string>)
    ensures |r| == |xs|
    decreases xs
  {
    if |xs| == 0 then [] else [ValueCode(xs[0])] + Codes(xs[1..])
  }

  function EntryCode(e: Entry): string
    decreases e
  {
    ValueCode(e.key) + ":" + ValueCode(e.val)
  }

  function EntryCodes(es: seq<Entry>): (r: seq<string>)
    ensures |r| == |es|
    decreases es
  {
    if |es| == 0 then [] else [EntryCode(es[0])] + EntryCodes(es[1..])
  }

  /** The values whose code is read back: no floats, tuples or trees, at any depth. */
  predicate Encodable(v: Value)
    decreases v
  {
    match v
    case VFloat(_) => false
    case VTuple(_) => false
    case VTree(_, _) => false
    case VList(xs) => AllEncodable(xs)
    case VDict(es) => EntriesEncodable(es)
    case _ => true
  }

  predicate AllEncodable(xs: seq<Value>)
    decreases xs
  {
    |xs| == 0 || (Encodable(xs[0]) && AllEncodable(xs[1..]))
  }

  predicate EntryEncodable(e: Entry)
    decreases e
  {
    Encodable(e.key) && Encodable(e.val)
  }

  predicate EntriesEncodable(es: seq<Entry>)
    decreases es
  {
    |es| == 0 || (EntryEncodable(es[0]) && EntriesEncodable(es[1..]))
  }

  // ---------------------------------------------------------------------------
  // Reading literal code back

  /** JSON string contents up to the closing quote, and the text after it. */
  function ParseStrBody(t: string): (r: Option<(string, string)>)
    ensures r.Some? ==> |r.value.1| < |t|
    decreases |t|
  {
    if |t| == 0 then None
    else if t[0] == '"' then Some(("", t[1..]))
    else
      match DecodeOne(t)
      case None => None
      case Some((c, k)) =>
        match ParseStrBody(t[k..])
        case None => None
        case Some((s, rest)) => Some(([c] + s, rest))
  }

  /** One literal at the start of `t`, and the text after it. */
  function ParseValue(t: string): (r: Option<(Value, string)>)
    ensures r.Some? ==> |r.value.1| < |t|
    decreases |t|, 0
  {
    if |t| == 0 then None
    else if t[0] == '"' then
      match ParseStrBody(t[1..])
      case None => None
      case Some((s, rest)) => Some((VStr(s), rest))
    else if t[0] == '[' then
      if |t| >= 2 && t[1] == ']' then Some((VList([]), t[2..]))
      else
        match ParseItems(t[1..])
        case None => None
        case Some((xs, rest)) => Some((VList(xs), rest))
    else if t[0] == '{' then
      if |t| >= 2 && t[1] == '}' then Some((VDict([]), t[2..]))
      else
        match ParseEntries(t[1..])
        case None => None
        case Some((es, rest)) => Some((VDict(es), rest))
    else ParseAtom(t)
  }

  /** `None`, `True`, `False` or a decimal integer at the start of `t`. */
  function ParseAtom(t: string): (r: Option<(Value, string)>)
    requires |t| > 0
    ensures r.Some? ==> |r.value.1| < |t|
  {
    if StartsWith(t, "None") then Some((VNone, t[4..]))
    else if StartsWith(t, "True") then Some((VBool(true), t[4..]))
    else if StartsWith(t, "False") then Some((VBool(false), t[5..]))
    else if t[0] == '-' then
      match ParseNat(t[1..])
      case None => None
      case Some((n, rest)) => Some((VInt(-(n as int)), rest))
    else
      match ParseNat(t)
      case None => None
      case Some((n, rest)) => Some((VInt(n), rest))
  }

  /** The run of digits at the start of `t` as a number, and the text after it. */
  function ParseNat(t: string): (r: Option<(nat, string)>)
    ensures r.Some? ==> |r.value.1| < |t|
  {
    var k := DigitRun(t);
    if k == 0 then None else Some((DigitsValue(t[..k]), t[k..]))
  }

  /** A run of digits followed by a non-digit is read as its value. */
  lemma ParseNatOf(d: string, rest: string)
    requires |d| >= 1 && AllDigits(d) && (|rest| == 0 || !IsDigit(rest[0]))
    ensures ParseNat(d + rest) == Some((DigitsValue(d), rest))
  {
    DigitRunOf(d, rest);
    assert (d + rest)[..|d|] == d;
    assert (d + rest)[|d|..] == rest;
  }

  /** Comma-separated literals up to the closing `]`. */
  function ParseItems(t: string): (r: Option<(seq<Value>, string)>)
    ensures r.Some? ==> |r.value.1| < |t|
    decreases |t|, 1
  {
    match ParseValue(t)
    case None => None
    case Some((x, rest)) =>
      if |rest| == 0 then None
      else if rest[0] == ']' then Some(([x], rest[1..]))
      else if rest[0] == ',' then
        match ParseItems(rest[1..])
        case None => None
        case Some((xs, rest2)) => Some(([x] + xs, rest2))
      else None
  }

  /** Comma-separated `key:value` pairs up to the closing `}`. */
  function ParseEntries(t: string): (r: Option<(seq<Entry>, string)>)
    ensures r.Some? ==> |r.value.1| < |t|
    decreases |t|, 1
  {
    match ParseValue(t)
    case None => None
    case Some((k, rest)) =>
      if |rest| == 0 || rest[0] != ':' then None
      else
        match ParseValue(rest[1..])
        case None => None
        case Some((v, rest2)) =>
          if |rest2| == 0 then None
          else if rest2[0] == '}' then Some(([Entry(k, v)], rest2[1..]))
          else if rest2[0] == ',' then
            match ParseEntries(rest2[1..])
            case None => None
            case Some((es, rest3)) => Some(([Entry(k, v)] + es, rest3))
          else None
  }

  /** Text that may follow a literal inside a list, a dict or at the end. */
  predicate Delimited(rest: string)
  {
    |rest| == 0 || rest[0] == ',' || rest[0] == ']' || rest[0] == '}' || rest[0] == ':'
  }

  lemma {:induction false} ParseStrBodyEscape(s: string, rest: string)
    ensures ParseStrBody(Escape(s) + "\"" + rest) == Some((s, rest))
    decreases |s|
  {
    if |s| == 0 {
      assert Escape(s) + "\"" + rest == "\"" + rest;
    } else {
      ParseStrBodyEscape(s[1..], rest);
      EscapeStep(s[0], s[1..], rest);
      assert [s[0]] + s[1..] == s;
    }
  }

  /** One more escaped character in front of readable string contents. */
  lemma EscapeStep(c: char, s: string, rest: string)
    requires ParseStrBody(Escape(s) + "\"" + rest) == Some((s, rest))
    ensures ParseStrBody(Escape([c] + s) + "\"" + rest) == Some(([c] + s, rest))
  {
    var e := EscapeChar(c);
    var tail := Escape(s) + "\"" + rest;
    assert ([c] + s)[1..] == s;
    assert Escape([c] + s) + "\"" + rest == e + tail;
    DecodeEscapeChar(c, tail);
    EscapeCharHead(c);
    StrBodyStep(e, tail, c, s, rest);
  }

  /** An escaped character is never empty and never starts with a quote. */
  lemma EscapeCharHead(c: char)
    ensures |EscapeChar(c)| > 0 && EscapeChar(c)[0] != '"'
  {
  }

  /** `ParseStrBody` after decoding one character from the text's head `e`. */
  lemma StrBodyStep(e: string, tail: string, c: char, s: string, rest: string)
    requires |e| > 0 && e[0] != '"' && DecodeOne(e + tail) == Some((c, |e|))
    requires ParseStrBody(tail) == Some((s, rest))
    ensures ParseStrBody(e + tail) == Some(([c] + s, rest))
  {
    assert (e + tail)[|e|..] == tail;
  }

  /** A literal's code is never empty and never starts with a closing bracket. */
  lemma CodeStart(v: Value)
    requires Encodable(v)
    ensures |ValueCode(v)| > 0 && ValueCode(v)[0] != ']' && ValueCode(v)[0] != '}'
  {
    match v
    case VInt(i) =>
      NatToStringDigits(if i < 0 then -i else i);
    case _ =>
  }

  /** Text that starts with none of `"`, `[`, `{` is read as an atom. */
  lemma ParseIsAtom(t: string)
    requires |t| > 0 && t[0] != '"' && t[0] != '[' && t[0] != '{'
    ensures ParseValue(t) == ParseAtom(t)
  {
  }

  /** Text that starts with a digit or a minus sign is not a word. */
  lemma NotWord(t: string)
    requires |t| > 0 && (IsDigit(t[0]) || t[0] == '-')
    ensures !StartsWith(t, "None") && !StartsWith(t, "True") && !StartsWith(t, "False")
  {
    assert |t| >= 4 ==> t[..4][0] == t[0];
    assert |t| >= 5 ==> t[..5][0] == t[0];
  }

  /** A run of digits followed by a delimiter is read as that number. */
  lemma NatCodeRead(d: string, rest: string)
    requires |d| >= 1 && AllDigits(d) && Delimited(rest)
    ensures ParseValue(d + rest) == Some((VInt(DigitsValue(d)), rest))
  {
    var t := d + rest;
    assert t[0] == d[0];
    ParseIsAtom(t);
    NotWord(t);
    ParseNatOf(d, rest);
  }

  /** A minus sign and a run of digits followed by a delimiter is read as the negated number. */
  lemma NegCodeRead(t: string, d: string, rest: string)
    requires |t| > 0 && t[0] == '-' && t[1..] == d + rest
    requires |d| >= 1 && AllDigits(d) && Delimited(rest)
    ensures ParseValue(t) == Some((VInt(-(DigitsValue(d) as int)), rest))
  {
    ParseIsAtom(t);
    NotWord(t);
    ParseNatOf(d, rest);
  }

  lemma IntCodeRead(i: int, rest: string)
    requires Delimited(rest)
    ensures ParseValue(IntToString(i) + rest) == Some((VInt(i), rest))
  {
    if i < 0 {
      NatToStringDigits(-i);
      var t := IntToString(i) + rest;
      assert t == "-" + (NatToString(-i) + rest);
      NegCodeRead(t, NatToString(-i), rest);
    } else {
      NatToStringDigits(i);
      NatCodeRead(NatToString(i), rest);
    }
  }

  /** Reading the code of a literal back gives the literal and leaves what follows. */
  lemma {:induction false} ParseValueCode(v: Value, rest: string)
    requires Encodable(v) && Delimited(rest)
    ensures ParseValue(ValueCode(v) + rest) == Some((v, rest))
    decreases v, 2
  {
    var t := ValueCode(v) + rest;
    match v
    case VNone =>
      WordRead(t, "None", rest);
    case VBool(b) =>
      WordRead(t, if b then "True" else "False", rest);
    case VInt(i) =>
      IntCodeRead(i, rest);
    case VStr(s) =>
      assert t == "\"" + (Escape(s) + "\"" + rest);
      StrCodeRead(t, s, rest);
    case VList(xs) =>
      ListCodeRead(xs, rest);
    case VDict(es) =>
      DictCodeRead(es, rest);
  }

  lemma {:induction false} ListCodeRead(xs: seq<Value>, rest: string)
    requires AllEncodable(xs)
    ensures ParseValue(ValueCode(VList(xs)) + rest) == Some((VList(xs), rest))
    decreases xs, 2
  {
    var t := ValueCode(VList(xs)) + rest;
    if |xs| == 0 {
      assert t == "[]" + rest;
    } else {
      assert t == "[" + (Join(",", Codes(xs)) + "]" + rest);
      ParseItemsCode(xs, rest);
      JoinStart(",", Codes(xs));
      CodeStart(xs[0]);
      ListOpen(t);
    }
  }

  lemma {:induction false} DictCodeRead(es: seq<Entry>, rest: string)
    requires EntriesEncodable(es)
    ensures ParseValue(ValueCode(VDict(es)) + rest) == Some((VDict(es), rest))
    decreases es, 2
  {
    var t := ValueCode(VDict(es)) + rest;
    if |es| == 0 {
      assert t == "{}" + rest;
    } else {
      assert t == "{" + (Join(",", EntryCodes(es)) + "}" + rest);
      ParseEntriesCode(es, rest);
      JoinStart(",", EntryCodes(es));
      CodeStart(es[0].key);
      assert EntryCodes(es)[0][0] == ValueCode(es[0].key)[0];
      DictOpen(t);
    }
  }

  /** `None`, `True` and `False` followed by anything are read as themselves. */
  lemma WordRead(t: string, w: string, rest: string)
    requires w in {"None", "True", "False"} && t == w + rest
    ensures ParseValue(t) == Some((if w == "None" then VNone else VBool(w == "True"), rest))
  {
    assert t[0] == w[0];
    ParseIsAtom(t);
    assert t[..|w|] == w && t[|w|..] == rest;
    if w != "None" {
      assert t[..4] != "None" by {
        assert t[..4][0] == w[0];
      }
    }
    if w == "False" {
      assert t[..4] != "True" by {
        assert t[..4][0] == w[0];
      }
    }
  }

  lemma StrCodeRead(t: string, s: string, rest: string)
    requires t == "\"" + (Escape(s) + "\"" + rest)
    ensures ParseValue(t) == Some((VStr(s), rest))
  {
    assert t[1..] == Escape(s) + "\"" + rest;
    ParseStrBodyEscape(s, rest);
  }

  /** `ParseValue` on text that opens a non-empty list. */
  lemma ListOpen(t: string)
    requires |t| >= 2 && t[0] == '[' && t[1] != ']'
    ensures ParseValue(t) == match ParseItems(t[1..])
                             case None => None
                             case Some((xs, rest)) => Some((VList(xs), rest))
  {
  }

  /** `ParseValue` on text that opens a non-empty dict. */
  lemma DictOpen(t: string)
    requires |t| >= 2 && t[0] == '{' && t[1] != '}'
    ensures ParseValue(t) == match ParseEntries(t[1..])
                             case None => None
                             case Some((es, rest)) => Some((VDict(es), rest))
  {
  }

  /** A join of parts starts with the first part. */
  lemma JoinStart(sep: string, parts: seq<string>)
    requires |parts| >= 1
    ensures |Join(sep, parts)| >= |parts[0]| && Join(sep, parts)[..|parts[0]|] == parts[0]
  {
    if |parts| > 1 {
      JoinFront(sep, parts[0], parts[1..]);
      assert [parts[0]] + parts[1..] == parts;
    }
  }

  lemma {:induction false} ParseItemsCode(xs: seq<Value>, rest: string)
    requires |xs| >= 1 && AllEncodable(xs)
    ensures ParseItems(Join(",", Codes(xs)) + "]" + rest) == Some((xs, rest))
    decreases xs, 1
  {
    if |xs| == 1 {
      LastItem(xs, rest);
    } else {
      ParseItemsCode(xs[1..], rest);
      FrontItem(xs, rest);
    }
  }

  /** A single item followed by `]` is read as a list of one. */
  lemma LastItem(xs: seq<Value>, rest: string)
    requires |xs| == 1 && Encodable(xs[0])
    ensures ParseItems(Join(",", Codes(xs)) + "]" + rest) == Some((xs, rest))
    decreases xs, 0
  {
    var t := Join(",", Codes(xs)) + "]" + rest;
    var after := "]" + rest;
    assert ParseValue(t) == Some((xs[0], after)) by {
      ItemsText(xs, rest);
      ParseValueCode(xs[0], after);
    }
    ItemsStep(t, xs[0], after);
    assert after[1..] == rest;
    assert [xs[0]] == xs;
  }

  /** The first item, a comma and the readable code of the others give all the items. */
  lemma FrontItem(xs: seq<Value>, rest: string)
    requires |xs| >= 2 && Encodable(xs[0])
    requires ParseItems(Join(",", Codes(xs[1..])) + "]" + rest) == Some((xs[1..], rest))
    ensures ParseItems(Join(",", Codes(xs)) + "]" + rest) == Some((xs, rest))
    decreases xs, 0
  {
    ItemsText(xs, rest);
    ItemsAfterHead(xs[0], Join(",", Codes(xs[1..])) + "]" + rest, xs[1..], rest);
    assert [xs[0]] + xs[1..] == xs;
  }

  /** An item's code, a comma and readable items after it. */
  lemma ItemsAfterHead(x: Value, others: string, xs: seq<Value>, rest: string)
    requires Encodable(x) && ParseItems(others) == Some((xs, rest))
    ensures ParseItems(ValueCode(x) + ("," + others)) == Some(([x] + xs, rest))
    decreases x, 3
  {
    ParseValueCode(x, "," + others);
    ItemsComma(ValueCode(x) + ("," + others), x, others, xs, rest);
  }

  /** An item, a comma and readable items after it. */
  lemma ItemsComma(t: string, x: Value, others: string, xs: seq<Value>, rest: string)
    requires ParseValue(t) == Some((x, "," + others))
    requires ParseItems(others) == Some((xs, rest))
    ensures ParseItems(t) == Some(([x] + xs, rest))
  {
    ItemsStep(t, x, "," + others);
    assert ("," + others)[1..] == others;
  }

  /** The code of a list's items: the first item's code, then what follows it. */
  lemma ItemsText(xs: seq<Value>, rest: string)
    requires |xs| >= 1
    ensures Join(",", Codes(xs)) + "]" + rest
         == ValueCode(xs[0]) + (if |xs| == 1 then "]" + rest else "," + (Join(",", Codes(xs[1..])) + "]" + rest))
  {
    var cs := Codes(xs);
    assert cs == [ValueCode(xs[0])] + Codes(xs[1..]);
    Assoc(Join(",", cs), "]", rest);
    if |xs| == 1 {
      assert Join(",", cs) == cs[0];
    } else {
      JoinTail(cs, "]" + rest);
      assert cs[1..] == Codes(xs[1..]);
      Assoc(Join(",", cs[1..]), "]", rest);
    }
  }

  /** `ParseItems` after reading one item. */
  lemma ItemsStep(t: string, x: Value, after: string)
    requires ParseValue(t) == Some((x, after))
    ensures ParseItems(t) ==
      if |after| == 0 then None
      else if after[0] == ']' then Some(([x], after[1..]))
      else if after[0] == ',' then
        match ParseItems(after[1..])
        case None => None
        case Some((xs, rest2)) => Some(([x] + xs, rest2))
      else None
  {
  }

  lemma {:induction false} ParseEntriesCode(es: seq<Entry>, rest: string)
    requires |es| >= 1 && EntriesEncodable(es)
    ensures ParseEntries(Join(",", EntryCodes(es)) + "}" + rest) == Some((es, rest))
    decreases es, 1
  {
    EntryHead(es, rest);
    if |es| == 1 {
      LastEntry(es, rest);
    } else {
      ParseEntriesCode(es[1..], rest);
      FrontEntry(es, rest);
    }
  }

  /** The first pair's key and value are read back from the code of the entries. */
  predicate HeadRead(es: seq<Entry>, rest: string)
    requires |es| >= 1
  {
    var after := EntriesAfter(es, rest);
    var mid := ":" + (ValueCode(es[0].val) + after);
    && ParseValue(Join(",", EntryCodes(es)) + "}" + rest) == Some((es[0].key, mid))
    && ParseValue(mid[1..]) == Some((es[0].val, after))
  }

  lemma EntryHead(es: seq<Entry>, rest: string)
    requires |es| >= 1 && EntryEncodable(es[0])
    ensures HeadRead(es, rest)
    decreases es, 0
  {
    var after := EntriesAfter(es, rest);
    var vc := ValueCode(es[0].val);
    var mid := ":" + (vc + after);
    EntriesText(es, rest);
    ParseEntryCode(es[0], after);
    assert mid[1..] == vc + after;
  }

  /** A single pair followed by `}` is read as a dict of one entry. */
  lemma LastEntry(es: seq<Entry>, rest: string)
    requires |es| == 1 && HeadRead(es, rest)
    ensures ParseEntries(Join(",", EntryCodes(es)) + "}" + rest) == Some((es, rest))
  {
    var after := EntriesAfter(es, rest);
    EntriesStep(Join(",", EntryCodes(es)) + "}" + rest, es[0].key, es[0].val,
                ":" + (ValueCode(es[0].val) + after), after);
    assert after[1..] == rest;
    assert [es[0]] == es;
  }

  /** The first pair, a comma and the readable code of the others give all the entries. */
  lemma FrontEntry(es: seq<Entry>, rest: string)
    requires |es| >= 2 && HeadRead(es, rest)
    requires ParseEntries(Join(",", EntryCodes(es[1..])) + "}" + rest) == Some((es[1..], rest))
    ensures ParseEntries(Join(",", EntryCodes(es)) + "}" + rest) == Some((es, rest))
  {
    var after := EntriesAfter(es, rest);
    EntriesStep(Join(",", EntryCodes(es)) + "}" + rest, es[0].key, es[0].val,
                ":" + (ValueCode(es[0].val) + after), after);
    assert after[1..] == Join(",", EntryCodes(es[1..])) + "}" + rest;
    assert [es[0]] + es[1..] == es;
  }

  /** What follows the first pair in the code of a dict's entries. */
  function EntriesAfter(es: seq<Entry>, rest: string): string
    requires |es| >= 1
  {
    if |es| == 1 then "}" + rest else "," + (Join(",", EntryCodes(es[1..])) + "}" + rest)
  }

  lemma EntriesText(es: seq<Entry>, rest: string)
    requires |es| >= 1
    ensures Join(",", EntryCodes(es)) + "}" + rest
         == ValueCode(es[0].key) + (":" + (ValueCode(es[0].val) + EntriesAfter(es, rest)))
  {
    EntriesJoin(es, rest);
    EntryText(es[0], EntriesAfter(es, rest));
  }

  lemma EntriesJoin(es: seq<Entry>, rest: string)
    requires |es| >= 1
    ensures Join(",", EntryCodes(es)) + "}" + rest == EntryCode(es[0]) + EntriesAfter(es, rest)
  {
    var cs := EntryCodes(es);
    Assoc(Join(",", cs), "}", rest);
    assert cs[0] == EntryCode(es[0]);
    if |es| == 1 {
      assert Join(",", cs) == cs[0];
    } else {
      JoinTail(cs, "}" + rest);
      assert cs[1..] == EntryCodes(es[1..]);
      Assoc(Join(",", cs[1..]), "}", rest);
    }
  }

  lemma Assoc(a: string, b: string, c: string)
    ensures a + b + c == a + (b + c)
  {
  }

  /** Parts joined by commas, then a tail: the first part, then the rest. */
  lemma JoinTail(cs: seq<string>, tail: string)
    requires |cs| >= 1
    ensures Join(",", cs) + tail == cs[0] + (if |cs| == 1 then tail else "," + (Join(",", cs[1..]) + tail))
  {
    if |cs| > 1 {
      JoinFront(",", cs[0], cs[1..]);
      assert [cs[0]] + cs[1..] == cs;
      Regroup(cs[0], ",", Join(",", cs[1..]), tail);
    }
  }

  lemma EntryText(e: Entry, after: string)
    ensures EntryCode(e) + after == ValueCode(e.key) + (":" + (ValueCode(e.val) + after))
  {
    Regroup(ValueCode(e.key), ":", ValueCode(e.val), after);
  }

  lemma Regroup(a: string, b: string, c: string, d: string)
    ensures a + b + c + d == a + (b + (c + d))
  {
  }

  /** `ParseEntries` after reading one key, the colon and its value. */
  lemma EntriesStep(t: string, k: Value, v: Value, mid: string, after: string)
    requires ParseValue(t) == Some((k, mid)) && |mid| > 0 && mid[0] == ':'
    requires ParseValue(mid[1..]) == Some((v, after))
    ensures ParseEntries(t) ==
      if |after| == 0 then None
      else if after[0] == '}' then Some(([Entry(k, v)], after[1..]))
      else if after[0] == ',' then
        match ParseEntries(after[1..])
        case None => None
        case Some((es, rest3)) => Some(([Entry(k, v)] + es, rest3))
      else None
  {
  }

  /** One `key:value` pair followed by a delimiter is read back. */
  lemma {:induction false} ParseEntryCode(e: Entry, after: string)
    requires EntryEncodable(e) && Delimited(after)
    ensures var t := ValueCode(e.key) + (":" + (ValueCode(e.val) + after));
      && ParseValue(t) == Some((e.key, ":" + (ValueCode(e.val) + after)))
      && ParseValue(ValueCode(e.val) + after) == Some((e.val, after))
  {
    ParseValueCode(e.key, ":" + (ValueCode(e.val) + after));
    ParseValueCode(e.val, after);
    assert (":" + (ValueCode(e.val) + after))[1..] == ValueCode(e.val) + after;
  }

  /** Reading back the whole code of a literal gives the literal. */
  lemma ValueCodeRoundTrip(v: Value)
    requires Encodable(v)
    ensures ParseValue(ValueCode(v)) == Some((v, ""))
  {
    ParseValueCode(v, "");
    assert ValueCode(v) + "" == ValueCode(v);
  }

  /** Different literals have different code. */
  lemma ValueCodeInjective(v: Value, w: Value)
    requires Encodable(v) && Encodable(w) && ValueCode(v) == ValueCode(w)
    ensures v == w
  {
    ValueCodeRoundTrip(v);
    ValueCodeRoundTrip(w);
  }

  // ---------------------------------------------------------------------------
  // Keyword arguments

  /** One keyword argument as `k=<code of v>`. */
  function ArgCode(kv: (string, Value)): string
  {
    kv.0 + "=" + ValueCode(kv.1)
  }

  /** The keyword arguments of a call, in insertion order, joined by `", "`. */
  function ArgsCode(kwargs: seq<(string, Value)>): string
  {
    Join(", ", seq(|kwargs|, k requires 0 <= k < |kwargs| => ArgCode(kwargs[k])))
  }

  /** Reads `k=v` pairs separated by `", "`; the empty text holds no arguments. */
  function ParseArgs(t: string): Option<seq<(string, Value)>>
  {
    if |t| == 0 then Some([]) else ParseArgsFrom(t)
  }

  function ParseArgsFrom(t: string): Option<seq<(string, Value)>>
    decreases |t|, 1
  {
    FirstPartSpec(t, '=');
    var key := FirstPart(t, '=');
    if |key| == |t| then None
    else
      match ParseValue(t[|key| + 1..])
      case None => None
      case Some((v, rest)) => ArgsAfter(key, v, rest)
  }

  /** The arguments once `key=v` has been read and `rest` follows it. */
  function ArgsAfter(key: string, v: Value, rest: string): Option<seq<(string, Value)>>
    decreases |rest|, 0
  {
    if |rest| == 0 then Some([(key, v)])
    else if |rest| >= 2 && rest[..2] == ", " then
      match ParseArgsFrom(rest[2..])
      case None => None
      case Some(more) => Some([(key, v)] + more)
    else None
  }

  /** The arguments that can be read back: keys without `=`, values without floats or tuples. */
  predicate ReadableArgs(kwargs: seq<(string, Value)>)
  {
    forall k :: 0 <= k < |kwargs| ==> '=' !in kwargs[k].0 && Encodable(kwargs[k].1)
  }

  /** Reading the argument code back gives the arguments, in order. */
  lemma ArgsCodeRoundTrip(kwargs: seq<(string, Value)>)
    requires ReadableArgs(kwargs)
    ensures ParseArgs(ArgsCode(kwargs)) == Some(kwargs)
  {
    if |kwargs| > 0 {
      ParseArgsCode(kwargs);
    }
  }

  lemma {:induction false} ParseArgsCode(kwargs: seq<(string, Value)>)
    requires |kwargs| >= 1 && ReadableArgs(kwargs)
    ensures ParseArgsFrom(ArgsCode(kwargs)) == Some(kwargs)
    decreases |kwargs|
  {
    if |kwargs| == 1 {
      LastArg(kwargs);
    } else {
      var more := kwargs[1..];
      ReadableTail(kwargs);
      ParseArgsCode(more);
      HeadArgStep(kwargs);
      ArgsAfterComma(kwargs[0].0, kwargs[0].1, more);
      assert [kwargs[0]] + more == kwargs;
    }
  }

  /** A single readable argument is read back. */
  lemma LastArg(kwargs: seq<(string, Value)>)
    requires |kwargs| == 1 && '=' !in kwargs[0].0 && Encodable(kwargs[0].1)
    ensures ParseArgsFrom(ArgsCode(kwargs)) == Some(kwargs)
  {
    var key, v := kwargs[0].0, kwargs[0].1;
    var t := ArgsCode(kwargs);
    var c := ArgCode(kwargs[0]);
    assert t == c by {
      assert seq(|kwargs|, k requires 0 <= k < |kwargs| => ArgCode(kwargs[k])) == [c];
    }
    assert t == key + ("=" + (ValueCode(v) + "")) by {
      assert c + "" == c;
      Regroup(key, "=", ValueCode(v), "");
    }
    ArgStep(t, key, v, "");
    ArgsStep(t, key, v, "");
    assert kwargs == [(key, v)];
  }

  /** The arguments after the first are readable when all of them are. */
  lemma ReadableTail(kwargs: seq<(string, Value)>)
    requires |kwargs| >= 1 && ReadableArgs(kwargs)
    ensures ReadableArgs(kwargs[1..])
  {
    var more := kwargs[1..];
    forall k | 0 <= k < |more| ensures '=' !in more[k].0 && Encodable(more[k].1) {
      assert more[k] == kwargs[k + 1];
    }
  }

  /** Of two or more arguments, the first is read and a comma with the others' code follows. */
  lemma HeadArgStep(kwargs: seq<(string, Value)>)
    requires |kwargs| >= 2 && ReadableArgs(kwargs)
    ensures ParseArgsFrom(ArgsCode(kwargs)) == ArgsAfter(kwargs[0].0, kwargs[0].1, ", " + ArgsCode(kwargs[1..]))
  {
    var key, v := kwargs[0].0, kwargs[0].1;
    var t := ArgsCode(kwargs);
    var after := ", " + ArgsCode(kwargs[1..]);
    ArgsText(kwargs);
    ArgStep(t, key, v, after);
    ArgsStep(t, key, v, after);
  }

  /** After a first argument, a comma and readable code of the others give all of them. */
  lemma ArgsAfterComma(key: string, v: Value, more: seq<(string, Value)>)
    requires ParseArgsFrom(ArgsCode(more)) == Some(more)
    ensures ArgsAfter(key, v, ", " + ArgsCode(more)) == Some([(key, v)] + more)
  {
    var after := ", " + ArgsCode(more);
    assert after[..2] == ", ";
    assert after[2..] == ArgsCode(more);
  }

  /** The code of two or more arguments: the first `k=v`, a comma and a space, then the others. */
  lemma ArgsText(kwargs: seq<(string, Value)>)
    requires |kwargs| >= 2
    ensures ArgsCode(kwargs) == kwargs[0].0 + ("=" + (ValueCode(kwargs[0].1) + (", " + ArgsCode(kwargs[1..]))))
  {
    var more := kwargs[1..];
    var codes := seq(|kwargs|, k requires 0 <= k < |kwargs| => ArgCode(kwargs[k]));
    var rest := seq(|more|, k requires 0 <= k < |more| => ArgCode(more[k]));
    var first, tail := ArgCode(kwargs[0]), ArgsCode(more);
    assert codes == [first] + rest;
    assert tail == Join(", ", rest);
    JoinFront(", ", first, rest);
    assert ArgsCode(kwargs) == first + ", " + tail;
    Regroup(kwargs[0].0, "=", ValueCode(kwargs[0].1), ", " + tail);
  }

  /** `ParseArgsFrom` after reading one key and its value. */
  lemma ArgsStep(t: string, key: string, v: Value, after: string)
    requires FirstPart(t, '=') == key && |key| < |t|
    requires ParseValue(t[|key| + 1..]) == Some((v, after))
    ensures ParseArgsFrom(t) == ArgsAfter(key, v, after)
  {
  }

  /** The text of one argument followed by what comes after it: its key and its value are read. */
  lemma ArgStep(t: string, key: string, v: Value, after: string)
    requires t == key + ("=" + (ValueCode(v) + after))
    requires '=' !in key && Encodable(v) && (after == "" || after[0] == ',')
    ensures FirstPart(t, '=') == key
    ensures t[|key| + 1..] == ValueCode(v) + after
    ensures ParseValue(t[|key| + 1..]) == Some((v, after))
  {
    assert t == key + ['='] + (ValueCode(v) + after);
    FirstPartPrefix(key, ValueCode(v) + after, '=');
    FirstPartWhole(key, '=');
    ParseValueCode(v, after);
  }

  // ---------------------------------------------------------------------------
  // Call snippets

  /** The last line of every call snippet: `curr` is kept when the call returned `None`. */
  const KeepCurr := "curr = curr if __res is None else __res\n"

  /**
   * The seven lines of a call: try `name` as a bound method of `curr`, else
   * import the module and call its function `name` on `curr`.
   */
  function CallText(nameLit: string, moduleLit: string, name: string, args: string): string
  {
    var first := "__m = getattr(curr, " + nameLit;
    var middle :=
      ", None)\n"
      + "if callable(__m):\n"
      + "    __res = __m(" + args + ")\n"
      + "else:\n"
      + "    __f = __import__(" + moduleLit + ", fromlist=['*'])." + name + "\n"
      + "    __res = __f(curr, " + args + ")\n";
    first + middle + KeepCurr
  }

  /** Every call opens with the getattr of its name literal and ends by keeping `curr`. */
  lemma CallTextEnds(nameLit: string, moduleLit: string, name: string, args: string)
    ensures StartsWith(CallText(nameLit, moduleLit, name, args), "__m = getattr(curr, " + nameLit)
    ensures EndsWith(CallText(nameLit, moduleLit, name, args), KeepCurr)
  {
    var t := CallText(nameLit, moduleLit, name, args);
    var first := "__m = getattr(curr, " + nameLit;
    var rest := t[|first|..];
    Ends(t[..|t| - |KeepCurr|], KeepCurr);
    assert t == t[..|t| - |KeepCurr|] + KeepCurr;
    assert t == first + rest;
    Ends(first, rest);
  }

  /** `_call_snippet`: the name and the module path are given as JSON strings. */
  function CallSnippet(qual: string, kwargs: seq<(string, Value)>): string
  {
    var name := LastPart(qual, '.');
    CallText(Quote(name), Quote(BeforeLast(qual, '.')), name, ArgsCode(kwargs))
  }

  /**
   * The method name is the text after the last `.` and the module path the
   * text before it; a name without `.` is both.
   */
  lemma QualCut(qual: string)
    ensures '.' !in LastPart(qual, '.')
    ensures '.' in qual ==> BeforeLast(qual, '.') + "." + LastPart(qual, '.') == qual
    ensures '.' !in qual ==> LastPart(qual, '.') == qual && BeforeLast(qual, '.') == qual
  {
    LastCut(qual, '.');
  }

  /**
   * A call snippet is the call of the text after the last `.` of the
   * qualified name, in the module named by the text before it, opening with
   * the getattr of that name and ending by keeping `curr`.
   */
  lemma CallSnippetSpec(qual: string, kwargs: seq<(string, Value)>)
    ensures var name := LastPart(qual, '.');
      var snippet := CallSnippet(qual, kwargs);
      && '.' !in name
      && ('.' in qual ==> BeforeLast(qual, '.') + "." + name == qual)
      && ('.' !in qual ==> name == qual && BeforeLast(qual, '.') == qual)
      && StartsWith(snippet, "__m = getattr(curr, " + Quote(name))
      && EndsWith(snippet, KeepCurr)
  {
    QualCut(qual);
    var name := LastPart(qual, '.');
    CallTextEnds(Quote(name), Quote(BeforeLast(qual, '.')), name, ArgsCode(kwargs));
  }

  // ---------------------------------------------------------------------------
  // The output serializer

  /** The code that writes `curr` through one attribute. */
  function WriteVia(attr: string): string
  {
    if attr == "to_csv" then "sys.stdout.write(curr.to_csv(index=False))"
    else if attr == "to_json" then "sys.stdout.write(curr.to_json())"
    else if attr == "numpy" then "import json as _j; sys.stdout.write(_j.dumps(curr.numpy().tolist()))"
    else "import json as _j; sys.stdout.write(_j.dumps(curr." + attr + "()))"
  }

  /** The attributes tried, in order, for a serializer hint. */
  function Tried(hint: string): (attrs: seq<string>)
    ensures |attrs| >= 2
  {
    if hint == "csv" then ["to_csv", "to_json"]
    else if hint == "json" then ["to_json", "to_dict"]
    else ["to_csv", "to_json", "to_dict", "tolist", "numpy"]
  }

  /** The first attribute opens an `if`, the others an `elif`. */
  function Branches(attrs: seq<string>): (lines: seq<string>)
    ensures |lines| == |attrs|
  {
    seq(|attrs|, k requires 0 <= k < |attrs| =>
      (if k == 0 then "if" else "elif") + " hasattr(curr, '" + attrs[k] + "'): " + WriteVia(attrs[k]))
  }

  const StrFallback := "else: sys.stdout.write(str(curr))"

  /** The lines of the cascade: one branch per attribute tried, then `str(curr)`. */
  function Cascade(hint: string): seq<string>
  {
    Branches(Tried(hint)) + [StrFallback]
  }

  /** `_serialize_snippet`: `import sys`, the cascade, one line each. */
  function SerializeSnippet(hint: string): string
  {
    Join("\n", ["import sys"] + Cascade(hint)) + "\n"
  }

  /**
   * Every serializer starts with `import sys` and ends with the `str(curr)`
   * fallback and a newline.
   */
  lemma SerializeSnippetEnds(hint: string)
    ensures StartsWith(SerializeSnippet(hint), "import sys\n")
    ensures EndsWith(SerializeSnippet(hint), "\n" + StrFallback + "\n")
  {
    CascadeFramed(Branches(Tried(hint)));
  }

  lemma CascadeFramed(branches: seq<string>)
    requires |branches| >= 1
    ensures var t := Join("\n", ["import sys"] + (branches + [StrFallback])) + "\n";
      StartsWith(t, "import sys\n") && EndsWith(t, "\n" + StrFallback + "\n")
  {
    assert ["import sys"] + (branches + [StrFallback]) == ["import sys"] + branches + [StrFallback];
    JoinFramed("import sys", branches, StrFallback);
  }

  /** Lines joined by newlines, with a final newline, between a first and a last line. */
  lemma JoinFramed(first: string, middle: seq<string>, last: string)
    requires |middle| >= 1
    ensures var t := Join("\n", [first] + middle + [last]) + "\n";
      StartsWith(t, first + "\n") && EndsWith(t, "\n" + last + "\n")
  {
    JoinAppend("\n", [first] + middle, last);
    JoinFront("\n", first, middle);
    NewlineFrame(Join("\n", [first] + middle), Join("\n", middle), last, first);
  }

  lemma NewlineFrame(j: string, m: string, last: string, first: string)
    requires j == first + "\n" + m
    ensures var t := j + "\n" + last + "\n";
      StartsWith(t, first + "\n") && EndsWith(t, "\n" + last + "\n")
  {
    var t := j + "\n" + last + "\n";
    assert t == j + ("\n" + last + "\n");
    Ends(j, "\n" + last + "\n");
    Ends(first + "\n", m);
    StartsWithAppend(j, first + "\n", "\n" + last + "\n");
  }

  /**
   * "csv" tries `to_csv` then `to_json`, "json" tries `to_json` then
   * `to_dict`, and every other hint the full five-step order, of which the
   * "csv" cascade is the first two steps; the cascade adds the `str(curr)`
   * fallback.
   */
  lemma CascadeOrder(hint: string)
    ensures |Cascade(hint)| == |Tried(hint)| + 1 && Cascade(hint)[|Tried(hint)|] == StrFallback
    ensures hint == "csv" ==> Tried(hint) == ["to_csv", "to_json"]
    ensures hint == "json" ==> Tried(hint) == ["to_json", "to_dict"]
    ensures hint != "csv" && hint != "json" ==> Tried(hint) == Tried("")
    ensures Tried("csv") == Tried("")[..2]
  {
  }

  // ---------------------------------------------------------------------------
  // Fixtures and the program

  /**
   * One entry of the fixture map: its import lines (`[]` when missing), its
   * setup code and its serializer hint (`None` when missing or null).
   */
  datatype Fixture = Fixture(imports: seq<string>, setup: Option<string>, serializer: Option<string>)

  /**
   * `_initial_setup`: the imports one per line, the setup code, and the
   * lower-cased serializer hint, for the fixture of a type label.
   */
  function InitialSetup(typeLabel: string, fixtures: map<string, Fixture>): (string, string, string)
  {
    var info := if typeLabel in fixtures then fixtures[typeLabel] else Fixture([], None, None);
    (Join("\n", info.imports) + (if |info.imports| > 0 then "\n" else ""),
     if info.setup.Some? then info.setup.value else "",
     LowerAscii(if info.serializer.Some? then info.serializer.value else ""))
  }

  /**
   * A type label without a fixture gets no imports, no setup and the empty hint;
   * otherwise every import line ends with a newline, and the hint holds no
   * upper-case letter.
   */
  lemma InitialSetupSpec(typeLabel: string, fixtures: map<string, Fixture>)
    ensures typeLabel !in fixtures ==> InitialSetup(typeLabel, fixtures) == ("", "", "")
    ensures typeLabel in fixtures ==> InitialSetup(typeLabel, fixtures).0 == Terminated("\n", fixtures[typeLabel].imports)
    ensures var hint := InitialSetup(typeLabel, fixtures).2;
      forall k :: 0 <= k < |hint| ==> !('A' <= hint[k] <= 'Z')
  {
    if typeLabel in fixtures {
      JoinTerminated("\n", fixtures[typeLabel].imports);
    } else {
      var r := InitialSetup(typeLabel, fixtures);
      assert r.0 == Join("\n", []) + "";
      assert Join("\n", []) == "";
      assert r.1 == "";
      assert LowerAscii("") == "";
      assert r.2 == "";
    }
  }

  /** The hint is compared after lower-casing: a "CSV" fixture gets the "csv" cascade. */
  lemma UpperHintLowered(typeLabel: string, fixtures: map<string, Fixture>)
    requires typeLabel in fixtures && fixtures[typeLabel].serializer == Some("CSV")
    ensures InitialSetup(typeLabel, fixtures).2 == "csv"
  {
  }

  /** The setup used when the fixture gives none. */
  function Placeholder(language: string, library: string): string
  {
    "curr = None  # TODO: provide a fixture in data/fixtures/" + language + "/" + library + "/fixtures.json\n"
  }

  const NoAcceptsMessage := "First card lacks pre.accepts; cannot choose an initial fixture."

  /** The calls of a plan, one snippet per step, in plan order, each with its own arguments. */
  function Body(cards: seq<Card>, plan: seq<int>, kwargList: seq<seq<(string, Value)>>,
                snippet: (string, seq<(string, Value)>) -> string): string
    requires PlanInRange(cards, plan) && |kwargList| >= |plan|
  {
    Concat(seq(|plan|, k requires 0 <= k < |plan| => snippet(cards[plan[k]].qualname, kwargList[k])))
  }

  /** A longer plan adds its last step's snippet after the earlier ones. */
  lemma BodyExtends(cards: seq<Card>, plan: seq<int>, kwargList: seq<seq<(string, Value)>>,
                    snippet: (string, seq<(string, Value)>) -> string)
    requires PlanInRange(cards, plan) && |plan| >= 1 && |kwargList| >= |plan|
    ensures PlanInRange(cards, plan[..|plan| - 1])
    ensures var n := |plan| - 1;
      Body(cards, plan, kwargList, snippet)
      == Body(cards, plan[..n], kwargList, snippet) + snippet(cards[plan[n]].qualname, kwargList[n])
  {
    var n := |plan| - 1;
    var parts := seq(|plan|, k requires 0 <= k < |plan| => snippet(cards[plan[k]].qualname, kwargList[k]));
    var init := plan[..n];
    assert parts[..n] == seq(|init|, k requires 0 <= k < |init| => snippet(cards[init[k]].qualname, kwargList[k]));
  }

  /**
   * `realize_program` with the fixture map as an input: `Err` when the first
   * step's card has no accepts label, otherwise imports, setup (or the
   * placeholder), one call per step and the serializer.
   */
  function RealizeProgram(language: string, library: string, cards: seq<Card>, plan: seq<int>,
                          kwargList: seq<seq<(string, Value)>>, fixtures: map<string, Fixture>): Result<string>
    requires |plan| >= 1 && PlanInRange(cards, plan) && |kwargList| >= |plan|
  {
    var typeLabel := Label(Get(cards[plan[0]].pre, "accepts"));
    if typeLabel == "" then Err(NoAcceptsMessage)
    else
      var (imports, setup, hint) := InitialSetup(typeLabel, fixtures);
      var setup' := if setup == "" then Placeholder(language, library) else setup;
      Ok(imports + setup' + Body(cards, plan, kwargList, CallSnippet) + SerializeSnippet(hint))
  }

  /** The program fails exactly when the first card's accepts is missing or falsy. */
  lemma RealizeFailsIff(language: string, library: string, cards: seq<Card>, plan: seq<int>,
                        kwargList: seq<seq<(string, Value)>>, fixtures: map<string, Fixture>)
    requires |plan| >= 1 && PlanInRange(cards, plan) && |kwargList| >= |plan|
    ensures var r := RealizeProgram(language, library, cards, plan, kwargList, fixtures);
      && (r.Err? <==> !Truthy(Get(cards[plan[0]].pre, "accepts")))
      && (r.Err? ==> r.msg == NoAcceptsMessage)
  {
    LabelEmpty(Get(cards[plan[0]].pre, "accepts"));
  }

  /** A realized program ends with the serializer chosen by its fixture's hint. */
  lemma RealizeEndsWithSerializer(language: string, library: string, cards: seq<Card>, plan: seq<int>,
                                  kwargList: seq<seq<(string, Value)>>, fixtures: map<string, Fixture>)
    requires |plan| >= 1 && PlanInRange(cards, plan) && |kwargList| >= |plan|
    requires Truthy(Get(cards[plan[0]].pre, "accepts"))
    ensures var r := RealizeProgram(language, library, cards, plan, kwargList, fixtures);
      && r.Ok?
      && EndsWith(r.value, SerializeSnippet(InitialSetup(Str(Get(cards[plan[0]].pre, "accepts")), fixtures).2))
  {
    var accepts := Get(cards[plan[0]].pre, "accepts");
    LabelEmpty(accepts);
    var s := InitialSetup(Label(accepts), fixtures);
    var setup' := if s.1 == "" then Placeholder(language, library) else s.1;
    var ser := SerializeSnippet(s.2);
    var front := s.0 + setup' + Body(cards, plan, kwargList, CallSnippet);
    assert RealizeProgram(language, library, cards, plan, kwargList, fixtures) == Ok(front + ser);
    Ends(front, ser);
  }

  /**
   * A label without a fixture gives no imports, the placeholder setup, one
   * call per step and the general serializer.
   */
  lemma RealizeWithoutFixture(language: string, library: string, cards: seq<Card>, plan: seq<int>,
                              kwargList: seq<seq<(string, Value)>>, fixtures: map<string, Fixture>)
    requires |plan| >= 1 && PlanInRange(cards, plan) && |kwargList| >= |plan|
    requires Truthy(Get(cards[plan[0]].pre, "accepts"))
    requires Str(Get(cards[plan[0]].pre, "accepts")) !in fixtures
    ensures RealizeProgram(language, library, cards, plan, kwargList, fixtures)
         == Ok(Placeholder(language, library) + Body(cards, plan, kwargList, CallSnippet) + SerializeSnippet(""))
  {
    var accepts := Get(cards[plan[0]].pre, "accepts");
    LabelEmpty(accepts);
    InitialSetupSpec(Label(accepts), fixtures);
    assert "" + Placeholder(language, library) == Placeholder(language, library);
  }
}
