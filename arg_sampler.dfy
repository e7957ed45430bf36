/**
 * Keyword-argument sampling for one plan step: which declared parameters get
 * a value (required ones always, optional ones with a default one time in
 * five, other optional ones three times in ten), how a default's text is
 * coerced, and which value a domain tag yields. The random draws are inputs.
 */
module ArgSampler {
  import opened Strs
  import opened PyValues

  /**
   * A declared parameter `(name, domain, required, default)` as the four
   * values an `args` entry unpacks to; `required` is kept as its truth value
   * and a `None` default is `VNone`.
   */
  datatype Param = Param(name: Value, domain: Value, required: bool, default: Value)

  /**
   * The random draws spent on one parameter: `coin` is `random.random()`,
   * `pick` chooses among the alternatives of `random.choice`/`random.randint`,
   * and `uniform` is the text of the rounded float the float domain draws.
   */
  datatype ParamDraw = ParamDraw(coin: real, pick: nat, uniform: string)

  /** The sampler's environment: the `columns` hint, empty when absent. */
  datatype Env = Env(columns: seq<Value>)

  // ---------------------------------------------------------------------------
  // Reading the parameter list of a card

  /**
   * What a `for` loop visits in a value: the items of a list or tuple, the
   * keys of a dict, the one-character strings of a string. `None` for a value
   * that is not iterable.
   */
  function Elements(v: Value): (r: Option<seq<Value>>)
    ensures (v.VList? || v.VTuple?) ==> r == Some(v.items)
    ensures v.VStr? ==> r.Some? && |r.value| == |v.s| && forall k :: 0 <= k < |v.s| ==> r.value[k] == VStr([v.s[k]])
    ensures v.VDict? ==> r.Some? && |r.value| == |v.entries| && forall k :: 0 <= k < |v.entries| ==> r.value[k] == v.entries[k].key
    ensures r.None? <==> !(v.VList? || v.VTuple? || v.VStr? || v.VDict?)
  {
    match v
    case VList(items) => Some(items)
    case VTuple(items) => Some(items)
    case VStr(s) => Some(seq(|s|, k requires 0 <= k < |s| => VStr([s[k]])))
    case VDict(es) => Some(seq(|es|, k requires 0 <= k < |es| => es[k].key))
    case _ => None
  }

  /**
   * `for name, dom, required, default in args or []`: a falsy value is the
   * empty list, and each element must unpack to exactly four values. `None`
   * stands for the `TypeError` or `ValueError` Python raises.
   */
  function ParamsOf(v: Value): (r: Option<seq<Param>>)
    ensures !Truthy(v) ==> r == Some([])
    ensures Truthy(v) && r.Some? ==> Elements(v).Some? && |r.value| == |Elements(v).value|
  {
    if !Truthy(v) then Some([])
    else match Elements(v)
      case None => None
      case Some(xs) => ParamList(xs)
  }

  function ParamList(items: seq<Value>): (r: Option<seq<Param>>)
    ensures r.Some? ==> |r.value| == |items|
    decreases |items|
  {
    if |items| == 0 then Some([])
    else
      match (ParamOf(items[0]), ParamList(items[1..]))
      case (Some(p), Some(ps)) => Some([p] + ps)
      case _ => None
  }

  /** One entry unpacked into `name, dom, required, default`, or `None` when it does not give four values. */
  function ParamOf(v: Value): Option<Param>
  {
    match Elements(v)
    case Some(four) =>
      if |four| == 4 then Some(Param(four[0], four[1], Truthy(four[2]), four[3])) else None
    case None => None
  }

  /**
   * The parameter list unpacks exactly when every element of `args` gives
   * four values, and then parameter `i` is element `i`'s four values; a
   * falsy `args` is no parameters.
   */
  lemma ParamsOfSpec(v: Value)
    requires Truthy(v)
    ensures ParamsOf(v).Some? <==>
      Elements(v).Some? && forall i :: 0 <= i < |Elements(v).value| ==> ParamOf(Elements(v).value[i]).Some?
    ensures ParamsOf(v).Some? ==>
      forall i :: 0 <= i < |ParamsOf(v).value| ==>
        var four := Elements(Elements(v).value[i]).value;
        |four| == 4 && ParamsOf(v).value[i] == Param(four[0], four[1], Truthy(four[2]), four[3])
  {
    if Elements(v).Some? {
      ParamListSpec(Elements(v).value);
    }
  }

  /** A list of entries unpacks iff each entry does, entry by entry. */
  lemma {:induction false} ParamListSpec(items: seq<Value>)
    ensures ParamList(items).Some? <==> forall i :: 0 <= i < |items| ==> ParamOf(items[i]).Some?
    ensures ParamList(items).Some? ==> forall i :: 0 <= i < |items| ==> ParamList(items).value[i] == ParamOf(items[i]).value
    decreases |items|
  {
    if |items| > 0 {
      ParamListSpec(items[1..]);
      assert forall i :: 1 <= i < |items| ==> items[i] == items[1..][i - 1];
    }
  }

  /**
   * Entries Python unpacks although they are not `(str, str, bool, str)`
   * tuples: an integer name, a list domain, a four-character string and a
   * four-key dict; and a non-empty string `args` never unpacks.
   */
  lemma UnusualEntries(c: char)
    ensures ParamOf(VTuple([VInt(1), VStr("int"), VBool(true), VNone])) == Some(Param(VInt(1), VStr("int"), true, VNone))
    ensures ParamOf(VList([VStr("n"), VList([VStr("bool")]), VBool(true), VNone]))
         == Some(Param(VStr("n"), VList([VStr("bool")]), true, VNone))
    ensures ParamOf(VStr("abcd")) == Some(Param(VStr("a"), VStr("b"), true, VStr("d")))
    ensures ParamOf(VDict([Entry(VStr("w"), VNone), Entry(VStr("x"), VNone), Entry(VInt(0), VNone), Entry(VNone, VNone)]))
         == Some(Param(VStr("w"), VStr("x"), false, VNone))
    ensures ParamsOf(VStr([c])) == None
  {
    assert Elements(VStr("abcd")).value == [VStr("a"), VStr("b"), VStr("c"), VStr("d")];
    assert Elements(VStr([c])).value == [VStr([c])];
  }

  // ---------------------------------------------------------------------------
  // `int(s)` on text

  predicate DigitOrUnderscore(c: char)
  {
    IsDigit(c) || c == '_'
  }

  /** Digits with single underscores between them, as `int()` accepts. */
  predicate UnderscoredDigits(b: string)
  {
    && |b| > 0 && IsDigit(b[0]) && IsDigit(b[|b| - 1])
    && (forall k :: 0 <= k < |b| ==> DigitOrUnderscore(b[k]))
    && (forall k :: 0 <= k < |b| - 1 ==> !(b[k] == '_' && b[k + 1] == '_'))
  }

  function DropUnderscores(b: string): (r: string)
    ensures (forall k :: 0 <= k < |b| ==> DigitOrUnderscore(b[k])) ==> AllDigits(r)
    ensures AllDigits(b) ==> r == b
    decreases |b|
  {
    if |b| == 0 then ""
    else if b[0] == '_' then DropUnderscores(b[1..])
    else [b[0]] + DropUnderscores(b[1..])
  }

  /** `int(s)` in base 10: surrounding whitespace, an optional sign, underscored digits. */
  function ParseInt(s: string): (r: Option<int>)
  {
    ParseSigned(Strip(s))
  }

  /** `int` of a stripped text: an optional sign, then underscored digits. */
  function ParseSigned(t: string): (r: Option<int>)
  {
    var (neg, body) := SignSplit(t);
    match ParseUnsigned(body)
    case Some(n) => Some(if neg then -(n as int) else n)
    case None => None
  }

  /** Whether a text starts with `-`, and the text after a leading sign. */
  function SignSplit(t: string): (bool, string)
  {
    (|t| > 0 && t[0] == '-', if |t| > 0 && (t[0] == '-' || t[0] == '+') then t[1..] else t)
  }

  /** The value of underscored digits, or `None` for any other text. */
  function ParseUnsigned(body: string): (r: Option<nat>)
  {
    if UnderscoredDigits(body) then Some(DigitsValue(DropUnderscores(body))) else None
  }

  /** A text that neither starts nor ends with whitespace is its own strip. */
  lemma StripNoSpace(s: string)
    requires |s| > 0 && !IsSpace(s[0]) && !IsSpace(s[|s| - 1])
    ensures Strip(s) == s
  {
    var l := LStrip(s);
    assert l == s;
  }

  /** Plain digits are a valid body with nothing to drop. */
  lemma PlainDigits(d: string)
    requires |d| > 0 && AllDigits(d)
    ensures UnderscoredDigits(d) && DropUnderscores(d) == d
  {
    assert forall k :: 0 <= k < |d| ==> DigitOrUnderscore(d[k]);
    assert forall k :: 0 <= k < |d| - 1 ==> d[k] != '_';
  }

  /** The decimal text of an integer: a digit string, after a `-` when negative. */
  lemma IntTextShape(i: int)
    ensures var d := NatToString(if i < 0 then -i else i);
      && |d| > 0 && AllDigits(d) && DigitsValue(d) == (if i < 0 then -i else i)
      && IntToString(i) == (if i < 0 then "-" + d else d)
      && !IsSpace(IntToString(i)[0]) && IsDigit(IntToString(i)[|IntToString(i)| - 1])
  {
    var n := if i < 0 then -i else i;
    NatToStringDigits(n);
    var d := NatToString(n);
    var s := IntToString(i);
    assert IsDigit(d[0]) && IsDigit(d[|d| - 1]);
    assert s[|s| - 1] == d[|d| - 1];
  }

  /** Plain digits read as their value. */
  lemma ParseUnsignedDigits(d: string)
    requires |d| > 0 && AllDigits(d)
    ensures ParseUnsigned(d) == Some(DigitsValue(d))
  {
    PlainDigits(d);
  }

  /** A digit string, after an optional `-`, reads as its value. */
  lemma ParseSignedDigits(s: string, neg: bool, d: string)
    requires |d| > 0 && AllDigits(d) && s == (if neg then "-" + d else d)
    ensures ParseSigned(s) == Some(if neg then -(DigitsValue(d) as int) else DigitsValue(d))
  {
    SignSplitDigits(s, neg, d);
    ParseUnsignedDigits(SignSplit(s).1);
  }

  lemma SignSplitDigits(s: string, neg: bool, d: string)
    requires |d| > 0 && IsDigit(d[0]) && s == (if neg then "-" + d else d)
    ensures SignSplit(s) == (neg, d)
  {
    if neg {
      assert s[0] == '-' && s[1..] == d;
    } else {
      assert s[0] != '-' && s[0] != '+';
    }
  }

  /** `int` reads back the decimal text of every integer. */
  lemma ParseIntString(i: int)
    ensures ParseInt(IntToString(i)) == Some(i)
  {
    IntTextShape(i);
    var s := IntToString(i);
    StripNoSpace(s);
    ParseSignedDigits(s, i < 0, NatToString(if i < 0 then -i else i));
  }

  // ---------------------------------------------------------------------------
  // `coerce`

  /** A default's text read as `int`, `bool` or string, as far as this model goes. */
  function CoerceText(s: string): (r: Value)
  {
    var low := LowerAscii(s);
    if low == "true" || low == "false" then VBool(low == "true")
    else match ParseInt(s)
      case Some(i) => VInt(i)
      case None => VStr(s)
  }

  /** `coerce(v)`: numbers and booleans as they are, anything else through its text. */
  function Coerce(v: Value): (r: Value)
    ensures r.VBool? || r.VInt? || r.VFloat? || r.VStr?
  {
    if v.VInt? || v.VFloat? || v.VBool? then v else CoerceText(Str(v))
  }

  /** `"True"`, `"FALSE"` and the like become booleans. */
  lemma CoerceBoolText(s: string)
    requires LowerAscii(s) == "true" || LowerAscii(s) == "false"
    ensures Coerce(VStr(s)) == VBool(LowerAscii(s) == "true")
  {
  }

  /** A text ending in a digit is neither `"true"` nor `"false"` in any case. */
  lemma NotBoolText(s: string)
    requires |s| > 0 && IsDigit(s[|s| - 1])
    ensures LowerAscii(s) != "true" && LowerAscii(s) != "false"
  {
    var l := LowerAscii(s);
    assert l[|l| - 1] == s[|s| - 1];
    assert "true"[3] == 'e' && "false"[4] == 'e';
  }

  /** The text of an integer becomes that integer. */
  lemma CoerceIntText(i: int)
    ensures Coerce(VStr(IntToString(i))) == VInt(i)
  {
    ParseIntString(i);
    IntTextShape(i);
    NotBoolText(IntToString(i));
  }

  /** Coercing twice is coercing once. */
  lemma CoerceIdempotent(v: Value)
    ensures Coerce(Coerce(v)) == Coerce(v)
  {
    if !(v.VInt? || v.VFloat? || v.VBool?) {
      var r := CoerceText(Str(v));
      if r.VStr? {
        assert r.s == Str(v) && Str(r) == r.s;
      }
    }
  }

  // ---------------------------------------------------------------------------
  // `sample_value`

  /** `(env.get("columns") or ["A"])[0]` */
  function Col(env: Env): Value
  {
    if |env.columns| == 0 then VStr("A") else env.columns[0]
  }

  /** The stripped, non-blank items of a `|`-separated list, in order. */
  function NonBlank(parts: seq<string>): (r: seq<string>)
    ensures forall k :: 0 <= k < |r| ==> r[k] != ""
    decreases |parts|
  {
    if |parts| == 0 then []
    else if Strip(parts[0]) == "" then NonBlank(parts[1..])
    else [Strip(parts[0])] + NonBlank(parts[1..])
  }

  /** The items between the first `[` and the first `]` of an enum domain. */
  function EnumParts(d: string): seq<string>
  {
    Split(Slice(d, Find(d, "[") + 1, Find(d, "]")), '|')
  }

  /** The first non-blank item of an enum domain, or `"enumval"`. */
  function EnumPick(d: string): string
  {
    var items := NonBlank(EnumParts(d));
    if |items| > 0 then items[0] else "enumval"
  }

  /** The first `k` items are all blank. */
  predicate BlankBelow(parts: seq<string>, k: int)
    requires k <= |parts|
  {
    forall j :: 0 <= j < k ==> Strip(parts[j]) == ""
  }

  /** The pick is `"enumval"` exactly when every item is blank. */
  lemma {:induction false} NonBlankEmpty(parts: seq<string>)
    ensures |NonBlank(parts)| == 0 <==> BlankBelow(parts, |parts|)
    decreases |parts|
  {
    if |parts| > 0 {
      NonBlankEmpty(parts[1..]);
      BlankShift(parts, |parts| - 1);
    }
  }

  /** The pick, when there is one, is the first item that is not blank, stripped. */
  lemma {:induction false} NonBlankFirst(parts: seq<string>)
    ensures |NonBlank(parts)| > 0 ==>
      exists k :: 0 <= k < |parts| && NonBlank(parts)[0] == Strip(parts[k]) != "" && BlankBelow(parts, k)
    decreases |parts|
  {
    if |parts| > 0 {
      var tail := parts[1..];
      if Strip(parts[0]) != "" {
        assert NonBlank(parts)[0] == Strip(parts[0]) && BlankBelow(parts, 0);
      } else if |NonBlank(parts)| > 0 {
        NonBlankFirst(tail);
        var k :| 0 <= k < |tail| && NonBlank(tail)[0] == Strip(tail[k]) != "" && BlankBelow(tail, k);
        BlankShift(parts, k);
        assert parts[k + 1] == tail[k];
        assert NonBlank(parts)[0] == Strip(parts[k + 1]) != "" && BlankBelow(parts, k + 1);
      }
    }
  }

  /** The first `k + 1` items are blank iff the first is and the `k` after it are. */
  lemma BlankShift(parts: seq<string>, k: int)
    requires 0 <= k < |parts|
    ensures BlankBelow(parts, k + 1) <==> Strip(parts[0]) == "" && BlankBelow(parts[1..], k)
  {
    var tail := parts[1..];
    assert forall j :: 0 <= j < k ==> tail[j] == parts[j + 1];
    if Strip(parts[0]) == "" && BlankBelow(tail, k) {
      forall j | 0 <= j < k + 1 ensures Strip(parts[j]) == "" {
        if j > 0 {
          assert parts[j] == tail[j - 1];
        }
      }
    }
  }

  /** `domain or "any"` */
  function Dom(domain: Value): Value
  {
    if Truthy(domain) then domain else VStr("any")
  }

  /** A value `in` can search: a string, a list, a tuple or a dict. */
  predicate Searchable(d: Value)
  {
    d.VStr? || d.VList? || d.VTuple? || d.VDict?
  }

  /**
   * `tag in d`: a substring of a string, an item of a list or tuple, a key of
   * a dict.
   */
  predicate Has(d: Value, tag: string)
    requires Searchable(d)
  {
    match d
    case VStr(s) => Contains(s, tag)
    case VList(items) => VStr(tag) in items
    case VTuple(items) => VStr(tag) in items
    case VDict(es) => EntryIndex(es, VStr(tag)) >= 0
  }

  /**
   * `sample_value`: the first domain tag found decides; a falsy domain is
   * `"any"`. `None` stands for the error Python raises: `in` on a value it
   * cannot search, or `d.find` on an enum domain that is not a string.
   */
  function SampleValue(domain: Value, env: Env, draw: ParamDraw): Option<Value>
  {
    var d := Dom(domain);
    if !Searchable(d) then None
    else if Has(d, "bool") then Some(VBool(draw.pick % 2 == 0))
    else if Has(d, "int") then Some(VInt(1 + draw.pick % 3))
    else if Has(d, "float") then Some(VFloat(draw.uniform))
    else if Has(d, "enum[") then (if d.VStr? then Some(VStr(EnumPick(d.s))) else None)
    else if Has(d, "str|list[str]") then
      Some(if draw.pick % 2 == 0 then Col(env) else VList([Col(env)]))
    else if Has(d, "list") then Some(VList([]))
    else if Has(d, "dict") then Some(VDict([]))
    else if Has(d, "str") then Some(Col(env))
    else Some(VInt(1))
  }

  /** The tags a domain is tested for, in order. */
  const Tags: seq<string> := ["bool", "int", "float", "enum[", "str|list[str]", "list", "dict", "str"]

  /** A text whose first character is absent from `s` does not occur in `s`. */
  lemma NotContainsFirst(s: string, t: string)
    requires |t| > 0 && t[0] !in s
    ensures !Contains(s, t)
  {
    forall j ensures !OccursAt(s, t, j) {
      if 0 <= j && j + |t| <= |s| {
        assert s[j..j + |t|][0] == s[j];
        assert s[j] in s;
      }
    }
  }

  /** None of the tags occurs in `"any"`. */
  lemma AnyHasNoTag()
    ensures forall k :: 0 <= k < |Tags| ==> !Contains("any", Tags[k])
  {
    forall k | 0 <= k < |Tags| ensures !Contains("any", Tags[k]) {
      NotContainsFirst("any", Tags[k]);
    }
  }

  /** A falsy domain, or a searchable one that has no known tag, gives `1`. */
  lemma NoTagGivesOne(domain: Value, env: Env, draw: ParamDraw)
    requires !Truthy(domain) || (Searchable(domain) && forall k :: 0 <= k < |Tags| ==> !Has(domain, Tags[k]))
    ensures SampleValue(domain, env, draw) == Some(VInt(1))
  {
    AnyHasNoTag();
    var d := Dom(domain);
    assert forall k :: 0 <= k < |Tags| ==> !Has(d, Tags[k]);
    assert !Has(d, Tags[0]) && !Has(d, Tags[1]) && !Has(d, Tags[2]) && !Has(d, Tags[3]);
    assert !Has(d, Tags[4]) && !Has(d, Tags[5]) && !Has(d, Tags[6]) && !Has(d, Tags[7]);
  }

  /**
   * A truthy domain that is not a string, list, tuple or dict raises; so does
   * an enum domain that is not a string.
   */
  lemma UnsearchableRaises(domain: Value, env: Env, draw: ParamDraw)
    ensures Truthy(domain) && !Searchable(domain) ==> SampleValue(domain, env, draw) == None
    ensures Searchable(domain) && !domain.VStr? && Truthy(domain)
            && !Has(domain, "bool") && !Has(domain, "int") && !Has(domain, "float") && Has(domain, "enum[")
            ==> SampleValue(domain, env, draw) == None
  {
  }

  /** The int domain gives 1, 2 or 3; the bool domain a boolean; in a list, the tag is an item. */
  lemma SampleValueRanges(domain: Value, env: Env, draw: ParamDraw)
    requires Searchable(domain)
    ensures Has(domain, "bool") ==> SampleValue(domain, env, draw) == Some(VBool(draw.pick % 2 == 0))
    ensures !Has(domain, "bool") && Has(domain, "int") ==>
      var v := SampleValue(domain, env, draw); v.Some? && v.value.VInt? && 1 <= v.value.i <= 3
    ensures domain.VList? ==> (Has(domain, "bool") <==> VStr("bool") in domain.items)
  {
    if !Truthy(domain) {
      NotContainsFirst("any", "bool");
      NotContainsFirst("any", "int");
      assert !Has(domain, "bool") && !Has(domain, "int") by {
        match domain
        case VStr(s) => assert s == "";
        case VList(items) =>
        case VTuple(items) =>
        case VDict(es) =>
      }
    }
  }

  /**
   * The enum domain gives the first non-blank item between the first `[` and
   * the first `]`, stripped, or `"enumval"` when there is none.
   */
  lemma SampleEnum(domain: string, env: Env, draw: ParamDraw)
    requires Contains(domain, "enum[")
    requires !Contains(domain, "bool") && !Contains(domain, "int") && !Contains(domain, "float")
    ensures var v := SampleValue(VStr(domain), env, draw);
      var parts := EnumParts(domain);
      && v.Some? && v.value.VStr?
      && ((v.value.s == "enumval" && BlankBelow(parts, |parts|))
          || (exists k :: 0 <= k < |parts| && v.value.s == Strip(parts[k]) != "" && BlankBelow(parts, k)))
  {
    assert domain != "";
    var d := VStr(domain);
    assert Dom(d) == d && Searchable(d);
    assert !Has(d, "bool") && !Has(d, "int") && !Has(d, "float") && Has(d, "enum[");
    assert SampleValue(d, env, draw) == Some(VStr(EnumPick(domain)));
    EnumPickSpec(EnumParts(domain));
  }

  /** The pick among the items: the first non-blank one, stripped, or `"enumval"`. */
  lemma EnumPickSpec(parts: seq<string>)
    ensures var items := NonBlank(parts);
      var p := if |items| > 0 then items[0] else "enumval";
      || (p == "enumval" && BlankBelow(parts, |parts|))
      || (exists k :: 0 <= k < |parts| && p == Strip(parts[k]) != "" && BlankBelow(parts, k))
  {
    NonBlankEmpty(parts);
    NonBlankFirst(parts);
  }

  /** The column domains: `col` or `[col]`, plain `str` gives `col`, `list` `[]`, `dict` `{}`. */
  lemma SampleContainers(domain: string, env: Env, draw: ParamDraw)
    requires !Contains(domain, "bool") && !Contains(domain, "int") && !Contains(domain, "float")
    requires !Contains(domain, "enum[")
    ensures Contains(domain, "str|list[str]") ==>
      SampleValue(VStr(domain), env, draw) in {Some(Col(env)), Some(VList([Col(env)]))}
    ensures !Contains(domain, "str|list[str]") && Contains(domain, "list") ==>
      SampleValue(VStr(domain), env, draw) == Some(VList([]))
    ensures !Contains(domain, "str|list[str]") && !Contains(domain, "list") && Contains(domain, "dict") ==>
      SampleValue(VStr(domain), env, draw) == Some(VDict([]))
    ensures (!Contains(domain, "str|list[str]") && !Contains(domain, "list") && !Contains(domain, "dict")
             && Contains(domain, "str")) ==> SampleValue(VStr(domain), env, draw) == Some(Col(env))
  {
    if domain == "" {
      AnyHasNoTag();
      assert !Contains(domain, "str|list[str]") && !Contains(domain, "list") && !Contains(domain, "dict");
      assert !Contains(domain, "str");
    }
  }

  // ---------------------------------------------------------------------------
  // `sample_kwargs`

  /** Whether the parameter gets a value, given its coin. */
  predicate Included(p: Param, draw: ParamDraw)
  {
    if p.default != VNone && !p.required then draw.coin < 0.2
    else if !p.required then draw.coin < 0.3
    else true
  }

  /** A value that can be a dict key: no list or dict, also not inside a tuple. */
  predicate Hashable(v: Value)
  {
    match v
    case VList(_) => false
    case VDict(_) => false
    case VTuple(items) => forall k :: 0 <= k < |items| ==> Hashable(items[k])
    case VTree(_, children) => forall k :: 0 <= k < |children| ==> Hashable(children[k])
    case _ => true
  }

  /**
   * The value an included parameter gets, or `None` when Python raises:
   * the domain cannot be sampled, or the name cannot be a dict key.
   */
  function ValueFor(p: Param, env: Env, draw: ParamDraw): Option<Value>
  {
    if !Hashable(p.name) then None
    else if p.default != VNone && !p.required then Some(Coerce(p.default))
    else SampleValue(p.domain, env, draw)
  }

  /** `ValueFor` in a fixed environment, as a function of the parameter and its draws. */
  function ValueOf(env: Env): (Param, ParamDraw) -> Option<Value>
  {
    (p: Param, d: ParamDraw) => ValueFor(p, env, d)
  }

  /**
   * The keyword arguments after the first `k` parameters, or `None` once one
   * raises; `draw(i)` is parameter `i`'s draws and `value` gives an included
   * parameter its value.
   */
  function KwargsUpTo(params: seq<Param>, draw: nat -> ParamDraw, value: (Param, ParamDraw) -> Option<Value>, k: nat)
    : Option<seq<(Value, Value)>>
    requires k <= |params|
    decreases k
  {
    if k == 0 then Some([])
    else
      match KwargsUpTo(params, draw, value, k - 1)
      case None => None
      case Some(kw) =>
        var p := params[k - 1];
        if !Included(p, draw(k - 1)) then Some(kw)
        else match value(p, draw(k - 1))
          case None => None
          case Some(x) => Some(DictPut(kw, p.name, x))
  }

  function Kwargs(params: seq<Param>, env: Env, draw: nat -> ParamDraw): Option<seq<(Value, Value)>>
  {
    KwargsUpTo(params, draw, ValueOf(env), |params|)
  }

  /** Parameter `i` uses only its own draws: equal draws below `k` give equal arguments. */
  lemma {:induction false} KwargsOwnDraws(params: seq<Param>, value: (Param, ParamDraw) -> Option<Value>,
                                          d1: nat -> ParamDraw, d2: nat -> ParamDraw, k: nat)
    requires k <= |params|
    requires forall i: nat :: i < k ==> d1(i) == d2(i)
    ensures KwargsUpTo(params, d1, value, k) == KwargsUpTo(params, d2, value, k)
    decreases k
  {
    if k > 0 {
      KwargsOwnDraws(params, value, d1, d2, k - 1);
      assert d1(k - 1) == d2(k - 1);
    }
  }

  /**
   * `sample_kwargs`: one pass over the parameters, filling an
   * insertion-ordered dict; `None` when a draw or a key assignment raises.
   */
  method SampleKwargs(params: seq<Param>, env: Env, draw: nat -> ParamDraw) returns (kwargs: Option<seq<(Value, Value)>>)
    ensures kwargs == Kwargs(params, env, draw)
  {
    var kw: seq<(Value, Value)> := [];
    var k := 0;
    while k < |params|
      invariant 0 <= k <= |params|
      invariant KwargsUpTo(params, draw, ValueOf(env), k) == Some(kw)
    {
      var p := params[k];
      var d := draw(k);
      KwargsStep(params, draw, ValueOf(env), k);
      var v: Option<Value> := None;
      if p.default != VNone && !p.required {
        if d.coin < 0.2 {
          v := Some(Coerce(p.default));
        }
      } else if !p.required {
        if d.coin < 0.3 {
          v := SampleValue(p.domain, env, d);
          if v.None? {
            KwargsStaysNone(params, draw, ValueOf(env), k + 1, |params|);
            return None;
          }
        }
      } else {
        v := SampleValue(p.domain, env, d);
        if v.None? {
          KwargsStaysNone(params, draw, ValueOf(env), k + 1, |params|);
          return None;
        }
      }
      if v.Some? {
        if !Hashable(p.name) {
          KwargsStaysNone(params, draw, ValueOf(env), k + 1, |params|);
          return None;
        }
        kw := DictPut(kw, p.name, v.value);
      }
      k := k + 1;
    }
    return Some(kw);
  }

  /** One more parameter: its name is put with its value when it is included, and a raise is final. */
  lemma KwargsStep(params: seq<Param>, draw: nat -> ParamDraw, value: (Param, ParamDraw) -> Option<Value>, k: nat)
    requires k < |params|
    ensures KwargsUpTo(params, draw, value, k + 1)
      == if KwargsUpTo(params, draw, value, k).None? then None
         else if !Included(params[k], draw(k)) then KwargsUpTo(params, draw, value, k)
         else if value(params[k], draw(k)).None? then None
         else Some(DictPut(KwargsUpTo(params, draw, value, k).value, params[k].name, value(params[k], draw(k)).value))
  {
  }

  /** Once a parameter raises, so does the whole call. */
  lemma {:induction false} KwargsStaysNone(params: seq<Param>, draw: nat -> ParamDraw,
                                           value: (Param, ParamDraw) -> Option<Value>, k: nat, m: nat)
    requires k <= m <= |params|
    requires KwargsUpTo(params, draw, value, k) == None
    ensures KwargsUpTo(params, draw, value, m) == None
    decreases m - k
  {
    if k < m {
      KwargsStaysNone(params, draw, value, k + 1, m);
    }
  }

  /** Some included parameter below `k` raises. */
  predicate RaisesBelow(params: seq<Param>, draw: nat -> ParamDraw, value: (Param, ParamDraw) -> Option<Value>, k: nat)
    requires k <= |params|
  {
    exists i :: 0 <= i < k && Included(params[i], draw(i)) && value(params[i], draw(i)).None?
  }

  /** The call raises exactly when some included parameter cannot get its value. */
  lemma {:induction false} KwargsRaise(params: seq<Param>, draw: nat -> ParamDraw,
                                       value: (Param, ParamDraw) -> Option<Value>, k: nat)
    requires k <= |params|
    ensures KwargsUpTo(params, draw, value, k).None? <==> RaisesBelow(params, draw, value, k)
    decreases k
  {
    if k > 0 {
      KwargsRaise(params, draw, value, k - 1);
      KwargsStep(params, draw, value, k - 1);
      if RaisesBelow(params, draw, value, k - 1) {
        var i :| 0 <= i < k - 1 && Included(params[i], draw(i)) && value(params[i], draw(i)).None?;
        assert 0 <= i < k;
      }
      if RaisesBelow(params, draw, value, k) {
        var i :| 0 <= i < k && Included(params[i], draw(i)) && value(params[i], draw(i)).None?;
        if i < k - 1 {
          assert RaisesBelow(params, draw, value, k - 1);
        }
      }
    }
  }

  /** No two parameters share a name. */
  predicate UniqueNames(params: seq<Param>)
  {
    forall i, j :: 0 <= i < j < |params| ==> params[i].name != params[j].name
  }

  /** Some parameter below `k` is named `x` and included. */
  predicate NamedBelow(params: seq<Param>, draw: nat -> ParamDraw, k: nat, x: Value)
    requires k <= |params|
  {
    exists i :: 0 <= i < k && params[i].name == x && Included(params[i], draw(i))
  }

  /** The keys are exactly the names of the included parameters, each once. */
  lemma {:induction false} KwargsKeys(params: seq<Param>, draw: nat -> ParamDraw, value: (Param, ParamDraw) -> Option<Value>, k: nat)
    requires k <= |params|
    ensures var kw := KwargsUpTo(params, draw, value, k);
      kw.Some? ==>
        && UniqueKeys(kw.value)
        && (forall x :: HasKey(kw.value, x) <==> NamedBelow(params, draw, k, x))
    decreases k
  {
    if k > 0 {
      KwargsStep(params, draw, value, k - 1);
      var r := KwargsUpTo(params, draw, value, k);
      if r.Some? {
        KwargsKeys(params, draw, value, k - 1);
        var kw := KwargsUpTo(params, draw, value, k - 1).value;
        var p := params[k - 1];
        if Included(p, draw(k - 1)) {
          DictPutSpec(kw, p.name, value(p, draw(k - 1)).value);
        }
        forall x ensures HasKey(r.value, x) <==> NamedBelow(params, draw, k, x) {
          NamedBelowStep(params, draw, k, x);
        }
      }
    }
  }

  /** A name is included below `k` iff it is included below `k - 1` or is parameter `k - 1`'s, included. */
  lemma NamedBelowStep(params: seq<Param>, draw: nat -> ParamDraw, k: nat, x: Value)
    requires 0 < k <= |params|
    ensures NamedBelow(params, draw, k, x)
      <==> NamedBelow(params, draw, k - 1, x) || (params[k - 1].name == x && Included(params[k - 1], draw(k - 1)))
  {
    if NamedBelow(params, draw, k - 1, x) {
      var i :| 0 <= i < k - 1 && params[i].name == x && Included(params[i], draw(i));
      assert 0 <= i < k;
    }
    if NamedBelow(params, draw, k, x) {
      var i :| 0 <= i < k && params[i].name == x && Included(params[i], draw(i));
      if i < k - 1 {
        assert NamedBelow(params, draw, k - 1, x);
      }
    }
  }

  /** With distinct names, an included parameter holds its own value. */
  lemma {:induction false} KwargsValueAt(params: seq<Param>, draw: nat -> ParamDraw, value: (Param, ParamDraw) -> Option<Value>,
                                         k: nat, i: nat)
    requires k <= |params| && UniqueNames(params)
    requires i < k && Included(params[i], draw(i))
    requires KwargsUpTo(params, draw, value, k).Some?
    ensures value(params[i], draw(i)).Some?
    ensures var kw := KwargsUpTo(params, draw, value, k).value;
      HasKey(kw, params[i].name) && Lookup(kw, params[i].name) == value(params[i], draw(i)).value
    decreases k
  {
    KwargsStep(params, draw, value, k - 1);
    if KwargsUpTo(params, draw, value, k - 1).None? {
      assert false;
    }
    if i == k - 1 {
      KwargsValueLast(params, draw, value, i);
    } else {
      KwargsValueAt(params, draw, value, k - 1, i);
      KwargsValueKept(params, draw, value, k - 1, i);
    }
  }

  /** An included parameter puts its own value under its name. */
  lemma KwargsValueLast(params: seq<Param>, draw: nat -> ParamDraw, value: (Param, ParamDraw) -> Option<Value>, k: nat)
    requires k < |params| && Included(params[k], draw(k))
    requires KwargsUpTo(params, draw, value, k + 1).Some?
    ensures value(params[k], draw(k)).Some?
    ensures var kw := KwargsUpTo(params, draw, value, k + 1).value;
      HasKey(kw, params[k].name) && Lookup(kw, params[k].name) == value(params[k], draw(k)).value
  {
    KwargsStep(params, draw, value, k);
    KwargsUnique(params, draw, value, k);
    DictPutSpec(KwargsUpTo(params, draw, value, k).value, params[k].name, value(params[k], draw(k)).value);
  }

  /** A later parameter, whose name differs, leaves an earlier one's value in place. */
  lemma KwargsValueKept(params: seq<Param>, draw: nat -> ParamDraw, value: (Param, ParamDraw) -> Option<Value>, k: nat, i: nat)
    requires k < |params| && UniqueNames(params) && i < k
    requires KwargsUpTo(params, draw, value, k).Some? && KwargsUpTo(params, draw, value, k + 1).Some?
    requires value(params[i], draw(i)).Some?
    requires var kw := KwargsUpTo(params, draw, value, k).value;
      HasKey(kw, params[i].name) && Lookup(kw, params[i].name) == value(params[i], draw(i)).value
    ensures var kw := KwargsUpTo(params, draw, value, k + 1).value;
      HasKey(kw, params[i].name) && Lookup(kw, params[i].name) == value(params[i], draw(i)).value
  {
    KwargsStep(params, draw, value, k);
    if Included(params[k], draw(k)) {
      assert params[i].name != params[k].name;
      KwargsUnique(params, draw, value, k);
      DictPutOther(KwargsUpTo(params, draw, value, k).value, params[k].name, value(params[k], draw(k)).value, params[i].name);
    }
  }

  /** The arguments never hold a name twice. */
  lemma KwargsUnique(params: seq<Param>, draw: nat -> ParamDraw, value: (Param, ParamDraw) -> Option<Value>, k: nat)
    requires k <= |params| && KwargsUpTo(params, draw, value, k).Some?
    ensures UniqueKeys(KwargsUpTo(params, draw, value, k).value)
  {
    KwargsKeys(params, draw, value, k);
  }

  /** Every required parameter is present, even one that has a default, unless the call raises. */
  lemma RequiredPresent(params: seq<Param>, env: Env, draw: nat -> ParamDraw, i: int)
    requires 0 <= i < |params| && params[i].required
    ensures Kwargs(params, env, draw).Some? ==> HasKey(Kwargs(params, env, draw).value, params[i].name)
  {
    KwargsKeys(params, draw, ValueOf(env), |params|);
    assert NamedBelow(params, draw, |params|, params[i].name);
  }

  /** Every key is the name of a parameter. */
  lemma KeysAreNames(params: seq<Param>, env: Env, draw: nat -> ParamDraw, x: Value)
    requires Kwargs(params, env, draw).Some? && HasKey(Kwargs(params, env, draw).value, x)
    ensures exists i :: 0 <= i < |params| && params[i].name == x
  {
    KwargsKeys(params, draw, ValueOf(env), |params|);
    var i :| 0 <= i < |params| && params[i].name == x && Included(params[i], draw(i));
  }

  /**
   * An optional parameter with a default is present iff its coin is below
   * 0.2, and then holds its coerced default: it is never freshly sampled.
   */
  lemma DefaultOnlyCoerced(params: seq<Param>, env: Env, draw: nat -> ParamDraw, i: int)
    requires UniqueNames(params)
    requires 0 <= i < |params| && !params[i].required && params[i].default != VNone
    requires Kwargs(params, env, draw).Some?
    ensures HasKey(Kwargs(params, env, draw).value, params[i].name) <==> draw(i).coin < 0.2
    ensures HasKey(Kwargs(params, env, draw).value, params[i].name) ==>
      Lookup(Kwargs(params, env, draw).value, params[i].name) == Coerce(params[i].default)
  {
    var kw := Kwargs(params, env, draw).value;
    var name := params[i].name;
    KwargsKeys(params, draw, ValueOf(env), |params|);
    if HasKey(kw, name) {
      var j :| 0 <= j < |params| && params[j].name == name && Included(params[j], draw(j));
      assert j == i;
      assert Included(params[i], draw(i));
    }
    if draw(i).coin < 0.2 {
      assert NamedBelow(params, draw, |params|, name);
      KwargsValueAt(params, draw, ValueOf(env), |params|, i);
    }
  }
}
