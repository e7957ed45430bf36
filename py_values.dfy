/**
 * The Python values that flow through the generator: card facts, sampled
 * arguments, fixtures. Covers truthiness (`bool(v)`), `str(v)`, `repr(v)`,
 * `dict.get` with a `None` default, and insertion-ordered dictionaries.
 */
module PyValues {
  import opened Strs

  /**
   * A Python value. Floats keep the text they were written with; dictionaries
   * are lists of entries in insertion order.
   */
  datatype Value =
    | VNone
    | VBool(b: bool)
    | VInt(i: int)
    | VFloat(text: string)
    | VStr(s: string)
    | VList(items: seq<Value>)
    | VTuple(items: seq<Value>)
    | VDict(entries: seq<Entry>)
    | VTree(data: string, children: seq<Value>)  // an object of Lark's `Tree` class

  datatype Entry = Entry(key: Value, val: Value)

  /** The mantissa of a float literal holds only zeros (and signs, points, underscores, blanks). */
  predicate ZeroFloatText(t: string)
  {
    var mantissa := FirstPart(FirstPart(t, 'e'), 'E');
    '0' in mantissa
    && forall k :: 0 <= k < |mantissa| ==> mantissa[k] in "0.+-_" || IsSpace(mantissa[k])
  }

  /** `bool(v)` */
  predicate Truthy(v: Value)
  {
    match v
    case VNone => false
    case VBool(b) => b
    case VInt(i) => i != 0
    case VFloat(t) => |t| > 0 && !ZeroFloatText(t)
    case VStr(s) => |s| > 0
    case VList(items) => |items| > 0
    case VTuple(items) => |items| > 0
    case VDict(entries) => |entries| > 0
    case VTree(_, _) => true  // `Tree` defines neither `__bool__` nor `__len__`
  }

  function HexLow(d: nat): (c: char)
    requires d < 16
  {
    if d < 10 then ('0' as int + d) as char else ('a' as int + d - 10) as char
  }

  /**
   * The Latin-1 characters `str.isprintable()` rejects: the C0 and C1
   * controls, DEL, the no-break space and the soft hyphen.
   */
  predicate UnprintableLatin1(c: char)
  {
    c < ' ' || ('\U{7f}' <= c <= '\U{a0}') || c == '\U{ad}'
  }

  /** One character inside Python's `repr` of a string quoted with `quote`. */
  function ReprChar(c: char, quote: char): (r: string)
    requires quote == '\'' || quote == '"'
    ensures c != '\\' && c != quote && !UnprintableLatin1(c) ==> r == [c]
    ensures c == '\\' || c == quote ==> r == ['\\', c]
    ensures c == '\t' ==> r == "\\t"
    ensures c == '\n' ==> r == "\\n"
    ensures c == '\r' ==> r == "\\r"
    ensures UnprintableLatin1(c) && c != '\t' && c != '\n' && c != '\r' ==>
              r == ['\\', 'x', HexLow(c as int / 16), HexLow(c as int % 16)]
    ensures UnprintableLatin1(c) ==> |r| >= 2 && r[0] == '\\'
    ensures forall k :: 0 <= k < |r| ==> !UnprintableLatin1(r[k])
  {
    if c == '\\' || c == quote then ['\\', c]
    else if c == '\t' then "\\t"
    else if c == '\n' then "\\n"
    else if c == '\r' then "\\r"
    else if UnprintableLatin1(c) then ['\\', 'x', HexLow(c as int / 16), HexLow(c as int % 16)]
    else [c]
  }

  function ReprBody(s: string, quote: char): string
    requires quote == '\'' || quote == '"'
    decreases |s|
  {
    if |s| == 0 then "" else ReprChar(s[0], quote) + ReprBody(s[1..], quote)
  }

  /** The body of a string's `repr` holds no unprintable Latin-1 character. */
  lemma {:induction false} ReprBodyPrintable(s: string, quote: char)
    requires quote == '\'' || quote == '"'
    ensures forall k :: 0 <= k < |ReprBody(s, quote)| ==> !UnprintableLatin1(ReprBody(s, quote)[k])
    decreases |s|
  {
    if |s| > 0 {
      ReprBodyPrintable(s[1..], quote);
      var head, tail := ReprChar(s[0], quote), ReprBody(s[1..], quote);
      assert ReprBody(s, quote) == head + tail;
      forall k | 0 <= k < |head + tail| ensures !UnprintableLatin1((head + tail)[k]) {
        if k >= |head| {
          assert (head + tail)[k] == tail[k - |head|];
        }
      }
    }
  }

  /** `repr(s)` for a string: single quotes unless the text has a `'` and no `"`. */
  function ReprStr(s: string): string
  {
    var quote := if '\'' in s && '"' !in s then '"' else '\'';
    [quote] + ReprBody(s, quote) + [quote]
  }

  /** `repr(v)` */
  function Repr(v: Value): string
  {
    match v
    case VNone => "None"
    case VBool(b) => if b then "True" else "False"
    case VInt(i) => IntToString(i)
    case VFloat(t) => t
    case VStr(s) => ReprStr(s)
    case VList(items) => "[" + Join(", ", seq(|items|, k requires 0 <= k < |items| => Repr(items[k]))) + "]"
    case VTuple(items) =>
      if |items| == 1 then "(" + Repr(items[0]) + ",)"
      else "(" + Join(", ", seq(|items|, k requires 0 <= k < |items| => Repr(items[k]))) + ")"
    case VDict(entries) =>
      "{" + Join(", ", seq(|entries|, k requires 0 <= k < |entries| =>
                             Repr(entries[k].key) + ": " + Repr(entries[k].val))) + "}"
    case VTree(data, children) =>
      "Tree(" + ReprStr(data) + ", [" + Join(", ", seq(|children|, k requires 0 <= k < |children| => Repr(children[k]))) + "])"
  }

  /** `str(v)`: the text itself for a string, `repr(v)` for everything else. */
  function Str(v: Value): string
  {
    if v.VStr? then v.s else Repr(v)
  }

  /** `str(v or "")`: the empty string for a falsy value. */
  function Label(v: Value): string
  {
    if Truthy(v) then Str(v) else ""
  }

  /** A truthy value never prints as the empty string. */
  lemma LabelEmpty(v: Value)
    ensures Label(v) == "" <==> !Truthy(v)
  {
    if Truthy(v) && !v.VStr? {
      match v
      case VInt(i) => NatToStringDigits(if i < 0 then -i else i);
      case _ =>
    }
  }

  /** `d.get(k)` on a dictionary keyed by strings: `None` when the key is missing. */
  function Get(d: map<string, Value>, k: string): Value
  {
    if k in d then d[k] else VNone
  }

  // ---------------------------------------------------------------------------
  // Insertion-ordered dictionaries as lists of (key, value) pairs

  function DictKeys<K, V>(d: seq<(K, V)>): (ks: seq<K>)
    ensures |ks| == |d| && forall i :: 0 <= i < |d| ==> ks[i] == d[i].0
  {
    seq(|d|, i requires 0 <= i < |d| => d[i].0)
  }

  /** No key occurs twice. */
  predicate UniqueKeys<K(==), V>(d: seq<(K, V)>)
  {
    forall i, j :: 0 <= i < j < |d| ==> d[i].0 != d[j].0
  }

  function IndexOfKey<K(==), V>(d: seq<(K, V)>, k: K): (i: int)
    ensures -1 <= i < |d|
    ensures i == -1 <==> k !in DictKeys(d)
    ensures i >= 0 ==> d[i].0 == k
    decreases |d|
  {
    if |d| == 0 then -1
    else if d[|d| - 1].0 == k then |d| - 1
    else
      assert DictKeys(d) == DictKeys(d[..|d| - 1]) + [d[|d| - 1].0];
      IndexOfKey(d[..|d| - 1], k)
  }

  /** `k in d` */
  predicate HasKey<K(==), V>(d: seq<(K, V)>, k: K)
  {
    k in DictKeys(d)
  }

  /** `d[k]` */
  function Lookup<K(==), V>(d: seq<(K, V)>, k: K): V
    requires HasKey(d, k)
  {
    d[IndexOfKey(d, k)].1
  }

  /** With unique keys, the position of a key is the one entry that holds it. */
  lemma IndexOfUnique<K, V>(d: seq<(K, V)>, j: int)
    requires UniqueKeys(d) && 0 <= j < |d|
    ensures IndexOfKey(d, d[j].0) == j
  {
    assert d[j].0 in DictKeys(d);
  }

  /**
   * `d[k] = v`: an existing key keeps its position and takes the new value; a
   * new key goes at the end.
   */
  function DictPut<K(==), V>(d: seq<(K, V)>, k: K, v: V): (r: seq<(K, V)>)
  {
    var i := IndexOfKey(d, k);
    if i == -1 then d + [(k, v)] else d[i := (k, v)]
  }

  /** After `d[k] = v`, every other key that was there keeps its value. */
  lemma DictPutOther<K, V>(d: seq<(K, V)>, k: K, v: V, x: K)
    requires UniqueKeys(d) && x != k && HasKey(d, x)
    ensures HasKey(DictPut(d, k, v), x) && Lookup(DictPut(d, k, v), x) == Lookup(d, x)
  {
    DictPutSpec(d, k, v);
  }

  /**
   * After `d[k] = v`, `k` maps to `v`, every other key keeps its value, no key
   * is added but `k`, and keys stay unique.
   */
  lemma DictPutSpec<K, V>(d: seq<(K, V)>, k: K, v: V)
    requires UniqueKeys(d)
    ensures var r := DictPut(d, k, v);
      && UniqueKeys(r)
      && HasKey(r, k) && Lookup(r, k) == v
      && (forall x :: HasKey(r, x) <==> x == k || HasKey(d, x))
      && (forall x :: x != k && HasKey(d, x) ==> Lookup(r, x) == Lookup(d, x))
      && (HasKey(d, k) ==> DictKeys(r) == DictKeys(d))
      && (!HasKey(d, k) ==> r == d + [(k, v)])
  {
    var r := DictPut(d, k, v);
    var i := IndexOfKey(d, k);
    var at := if i == -1 then |d| else i;
    if i == -1 {
      assert DictKeys(r) == DictKeys(d) + [k];
    } else {
      assert DictKeys(r) == DictKeys(d);
    }
    assert UniqueKeys(r);
    IndexOfUnique(r, at);
    forall x | x != k && HasKey(d, x) ensures Lookup(r, x) == Lookup(d, x) {
      var j := IndexOfKey(d, x);
      assert r[j] == d[j];
      IndexOfUnique(r, j);
    }
  }

  // ---------------------------------------------------------------------------
  // Dict values

  /** The position of the entry with key `k` in a dict value's entries, or -1. */
  function EntryIndex(es: seq<Entry>, k: Value): (i: int)
    ensures -1 <= i < |es|
    ensures i >= 0 ==> es[i].key == k
    ensures i == -1 ==> forall j :: 0 <= j < |es| ==> es[j].key != k
    decreases |es|
  {
    if |es| == 0 then -1
    else if es[|es| - 1].key == k then |es| - 1
    else EntryIndex(es[..|es| - 1], k)
  }

  /** `d.get(k)` on a dict value: `None` when the key is missing. */
  function DictGet(es: seq<Entry>, k: Value): Value
  {
    var i := EntryIndex(es, k);
    if i < 0 then VNone else es[i].val
  }
}
