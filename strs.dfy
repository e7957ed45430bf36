/**
 * String operations with the meaning of the Python `str` methods the generator
 * relies on: `split`, `join`, `strip`, `find`, `in`, `splitlines`, slicing,
 * ASCII lower-casing, decimal integers and Python's code-point string order.
 */
module Strs {

  datatype Option<T> = None | Some(value: T)

  /** A value, or the message of the exception raised instead. */
  datatype Result<T> = Ok(value: T) | Err(msg: string)

  // ---------------------------------------------------------------------------
  // Joining

  /** `sep.join(parts)` */
  function Join(sep: string, parts: seq<string>): string
    decreases |parts|
  {
    if |parts| == 0 then ""
    else if |parts| == 1 then parts[0]
    else Join(sep, parts[..|parts| - 1]) + sep + parts[|parts| - 1]
  }

  /** `"".join(parts)` */
  function Concat(parts: seq<string>): string
    decreases |parts|
  {
    if |parts| == 0 then "" else Concat(parts[..|parts| - 1]) + parts[|parts| - 1]
  }

  lemma ConcatAppend(parts: seq<string>, p: string)
    ensures Concat(parts + [p]) == Concat(parts) + p
  {
    assert (parts + [p])[..|parts|] == parts;
  }

  lemma JoinAppend(sep: string, parts: seq<string>, p: string)
    requires |parts| >= 1
    ensures Join(sep, parts + [p]) == Join(sep, parts) + sep + p
  {
    assert (parts + [p])[..|parts|] == parts;
  }

  /** Joining from the front: the first part, the separator, the rest joined. */
  lemma {:induction false} JoinFront(sep: string, a: string, parts: seq<string>)
    requires |parts| >= 1
    ensures Join(sep, [a] + parts) == a + sep + Join(sep, parts)
    decreases |parts|
  {
    if |parts| == 1 {
      assert ([a] + parts)[..1] == [a];
    } else {
      var init, last := parts[..|parts| - 1], parts[|parts| - 1];
      assert ([a] + parts)[..|parts|] == [a] + init;
      JoinFront(sep, a, init);
      assert parts[..|parts| - 1] == init;
    }
  }

  /** Each part followed by `sep`, all concatenated. */
  function Terminated(sep: string, parts: seq<string>): string
    decreases |parts|
  {
    if |parts| == 0 then "" else Terminated(sep, parts[..|parts| - 1]) + parts[|parts| - 1] + sep
  }

  /**
   * Joining with a separator and adding one more separator when there was at
   * least one part ends every part with the separator.
   */
  lemma {:induction false} JoinTerminated(sep: string, parts: seq<string>)
    ensures Join(sep, parts) + (if |parts| > 0 then sep else "") == Terminated(sep, parts)
    decreases |parts|
  {
    if |parts| == 1 {
      assert Terminated(sep, parts[..0]) == "";
    } else if |parts| > 1 {
      JoinTerminated(sep, parts[..|parts| - 1]);
    }
  }

  /** Number of occurrences of `c` in `s`. */
  function Count(s: string, c: char): nat
    decreases |s|
  {
    if |s| == 0 then 0 else Count(s[..|s| - 1], c) + (if s[|s| - 1] == c then 1 else 0)
  }

  lemma CountConcat(a: string, b: string, c: char)
    ensures Count(a + b, c) == Count(a, c) + Count(b, c)
    decreases |b|
  {
    if |b| == 0 {
      assert a + b == a;
    } else {
      assert (a + b)[..|a + b| - 1] == a + b[..|b| - 1];
      CountConcat(a, b[..|b| - 1], c);
    }
  }

  lemma CountAbsent(s: string, c: char)
    requires c !in s
    ensures Count(s, c) == 0
    decreases |s|
  {
    if |s| > 0 {
      var t := s[..|s| - 1];
      assert forall i :: 0 <= i < |t| ==> t[i] == s[i];
      CountAbsent(t, c);
    }
  }

  /**
   * Joining parts that do not contain `c` with the one-character separator `c`
   * puts exactly one `c` between consecutive parts.
   */
  lemma {:induction false} CountJoin(c: char, parts: seq<string>)
    requires |parts| >= 1
    requires forall k :: 0 <= k < |parts| ==> c !in parts[k]
    ensures Count(Join([c], parts), c) == |parts| - 1
    decreases |parts|
  {
    if |parts| == 1 {
      CountAbsent(parts[0], c);
    } else {
      var init := parts[..|parts| - 1];
      CountJoin(c, init);
      CountConcat(Join([c], init) + [c], parts[|parts| - 1], c);
      CountConcat(Join([c], init), [c], c);
      assert Count([c], c) == 1 by { assert [c][..0] == []; }
      CountAbsent(parts[|parts| - 1], c);
    }
  }

  // ---------------------------------------------------------------------------
  // Splitting on one character

  /** `s.split(c)` for a one-character separator: never empty. */
  function Split(s: string, c: char): (parts: seq<string>)
    ensures |parts| >= 1
    decreases |s|
  {
    if |s| == 0 then [""]
    else
      var rest := Split(s[1..], c);
      if s[0] == c then [""] + rest else [[s[0]] + rest[0]] + rest[1..]
  }

  /** No part of a split contains the separator. */
  lemma {:induction false} SplitPartsClean(s: string, c: char)
    ensures forall k :: 0 <= k < |Split(s, c)| ==> c !in Split(s, c)[k]
    decreases |s|
  {
    if |s| > 0 {
      SplitPartsClean(s[1..], c);
      var rest := Split(s[1..], c);
      if s[0] != c {
        assert c !in [s[0]] + rest[0];
      }
    }
  }

  /** Joining the parts with the separator gives the string back. */
  lemma {:induction false} JoinSplit(s: string, c: char)
    ensures Join([c], Split(s, c)) == s
    decreases |s|
  {
    if |s| > 0 {
      JoinSplit(s[1..], c);
      var rest := Split(s[1..], c);
      if s[0] == c {
        JoinCons([c], "", rest);
      } else {
        JoinHead([c], s[0], rest);
      }
    }
  }

  lemma {:induction false} JoinCons(sep: string, p: string, rest: seq<string>)
    requires |rest| >= 1
    ensures Join(sep, [p] + rest) == p + sep + Join(sep, rest)
    decreases |rest|
  {
    if |rest| == 1 {
      assert ([p] + rest)[..1] == [p];
    } else {
      var init := rest[..|rest| - 1];
      assert ([p] + rest)[..|rest|] == [p] + init;
      JoinCons(sep, p, init);
    }
  }

  lemma {:induction false} JoinHead(sep: string, x: char, parts: seq<string>)
    requires |parts| >= 1
    ensures Join(sep, [[x] + parts[0]] + parts[1..]) == [x] + Join(sep, parts)
    decreases |parts|
  {
    var q := [[x] + parts[0]] + parts[1..];
    var n := |parts|;
    if n == 1 {
      assert q == [[x] + parts[0]];
    } else {
      var init := parts[..n - 1];
      assert q[..n - 1] == [[x] + init[0]] + init[1..];
      assert q[n - 1] == parts[n - 1];
      JoinHead(sep, x, init);
      assert Join(sep, q) == [x] + Join(sep, init) + sep + parts[n - 1];
      assert Join(sep, parts) == Join(sep, init) + sep + parts[n - 1];
    }
  }

  /** `s.split(c)[0]` */
  function FirstPart(s: string, c: char): string
  {
    Split(s, c)[0]
  }

  /** The first part is the text before the first separator, or all of `s` when there is none. */
  lemma {:induction false} FirstPartSpec(s: string, c: char)
    ensures var f := FirstPart(s, c);
      && c !in f && |f| <= |s| && s[..|f|] == f
      && (|f| < |s| ==> s[|f|] == c)
    decreases |s|
  {
    if |s| > 0 && s[0] != c {
      FirstPartSpec(s[1..], c);
    }
  }

  /** Text after a separator does not change the first part. */
  lemma {:induction false} FirstPartPrefix(a: string, b: string, c: char)
    ensures FirstPart(a + [c] + b, c) == FirstPart(a, c)
    decreases |a|
  {
    if |a| > 0 {
      assert (a + [c] + b)[1..] == a[1..] + [c] + b;
      FirstPartPrefix(a[1..], b, c);
    }
  }

  /** A string without the separator is its own first part. */
  lemma FirstPartWhole(s: string, c: char)
    requires c !in s
    ensures FirstPart(s, c) == s
  {
    FirstPartSpec(s, c);
    assert forall k :: 0 <= k < |s| ==> s[k] != c;
  }

  /** `s.split(c)[-1]` */
  function LastPart(s: string, c: char): string
  {
    var parts := Split(s, c);
    parts[|parts| - 1]
  }

  /** `s.rsplit(c, 1)[0]`: everything before the last `c`, or `s` when there is none. */
  function BeforeLast(s: string, c: char): string
  {
    var parts := Split(s, c);
    if |parts| == 1 then s else Join([c], parts[..|parts| - 1])
  }

  /**
   * Cutting at the last separator: the text before it, the separator and the
   * text after it give back the whole string, and the text after it holds no
   * separator.
   */
  lemma CutAtLast(s: string, c: char)
    ensures c !in LastPart(s, c)
    ensures |Split(s, c)| > 1 ==> BeforeLast(s, c) + [c] + LastPart(s, c) == s
    ensures |Split(s, c)| == 1 ==> LastPart(s, c) == s && BeforeLast(s, c) == s
  {
    var parts := Split(s, c);
    SplitPartsClean(s, c);
    JoinSplit(s, c);
    if |parts| > 1 {
      JoinAppend([c], parts[..|parts| - 1], parts[|parts| - 1]);
      assert parts[..|parts| - 1] + [parts[|parts| - 1]] == parts;
    }
  }

  /**
   * The text after the last `c` holds no `c`; with a `c` in `s`, the text
   * before it, `c` and the text after it give back `s`; without one, both
   * are `s`.
   */
  lemma LastCut(s: string, c: char)
    ensures c !in LastPart(s, c)
    ensures c in s ==> BeforeLast(s, c) + [c] + LastPart(s, c) == s
    ensures c !in s ==> LastPart(s, c) == s && BeforeLast(s, c) == s
  {
    CutAtLast(s, c);
    if |Split(s, c)| > 1 {
      var b := BeforeLast(s, c);
      assert s[|b|] == c;
    }
  }

  // ---------------------------------------------------------------------------
  // Searching

  /** `sub` occurs in `s` at position `i`. */
  predicate OccursAt(s: string, sub: string, i: int)
  {
    0 <= i && i + |sub| <= |s| && s[i..i + |sub|] == sub
  }

  /** `s.find(sub, i)` restricted to positions from `i` on: the first occurrence, or -1. */
  function FindFrom(s: string, sub: string, i: nat): (k: int)
    ensures k == -1 || (i <= k && OccursAt(s, sub, k))
    ensures k == -1 ==> forall j :: i <= j ==> !OccursAt(s, sub, j)
    ensures k != -1 ==> forall j :: i <= j < k ==> !OccursAt(s, sub, j)
    decreases |s| - i
  {
    if i + |sub| > |s| then -1
    else if s[i..i + |sub|] == sub then i
    else FindFrom(s, sub, i + 1)
  }

  /** `s.find(sub)` */
  function Find(s: string, sub: string): (k: int)
    ensures k == -1 <==> forall j :: !OccursAt(s, sub, j)
    ensures k != -1 ==> OccursAt(s, sub, k) && forall j :: 0 <= j < k ==> !OccursAt(s, sub, j)
  {
    FindFrom(s, sub, 0)
  }

  /** `sub in s` */
  predicate Contains(s: string, sub: string)
  {
    Find(s, sub) != -1
  }

  lemma ContainsAt(s: string, sub: string, i: int)
    requires OccursAt(s, sub, i)
    ensures Contains(s, sub)
  {
  }

  /** Python slice `s[i:j]` with negative positions counted from the end. */
  function Slice(s: string, i: int, j: int): (r: string)
    ensures |r| <= |s|
  {
    var a := Clamp(if i < 0 then i + |s| else i, |s|);
    var b := Clamp(if j < 0 then j + |s| else j, |s|);
    if a < b then s[a..b] else ""
  }

  function Clamp(k: int, n: nat): (r: nat)
    ensures r <= n
  {
    if k < 0 then 0 else if k > n then n else k
  }

  /** `s[:n]` for a non-negative `n`. */
  function Take<T>(s: seq<T>, n: nat): (r: seq<T>)
    ensures |r| == if n < |s| then n else |s|
    ensures forall k :: 0 <= k < |r| ==> r[k] == s[k]
  {
    if n < |s| then s[..n] else s
  }

  function StartsWith(s: string, prefix: string): bool
  {
    |prefix| <= |s| && s[..|prefix|] == prefix
  }

  function EndsWith(s: string, suffix: string): bool
  {
    |suffix| <= |s| && s[|s| - |suffix|..] == suffix
  }

  lemma StartsWithAppend(s: string, prefix: string, t: string)
    requires StartsWith(s, prefix)
    ensures StartsWith(s + t, prefix)
  {
    assert (s + t)[..|prefix|] == s[..|prefix|];
  }

  lemma EndsWithPrepend(s: string, suffix: string, t: string)
    requires EndsWith(s, suffix)
    ensures EndsWith(t + s, suffix)
  {
    assert (t + s)[|t + s| - |suffix|..] == s[|s| - |suffix|..];
  }

  lemma Ends(a: string, b: string)
    ensures StartsWith(a + b, a) && EndsWith(a + b, b)
  {
    assert (a + b)[..|a|] == a;
    assert (a + b)[|a + b| - |b|..] == b;
  }

  // ---------------------------------------------------------------------------
  // Whitespace and case

  /** Python's `str.isspace` for a single character. */
  predicate IsSpace(c: char)
  {
    c == ' ' || ('\t' <= c <= '\r') || ('\U{1c}' <= c <= '\U{1f}') || c == '\U{85}' || c == '\U{a0}'
    || c == '\U{1680}' || ('\U{2000}' <= c <= '\U{200a}') || c == '\U{2028}' || c == '\U{2029}'
    || c == '\U{202f}' || c == '\U{205f}' || c == '\U{3000}'
  }

  function LStrip(s: string): (r: string)
    ensures |r| <= |s| && r == s[|s| - |r|..]
    ensures |r| > 0 ==> !IsSpace(r[0])
    ensures forall k :: 0 <= k < |s| - |r| ==> IsSpace(s[k])
    decreases |s|
  {
    if |s| > 0 && IsSpace(s[0]) then LStrip(s[1..]) else s
  }

  function RStrip(s: string): (r: string)
    ensures |r| <= |s| && r == s[..|r|]
    ensures |r| > 0 ==> !IsSpace(r[|r| - 1])
    ensures forall k :: |r| <= k < |s| ==> IsSpace(s[k])
    decreases |s|
  {
    if |s| > 0 && IsSpace(s[|s| - 1]) then RStrip(s[..|s| - 1]) else s
  }

  /** `s.strip()` with no argument. */
  function Strip(s: string): string
  {
    RStrip(LStrip(s))
  }

  /** `s.strip()` is empty exactly when every character of `s` is whitespace. */
  lemma StripEmpty(s: string)
    ensures Strip(s) == "" <==> forall k :: 0 <= k < |s| ==> IsSpace(s[k])
  {
    var l := LStrip(s);
    if Strip(s) == "" {
      assert |l| == 0;
    } else {
      var r := Strip(s);
      assert !IsSpace(r[0]);
      assert r[0] == l[0] == s[|s| - |l|];
    }
  }

  function LowerChar(c: char): char
  {
    if 'A' <= c <= 'Z' then (c as int + 32) as char else c
  }

  /** Lower-casing of the ASCII letters; other characters are kept. */
  function LowerAscii(s: string): (r: string)
    ensures |r| == |s| && forall k :: 0 <= k < |s| ==> r[k] == LowerChar(s[k])
  {
    seq(|s|, k requires 0 <= k < |s| => LowerChar(s[k]))
  }

  // ---------------------------------------------------------------------------
  // Lines

  /** The line boundaries of Python's `str.splitlines`. */
  predicate IsLineBreak(c: char)
  {
    c == '\n' || c == '\r' || c == '\U{b}' || c == '\U{c}' || c == '\U{1c}' || c == '\U{1d}'
    || c == '\U{1e}' || c == '\U{85}' || c == '\U{2028}' || c == '\U{2029}'
  }

  function FirstBreak(s: string): (k: nat)
    ensures k <= |s|
    ensures k < |s| ==> IsLineBreak(s[k])
    ensures forall j :: 0 <= j < k ==> !IsLineBreak(s[j])
    decreases |s|
  {
    if |s| == 0 then 0 else if IsLineBreak(s[0]) then 0 else 1 + FirstBreak(s[1..])
  }

  /** `s.splitlines()`: "\r\n" is one boundary, and a final boundary adds no empty line. */
  function SplitLines(s: string): (lines: seq<string>)
    ensures forall i, j :: 0 <= i < |lines| && 0 <= j < |lines[i]| ==> !IsLineBreak(lines[i][j])
    decreases |s|
  {
    if |s| == 0 then []
    else
      var k := FirstBreak(s);
      if k == |s| then [s]
      else
        var next := if s[k] == '\r' && k + 1 < |s| && s[k + 1] == '\n' then k + 2 else k + 1;
        [s[..k]] + SplitLines(s[next..])
  }

  // ---------------------------------------------------------------------------
  // Decimal integers

  predicate IsDigit(c: char)
  {
    '0' <= c <= '9'
  }

  predicate AllDigits(s: string)
  {
    forall k :: 0 <= k < |s| ==> IsDigit(s[k])
  }

  /** The length of the run of digits that starts `t`. */
  function DigitRun(t: string): (k: nat)
    ensures k <= |t| && AllDigits(t[..k]) && (k < |t| ==> !IsDigit(t[k]))
    decreases |t|
  {
    if |t| > 0 && IsDigit(t[0]) then
      var k := 1 + DigitRun(t[1..]);
      assert t[..k] == [t[0]] + t[1..][..k - 1];
      k
    else 0
  }

  /** A run of digits followed by a non-digit is read whole. */
  lemma {:induction false} DigitRunOf(d: string, rest: string)
    requires AllDigits(d)
    requires |rest| == 0 || !IsDigit(rest[0])
    ensures DigitRun(d + rest) == |d|
    decreases |d|
  {
    if |d| > 0 {
      assert (d + rest)[1..] == d[1..] + rest;
      DigitRunOf(d[1..], rest);
    } else {
      assert d + rest == rest;
    }
  }

  function DigitChar(d: nat): (c: char)
    requires d < 10
    ensures IsDigit(c) && c as int - '0' as int == d
  {
    ('0' as int + d) as char
  }

  /** Value of a run of decimal digits. */
  function DigitsValue(s: string): nat
    requires AllDigits(s)
    decreases |s|
  {
    if |s| == 0 then 0 else DigitsValue(s[..|s| - 1]) * 10 + (s[|s| - 1] as int - '0' as int)
  }

  /** `str(n)` for a natural number. */
  function NatToString(n: nat): (s: string)
    decreases n
  {
    if n < 10 then [DigitChar(n)] else NatToString(n / 10) + [DigitChar(n % 10)]
  }

  /** `str(n)` / `repr(n)` for a Python int. */
  function IntToString(n: int): string
  {
    if n < 0 then "-" + NatToString(-n) else NatToString(n)
  }

  /** Decimal printing is read back by decimal parsing. */
  lemma {:induction false} NatToStringDigits(n: nat)
    ensures |NatToString(n)| >= 1 && AllDigits(NatToString(n))
    ensures DigitsValue(NatToString(n)) == n
    decreases n
  {
    if n >= 10 {
      NatToStringDigits(n / 10);
      var s := NatToString(n);
      assert s[..|s| - 1] == NatToString(n / 10);
    }
  }

  // ---------------------------------------------------------------------------
  // Python's string order (code point by code point) and sorting

  /** `a < b` on Python strings. */
  predicate Below(a: string, b: string)
    decreases |a|
  {
    if |a| == 0 then |b| > 0
    else if |b| == 0 then false
    else a[0] < b[0] || (a[0] == b[0] && Below(a[1..], b[1..]))
  }

  lemma {:induction false} BelowIrreflexive(a: string)
    ensures !Below(a, a)
    decreases |a|
  {
    if |a| > 0 { BelowIrreflexive(a[1..]); }
  }

  lemma {:induction false} BelowTransitive(a: string, b: string, c: string)
    requires Below(a, b) && Below(b, c)
    ensures Below(a, c)
    decreases |a|
  {
    if |a| > 0 && |b| > 0 && |c| > 0 && a[0] == b[0] == c[0] {
      BelowTransitive(a[1..], b[1..], c[1..]);
    }
  }

  lemma {:induction false} BelowTotal(a: string, b: string)
    requires a != b
    ensures Below(a, b) || Below(b, a)
    decreases |a|
  {
    if |a| > 0 && |b| > 0 && a[0] == b[0] {
      assert a == [a[0]] + a[1..] && b == [b[0]] + b[1..];
      BelowTotal(a[1..], b[1..]);
    }
  }

  lemma BelowAsymmetric(a: string, b: string)
    requires Below(a, b)
    ensures !Below(b, a)
  {
    if Below(b, a) {
      BelowTransitive(a, b, a);
      BelowIrreflexive(a);
    }
  }

  /** Strictly increasing in Python's string order (so also free of duplicates). */
  predicate StrictlySorted(xs: seq<string>)
  {
    forall i, j :: 0 <= i < j < |xs| ==> Below(xs[i], xs[j])
  }

  predicate IsLeast(m: string, s: set<string>)
  {
    m in s && forall x :: x in s && x != m ==> Below(m, x)
  }

  lemma {:induction false} LeastExists(s: set<string>)
    requires s != {}
    ensures exists m :: IsLeast(m, s)
    decreases |s|
  {
    var x :| x in s;
    if s == {x} {
      assert IsLeast(x, s);
    } else {
      LeastExists(s - {x});
      var m :| IsLeast(m, s - {x});
      if Below(m, x) {
        assert IsLeast(m, s);
      } else {
        BelowTotal(m, x);
        forall y | y in s && y != x ensures Below(x, y) {
          if y != m { BelowTransitive(x, m, y); }
        }
        assert IsLeast(x, s);
      }
    }
  }

  /** `sorted(s)` for a set of strings. */
  ghost function SortedElems(s: set<string>): (r: seq<string>)
    ensures |r| == |s|
    ensures forall x :: x in r <==> x in s
    ensures StrictlySorted(r)
    decreases |s|
  {
    if s == {} then []
    else
      LeastExists(s);
      var m :| IsLeast(m, s);
      var rest := SortedElems(s - {m});
      assert forall i :: 0 <= i < |rest| ==> Below(m, rest[i]) by {
        forall i | 0 <= i < |rest| ensures Below(m, rest[i]) {
          assert rest[i] in s - {m};
        }
      }
      [m] + rest
  }

  /** Inserting `x` into a strictly sorted list, keeping one copy of each string. */
  function InsertSorted(x: string, xs: seq<string>): (r: seq<string>)
    requires StrictlySorted(xs)
    ensures StrictlySorted(r)
    ensures forall y :: y in r <==> y == x || y in xs
    decreases |xs|
  {
    if |xs| == 0 then [x]
    else if x == xs[0] then xs
    else if Below(x, xs[0]) then
      assert forall j :: 0 <= j < |xs| ==> Below(x, xs[j]) by {
        forall j | 0 <= j < |xs| ensures Below(x, xs[j]) {
          if j > 0 { BelowTransitive(x, xs[0], xs[j]); }
        }
      }
      [x] + xs
    else
      BelowTotal(x, xs[0]);
      var tail := InsertSorted(x, xs[1..]);
      assert forall j :: 0 <= j < |tail| ==> Below(xs[0], tail[j]) by {
        forall j | 0 <= j < |tail| ensures Below(xs[0], tail[j]) {
          if tail[j] != x {
            assert tail[j] in xs[1..];
            var k :| 0 <= k < |xs[1..]| && xs[1..][k] == tail[j];
            assert xs[k + 1] == tail[j];
          }
        }
      }
      [xs[0]] + tail
  }

  /** `sorted(set(xs))`, computed by insertion. */
  function SortedUnique(xs: seq<string>): (r: seq<string>)
    ensures StrictlySorted(r)
    ensures forall y :: y in r <==> y in xs
    decreases |xs|
  {
    if |xs| == 0 then []
    else
      var r := InsertSorted(xs[|xs| - 1], SortedUnique(xs[..|xs| - 1]));
      assert forall y :: y in xs <==> y in xs[..|xs| - 1] || y == xs[|xs| - 1] by {
        assert xs == xs[..|xs| - 1] + [xs[|xs| - 1]];
      }
      r
  }

  /** Two strictly sorted lists with the same elements are the same list. */
  lemma {:induction false} StrictlySortedUnique(a: seq<string>, b: seq<string>)
    requires StrictlySorted(a) && StrictlySorted(b)
    requires forall x :: x in a <==> x in b
    ensures a == b
    decreases |a|
  {
    assert |a| > 0 ==> a[0] in a;
    assert |b| > 0 ==> b[0] in b;
    if |a| > 0 && |b| > 0 {
      assert a[0] in b && b[0] in a by { assert a[0] in a; assert b[0] in b; }
      if a[0] != b[0] {
        var i :| 0 <= i < |a| && a[i] == b[0];
        var j :| 0 <= j < |b| && b[j] == a[0];
        BelowAsymmetric(a[0], b[0]);
        assert false;
      }
      assert a == [a[0]] + a[1..] && b == [b[0]] + b[1..];
      forall x ensures x in a[1..] <==> x in b[1..] {
        if x in a[1..] {
          var i :| 0 <= i < |a[1..]| && a[1..][i] == x;
          assert Below(a[0], a[i + 1]);
          BelowIrreflexive(x);
          assert x in b;
        }
        if x in b[1..] {
          var i :| 0 <= i < |b[1..]| && b[1..][i] == x;
          assert Below(b[0], b[i + 1]);
          BelowIrreflexive(x);
          assert x in a;
        }
      }
      StrictlySortedUnique(a[1..], b[1..]);
    }
  }

  /** Sorting the list of a set's elements by insertion gives `sorted` of the set. */
  lemma SortedUniqueIsSortedElems(xs: seq<string>)
    ensures SortedUnique(xs) == SortedElems(set x | x in xs)
  {
    StrictlySortedUnique(SortedUnique(xs), SortedElems(set x | x in xs));
  }
}
