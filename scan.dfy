/**
 * The symbol scan: the walk over a library's member tree that yields one
 * symbol record per non-module member, skipping aliases and modules deeper
 * than the chosen depth, together with the hash and row-skipping rules of
 * the index writer. Importing the library, loading its member tree,
 * inspecting signatures and docstrings and writing the database are not
 * part of this model: the member tree is an input and the records are the
 * output.
 */
module Scan {
  import opened Strs

  // ---------------------------------------------------------------------------
  // Depth limits

  /** A module depth limit; `Unlimited` stands for `math.inf`. */
  datatype Limit = AtMost(n: nat) | Unlimited

  /** The number of dotted parts of a path. */
  function PathDepth(path: string): nat
  {
    |Split(path, '.')|
  }

  /** `max_mod_depth`: the library's own depth for `light`, one more for `mid`, no limit otherwise. */
  function MaxModDepth(libName: string, depth: string): (lim: Limit)
    ensures depth == "light" ==> lim == AtMost(PathDepth(libName))
    ensures depth == "mid" ==> lim == AtMost(PathDepth(libName) + 1)
    ensures depth != "light" && depth != "mid" ==> lim == Unlimited
  {
    if depth == "light" then AtMost(PathDepth(libName))
    else if depth == "mid" then AtMost(PathDepth(libName) + 1)
    else Unlimited
  }

  predicate TooDeep(d: nat, lim: Limit)
  {
    lim.AtMost? && d > lim.n
  }

  /** `a` is no tighter a limit than `b` allows. */
  predicate Looser(a: Limit, b: Limit)
  {
    a.Unlimited? || (b.AtMost? && b.n <= a.n)
  }

  /** `light` is the tightest limit and `full` the loosest; an unknown depth is `full`. */
  lemma DepthOrder(libName: string, other: string)
    requires other !in {"light", "mid"}
    ensures Looser(MaxModDepth(libName, "mid"), MaxModDepth(libName, "light"))
    ensures Looser(MaxModDepth(libName, "full"), MaxModDepth(libName, "mid"))
    ensures MaxModDepth(libName, other) == MaxModDepth(libName, "full")
    ensures forall d: nat :: !TooDeep(d, MaxModDepth(libName, "full"))
  {
  }

  // ---------------------------------------------------------------------------
  // The member tree and its records

  /**
   * A member of the loaded tree: its kind (`module`, `package`, `alias`,
   * `class`, `function`, ...), its path (missing for the root), the paths of
   * its module and parent (when it has them) and its members in order.
   */
  datatype Member = Member(kind: string, path: Option<string>, modulePath: Option<string>,
                           parentPath: Option<string>, members: seq<Member>)

  /** One symbol row. */
  datatype SymbolRecord = SymbolRecord(qualname: string, objtype: string, modulePath: string,
                                       owner: Option<string>, isPublic: bool)

  /** A segment is private when it starts with `_`. */
  predicate PrivateSegment(part: string)
  {
    StartsWith(part, "_")
  }

  /** `is_public`: no dotted segment of the name is private. */
  predicate IsPublic(qualname: string)
  {
    var parts := Split(qualname, '.');
    !exists k :: 0 <= k < |parts| && PrivateSegment(parts[k])
  }

  function IsModule(m: Member): bool
  {
    m.kind in {"module", "package"}
  }

  /** The record of a non-module member. */
  function RecordOf(libName: string, m: Member): SymbolRecord
  {
    var qualname := if m.path.Some? then m.path.value else libName;
    var modPath := if m.modulePath.Some? then m.modulePath.value else libName;
    SymbolRecord(qualname, m.kind, modPath, m.parentPath, IsPublic(qualname))
  }

  /** `walk`: aliases give nothing, modules within the limit give their members' records, others one record. */
  function Walk(libName: string, lim: Limit, m: Member): seq<SymbolRecord>
    decreases m, 1
  {
    if m.kind == "alias" then []
    else if IsModule(m) then
      var path := if m.path.Some? then m.path.value else libName;
      if TooDeep(PathDepth(path), lim) then [] else WalkAll(libName, lim, m.members)
    else [RecordOf(libName, m)]
  }

  /** The walks of several members, in order. */
  function WalkAll(libName: string, lim: Limit, ms: seq<Member>): seq<SymbolRecord>
    decreases ms, 0
  {
    if |ms| == 0 then [] else Walk(libName, lim, ms[0]) + WalkAll(libName, lim, ms[1..])
  }

  lemma {:induction false} WalkAllAppend(libName: string, lim: Limit, ms: seq<Member>, m: Member)
    ensures WalkAll(libName, lim, ms + [m]) == WalkAll(libName, lim, ms) + Walk(libName, lim, m)
    decreases |ms|
  {
    if |ms| == 0 {
      assert WalkAll(libName, lim, [m][1..]) == [];
    } else {
      assert (ms + [m])[1..] == ms[1..] + [m];
      WalkAllAppend(libName, lim, ms[1..], m);
    }
  }

  /** `scan_library` without the database: the records of the root's members, walked in order. */
  method ScanLibrary(libName: string, depth: string, rootMembers: seq<Member>) returns (records: seq<SymbolRecord>)
    ensures records == WalkAll(libName, MaxModDepth(libName, depth), rootMembers)
  {
    var lim := MaxModDepth(libName, depth);
    records := [];
    var i := 0;
    while i < |rootMembers|
      invariant 0 <= i <= |rootMembers|
      invariant records == WalkAll(libName, lim, rootMembers[..i])
    {
      WalkAllAppend(libName, lim, rootMembers[..i], rootMembers[i]);
      assert rootMembers[..i + 1] == rootMembers[..i] + [rootMembers[i]];
      records := records + Walk(libName, lim, rootMembers[i]);
      i := i + 1;
    }
    assert rootMembers[..i] == rootMembers;
  }

  // ---------------------------------------------------------------------------
  // What the records are

  /** A record as the walk writes it: never for an alias or a module, and public exactly when its name is. */
  predicate WellFormed(r: SymbolRecord)
  {
    r.objtype != "alias" && r.objtype !in {"module", "package"} && r.isPublic == IsPublic(r.qualname)
  }

  lemma {:induction false} WalkWellFormed(libName: string, lim: Limit, m: Member)
    ensures forall r :: r in Walk(libName, lim, m) ==> WellFormed(r)
    decreases m, 1
  {
    if m.kind != "alias" && IsModule(m) {
      WalkAllWellFormed(libName, lim, m.members);
    }
  }

  /** Every record of a walk is well formed. */
  lemma {:induction false} WalkAllWellFormed(libName: string, lim: Limit, ms: seq<Member>)
    ensures forall r :: r in WalkAll(libName, lim, ms) ==> WellFormed(r)
    decreases ms, 0
  {
    if |ms| > 0 {
      WalkWellFormed(libName, lim, ms[0]);
      WalkAllWellFormed(libName, lim, ms[1..]);
    }
  }

  lemma {:induction false} WalkMonotone(libName: string, a: Limit, b: Limit, m: Member)
    requires Looser(a, b)
    ensures forall r :: r in Walk(libName, b, m) ==> r in Walk(libName, a, m)
    decreases m, 1
  {
    if m.kind != "alias" && IsModule(m) {
      WalkAllMonotone(libName, a, b, m.members);
    }
  }

  /**
   * A looser depth limit loses no record: whatever a tighter limit finds, a
   * looser one finds too, so `light` finds a subset of `mid` and `mid` of
   * `full`.
   */
  lemma {:induction false} WalkAllMonotone(libName: string, a: Limit, b: Limit, ms: seq<Member>)
    requires Looser(a, b)
    ensures forall r :: r in WalkAll(libName, b, ms) ==> r in WalkAll(libName, a, ms)
    decreases ms, 0
  {
    if |ms| > 0 {
      WalkMonotone(libName, a, b, ms[0]);
      WalkAllMonotone(libName, a, b, ms[1..]);
    }
  }

  /** An alias member and a module beyond the limit give no record, whatever they contain. */
  lemma SkippedSubtrees(libName: string, lim: Limit, m: Member, inner: seq<Member>)
    requires m.kind == "alias" || (IsModule(m) && TooDeep(PathDepth(if m.path.Some? then m.path.value else libName), lim))
    ensures Walk(libName, lim, m) == [] && Walk(libName, lim, m.(members := inner)) == []
  {
  }

  // ---------------------------------------------------------------------------
  // Public names

  /** An underscore at the start of the name or right after a dot. */
  predicate UnderscoreStartsSegment(s: string)
  {
    exists i :: 0 <= i < |s| && s[i] == '_' && (i == 0 || s[i - 1] == '.')
  }

  lemma FirstSegment(s: string)
    ensures PrivateSegment(Split(s, '.')[0]) <==> |s| > 0 && s[0] == '_'
  {
    if |s| > 0 && s[0] != '.' {
      var first := Split(s, '.')[0];
      assert first[0] == s[0];
    }
  }

  /** Some segment after the first is private. */
  predicate LaterPrivate(s: string)
  {
    var parts := Split(s, '.');
    exists k :: 1 <= k < |parts| && PrivateSegment(parts[k])
  }

  /** Some `_` follows a dot. */
  predicate UnderscoreAfterDot(s: string)
  {
    exists i :: 1 <= i < |s| && s[i] == '_' && s[i - 1] == '.'
  }

  lemma {:induction false} LaterSegments(s: string)
    ensures LaterPrivate(s) <==> UnderscoreAfterDot(s)
    decreases |s|
  {
    if |s| > 0 {
      LaterSegments(s[1..]);
      FirstSegment(s[1..]);
      if s[0] == '.' {
        LaterAfterDot(s);
      } else {
        LaterAfterOther(s);
      }
    }
  }

  lemma LaterAfterDot(s: string)
    requires |s| > 0 && s[0] == '.'
    requires LaterPrivate(s[1..]) <==> UnderscoreAfterDot(s[1..])
    requires PrivateSegment(Split(s[1..], '.')[0]) <==> |s[1..]| > 0 && s[1..][0] == '_'
    ensures LaterPrivate(s) <==> UnderscoreAfterDot(s)
  {
    var t := s[1..];
    var rest := Split(t, '.');
    var parts := Split(s, '.');
    assert parts == [""] + rest;
    if LaterPrivate(s) {
      var k :| 1 <= k < |parts| && PrivateSegment(parts[k]);
      assert parts[k] == rest[k - 1];
      if k == 1 {
        assert s[1] == '_' && s[0] == '.';
      } else {
        assert LaterPrivate(t);
        var j :| 1 <= j < |t| && t[j] == '_' && t[j - 1] == '.';
        assert s[j + 1] == '_' && s[j] == '.';
      }
    }
    if UnderscoreAfterDot(s) {
      var i :| 1 <= i < |s| && s[i] == '_' && s[i - 1] == '.';
      if i == 1 {
        assert t[0] == '_';
        assert PrivateSegment(parts[1]);
      } else {
        assert t[i - 1] == '_' && t[i - 2] == '.';
        assert UnderscoreAfterDot(t);
        var k :| 1 <= k < |rest| && PrivateSegment(rest[k]);
        assert PrivateSegment(parts[k + 1]);
      }
    }
  }

  lemma LaterAfterOther(s: string)
    requires |s| > 0 && s[0] != '.'
    requires LaterPrivate(s[1..]) <==> UnderscoreAfterDot(s[1..])
    ensures LaterPrivate(s) <==> UnderscoreAfterDot(s)
  {
    var t := s[1..];
    var rest := Split(t, '.');
    var parts := Split(s, '.');
    assert parts == [[s[0]] + rest[0]] + rest[1..];
    assert forall k :: 1 <= k < |parts| ==> parts[k] == rest[k];
    if LaterPrivate(s) {
      var k :| 1 <= k < |parts| && PrivateSegment(parts[k]);
      assert PrivateSegment(rest[k]);
      assert LaterPrivate(t);
      var j :| 1 <= j < |t| && t[j] == '_' && t[j - 1] == '.';
      assert s[j + 1] == '_' && s[j] == '.';
    }
    if UnderscoreAfterDot(s) {
      var i :| 1 <= i < |s| && s[i] == '_' && s[i - 1] == '.';
      assert i >= 2;
      assert t[i - 1] == '_' && t[i - 2] == '.';
      assert UnderscoreAfterDot(t);
      var k :| 1 <= k < |rest| && PrivateSegment(rest[k]);
      assert PrivateSegment(parts[k]);
    }
  }

  /** A name is public exactly when no `_` starts it or follows one of its dots. */
  lemma PublicIff(qualname: string)
    ensures IsPublic(qualname) <==> !UnderscoreStartsSegment(qualname)
  {
    FirstSegment(qualname);
    LaterSegments(qualname);
    var parts := Split(qualname, '.');
    if exists k :: 0 <= k < |parts| && PrivateSegment(parts[k]) {
      var k :| 0 <= k < |parts| && PrivateSegment(parts[k]);
      if k == 0 {
        assert qualname[0] == '_';
      }
    }
  }

  // ---------------------------------------------------------------------------
  // Hashes and skipped rows

  /** `_hash`: the digest of a non-empty text; the digest function is an input. */
  function Hash(s: Option<string>, digest: string -> string): (r: Option<string>)
    ensures r.None? <==> s.None? || s.value == ""
    ensures r.Some? ==> r.value == digest(s.value)
  {
    if s.Some? && s.value != "" then Some(digest(s.value)) else None
  }

  /** The library's hash covers `name:version` and is always present. */
  lemma LibraryHashPresent(name: string, version: Option<string>, digest: string -> string)
    ensures var v := if version.Some? then version.value else "";
      Hash(Some(name + ":" + v), digest) == Some(digest(name + ":" + v))
  {
    var v := if version.Some? then version.value else "";
    assert |name + ":" + v| > 0;
  }

  predicate Falsy(s: Option<string>)
  {
    s.None? || s.value == ""
  }

  /** `_insert_signature`: the row to write, or none when every field is missing or empty. */
  function SignatureRow(signature: Option<string>, paramsJson: Option<string>, returnsText: Option<string>)
    : (row: Option<(Option<string>, Option<string>, Option<string>)>)
    ensures row.None? <==> Falsy(signature) && Falsy(paramsJson) && Falsy(returnsText)
    ensures row.Some? ==> row.value == (signature, paramsJson, returnsText)
  {
    if Falsy(signature) && Falsy(paramsJson) && Falsy(returnsText) then None
    else Some((signature, paramsJson, returnsText))
  }

  /** `_insert_docstring`: the row to write, or none without a raw docstring. */
  function DocstringRow(summary: Option<string>, paramsJson: Option<string>, returnsJson: Option<string>,
                        raw: Option<string>): (row: Option<(Option<string>, Option<string>, Option<string>, string)>)
    ensures row.None? <==> Falsy(raw)
    ensures row.Some? ==> row.value == (summary, paramsJson, returnsJson, raw.value)
  {
    if Falsy(raw) then None else Some((summary, paramsJson, returnsJson, raw.value))
  }
}
