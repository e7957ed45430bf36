/**
 * Card synthesis from scanned symbols: the label heuristics (last
 * identifier, first type token, stop and mutation guesses), the parameter
 * domains and requiredness, and the text of one card. Reading the symbol
 * database and decoding the parameter JSON are not part of this model: the
 * decoded parameter records are an input.
 */
module SynthCards {
  import opened Strs
  import opened PyValues
  import opened JsonText

  // ---------------------------------------------------------------------------
  // Small helpers

  /** `q`: a JSON string, or `null` for a missing one. */
  function Q(s: Option<string>): string
  {
    if s.Some? then Quote(s.value) else "null"
  }

  /** `[f(x) for x in xs]` */
  function Map<A, B>(xs: seq<A>, f: A -> B): (ys: seq<B>)
    ensures |ys| == |xs|
    ensures forall k :: 0 <= k < |xs| ==> ys[k] == f(xs[k])
  {
    if |xs| == 0 then [] else Map(xs[..|xs| - 1], f) + [f(xs[|xs| - 1])]
  }

  /** One more element adds its image at the end. */
  lemma MapStep<A, B>(xs: seq<A>, i: nat, f: A -> B)
    requires i < |xs|
    ensures Map(xs[..i + 1], f) == Map(xs[..i], f) + [f(xs[i])]
  {
    assert xs[..i + 1][..i] == xs[..i];
  }

  /** `last_id_part`: the text after the last `.`, or `None` for a missing or empty name. */
  function LastIdPart(qual: Option<string>): Option<string>
  {
    if qual.None? || qual.value == "" then None else Some(LastPart(qual.value, '.'))
  }

  /**
   * The last identifier is missing exactly for a missing or empty name; it
   * holds no `.` and is what follows the last `.` (the whole name when there
   * is none).
   */
  lemma LastIdPartSpec(qual: Option<string>)
    ensures var r := LastIdPart(qual);
      && (r.None? <==> qual.None? || qual.value == "")
      && (r.Some? ==> '.' !in r.value)
      && (r.Some? && '.' in qual.value ==> BeforeLast(qual.value, '.') + "." + r.value == qual.value)
      && (r.Some? && '.' !in qual.value ==> r.value == qual.value)
  {
    if qual.Some? && qual.value != "" {
      LastCut(qual.value, '.');
    }
  }

  predicate IdentStart(c: char)
  {
    'A' <= c <= 'Z' || 'a' <= c <= 'z' || c == '_'
  }

  predicate IdentChar(c: char)
  {
    IdentStart(c) || '0' <= c <= '9'
  }

  /** The length of the run of identifier characters that starts `t`. */
  function IdentRun(t: string): (k: nat)
    ensures k <= |t|
    ensures forall j :: 0 <= j < k ==> IdentChar(t[j])
    ensures k < |t| ==> !IdentChar(t[k])
    decreases |t|
  {
    if |t| == 0 || !IdentChar(t[0]) then 0 else 1 + IdentRun(t[1..])
  }

  /** The first match of `[A-Za-z_][A-Za-z0-9_]*` in `t`. */
  function FirstIdent(t: string): (r: Option<string>)
    ensures r.Some? ==> |r.value| >= 1
    decreases |t|
  {
    if |t| == 0 then None
    else if IdentStart(t[0]) then Some(t[..IdentRun(t)])
    else FirstIdent(t[1..])
  }

  /**
   * There is a token iff some character can start one; the token then
   * starts at the first such character, holds identifier characters only,
   * and runs as far as they go.
   */
  lemma {:induction false} FirstIdentSpec(t: string)
    ensures var r := FirstIdent(t);
      && (r.None? <==> forall k :: 0 <= k < |t| ==> !IdentStart(t[k]))
      && (r.Some? ==> exists i :: 0 <= i && i + |r.value| <= |t| && TokenAt(t, i, r.value))
    decreases |t|
  {
    if |t| > 0 {
      if IdentStart(t[0]) {
        assert TokenAt(t, 0, t[..IdentRun(t)]);
      } else {
        FirstIdentSpec(t[1..]);
        var r := FirstIdent(t[1..]);
        assert forall k :: 1 <= k < |t| ==> t[k] == t[1..][k - 1];
        if r.Some? {
          var i :| 0 <= i && i + |r.value| <= |t[1..]| && TokenAt(t[1..], i, r.value);
          assert t[i + 1..i + 1 + |r.value|] == t[1..][i..i + |r.value|];
          assert TokenAt(t, i + 1, r.value);
        }
      }
    }
  }

  /**
   * `tok` is the token found at position `i` of `t`: no character before `i`
   * can start a token, `tok` starts with one, holds identifier characters
   * only and is followed by none.
   */
  predicate TokenAt(t: string, i: nat, tok: string)
    requires i + |tok| <= |t|
  {
    && t[i..i + |tok|] == tok
    && |tok| >= 1 && IdentStart(tok[0])
    && (forall j :: 0 <= j < i ==> !IdentStart(t[j]))
    && (forall j :: 0 <= j < |tok| ==> IdentChar(tok[j]))
    && (i + |tok| == |t| || !IdentChar(t[i + |tok|]))
  }

  /** `normalize_type`: the first identifier token of the text, or `None`. */
  function NormalizeType(text: Option<string>): Option<string>
  {
    if text.None? || text.value == "" then None else FirstIdent(text.value)
  }

  /**
   * A generic annotation such as `Optional[X]` is named by its outer type:
   * an identifier followed by text that does not continue it.
   */
  lemma NormalizeGeneric(name: string, rest: string)
    requires |name| >= 1 && IdentStart(name[0])
    requires forall j :: 0 <= j < |name| ==> IdentChar(name[j])
    requires |rest| > 0 && !IdentChar(rest[0])
    ensures NormalizeType(Some(name + rest)) == Some(name)
  {
    IdentRunPrefix(name, rest);
    var t := name + rest;
    assert t[0] == name[0];
    assert t[..|name|] == name;
  }

  /** The identifier run of an identifier followed by a non-identifier character is that identifier. */
  lemma {:induction false} IdentRunPrefix(name: string, rest: string)
    requires forall j :: 0 <= j < |name| ==> IdentChar(name[j])
    requires |rest| > 0 && !IdentChar(rest[0])
    ensures IdentRun(name + rest) == |name|
    decreases |name|
  {
    if |name| == 0 {
      assert name + rest == rest;
    } else {
      IdentRunPrefix(name[1..], rest);
      assert (name + rest)[1..] == name[1..] + rest;
    }
  }

  // ---------------------------------------------------------------------------
  // Parameters

  /**
   * One decoded parameter record: its name and annotation (`None` when
   * missing or null), its default (`VNone` when missing) and its kind
   * (`VStr("")` when missing).
   */
  datatype RawParam = RawParam(name: Option<string>, annotation: Option<string>, default: Value, kind: Value)

  /** A synthesized parameter: name, domain, requiredness and default text. */
  datatype SynthParam = SynthParam(name: string, domain: string, required: bool, default: Option<string>)

  /** The default as text; a missing default and `inspect._empty` count as none. */
  function DefaultText(raw: Value): Option<string>
  {
    if raw == VNone || raw == VStr("inspect._empty") then None else Some(Str(raw))
  }

  /** The domain guess: the first rule that fires, in a fixed order. */
  function Domain(name: string, annotation: string): string
  {
    var a := LowerAscii(annotation);
    if Contains(a, "bool") || name in {"inplace", "ascending"} then "bool"
    else if Contains(a, "int") then "int"
    else if Contains(a, "float") then "float"
    else if Contains(a, "str") || name in {"by", "on", "columns", "subset", "keys"} then "str|list[str]"
    else if Contains(a, "list") || Contains(a, "sequence") || Contains(a, "iterable") then "list[any]"
    else if Contains(a, "dict") || Contains(a, "mapping") then "dict"
    else if Contains(LowerAscii(name), "axis") then "enum[axis]"
    else "any"
  }

  /** One parameter of `infer_params`. */
  function InferParam(p: RawParam): SynthParam
  {
    var name := if p.name.Some? then p.name.value else "";
    var annotation := if p.annotation.Some? then p.annotation.value else "";
    var default := DefaultText(p.default);
    var kind := Str(p.kind);
    var required := default.None? && (Contains(kind, "POSITIONAL") || Contains(kind, "KEYWORD"));
    SynthParam(name, Domain(name, annotation), required, default)
  }

  /**
   * `infer_params` on the decoded list (`None` when the text is missing or
   * not JSON): one synthesized parameter per record, in order.
   */
  method InferParams(decoded: Option<seq<RawParam>>) returns (out: seq<SynthParam>)
    ensures decoded.None? ==> out == []
    ensures decoded.Some? ==> out == Map(decoded.value, InferParam)
  {
    out := [];
    if decoded.None? {
      return;
    }
    var params := decoded.value;
    var k := 0;
    while k < |params|
      invariant 0 <= k <= |params|
      invariant out == Map(params[..k], InferParam)
    {
      MapStep(params, k, InferParam);
      out := out + [InferParam(params[k])];
      k := k + 1;
    }
    assert params[..k] == params;
  }

  /** The kinds Python's `inspect` gives a parameter. */
  const Kinds: seq<string> := ["POSITIONAL_ONLY", "POSITIONAL_OR_KEYWORD", "VAR_POSITIONAL", "KEYWORD_ONLY", "VAR_KEYWORD"]

  /**
   * Every parameter kind counts as required when there is no default, the
   * `*args` and `**kwargs` kinds included; `inspect._empty` is no default;
   * any real default makes a parameter optional.
   */
  lemma RequiredKinds(p: RawParam)
    requires p.kind.VStr? && p.kind.s in Kinds
    ensures InferParam(p).required <==> p.default == VNone || p.default == VStr("inspect._empty")
  {
    KindsNamed(p.kind.s);
  }

  /** Every kind names a positional or a keyword parameter. */
  lemma KindsNamed(s: string)
    requires s in Kinds
    ensures Contains(s, "POSITIONAL") || Contains(s, "KEYWORD")
  {
    if s == "POSITIONAL_ONLY" || s == "POSITIONAL_OR_KEYWORD" {
      assert s[..10] == "POSITIONAL";
      ContainsAt(s, "POSITIONAL", 0);
    } else if s == "VAR_POSITIONAL" {
      assert s[4..14] == "POSITIONAL";
      ContainsAt(s, "POSITIONAL", 4);
    } else if s == "KEYWORD_ONLY" {
      assert s[..7] == "KEYWORD";
      ContainsAt(s, "KEYWORD", 0);
    } else {
      assert s == "VAR_KEYWORD";
      assert s[4..11] == "KEYWORD";
      ContainsAt(s, "KEYWORD", 4);
    }
  }

  /** A text in which the first letter of `w` does not occur does not contain `w`. */
  lemma Lacks(s: string, w: string)
    requires |w| > 0 && w[0] !in s
    ensures !Contains(s, w)
  {
    forall j ensures !OccursAt(s, w, j) {
      if 0 <= j && j + |w| <= |s| {
        assert s[j..j + |w|][0] == s[j];
        assert s[j] in s;
      }
    }
  }

  /**
   * The domain rules in order: `inplace` and `ascending` are flags whatever
   * their annotation; the column-like names take one or more columns unless
   * the annotation says bool, int or float; an unannotated parameter whose
   * name mentions an axis is an axis choice, and one that matches no rule
   * takes anything.
   */
  lemma DomainRules(name: string, annotation: string)
    ensures name in {"inplace", "ascending"} ==> Domain(name, annotation) == "bool"
    ensures var a := LowerAscii(annotation);
      (name in {"by", "on", "columns", "subset", "keys"} && !Contains(a, "bool") && !Contains(a, "int") && !Contains(a, "float"))
      ==> Domain(name, annotation) == "str|list[str]"
    ensures annotation == "" && name !in {"inplace", "ascending", "by", "on", "columns", "subset", "keys"} ==>
      Domain(name, annotation) == (if Contains(LowerAscii(name), "axis") then "enum[axis]" else "any")
  {
    if annotation == "" {
      var a := LowerAscii(annotation);
      assert a == "";
      Lacks(a, "bool"); Lacks(a, "int"); Lacks(a, "float"); Lacks(a, "str");
      Lacks(a, "list"); Lacks(a, "sequence"); Lacks(a, "iterable");
      Lacks(a, "dict"); Lacks(a, "mapping");
    }
  }

  // ---------------------------------------------------------------------------
  // Labels

  /** `infer_accepts`: the owner's last identifier. */
  function InferAccepts(owner: Option<string>): Option<string>
  {
    LastIdPart(owner)
  }

  /** `infer_returns`: the return annotation's first token, else the owner's last identifier. */
  function InferReturns(qualname: string, owner: Option<string>, returnsText: Option<string>): Option<string>
  {
    var t := NormalizeType(returnsText);
    if t.Some? && t.value != "" then t else LastIdPart(owner)
  }

  /**
   * The return label comes from the annotation whenever it has a token, and
   * otherwise from the owner.
   */
  lemma InferReturnsSpec(qualname: string, owner: Option<string>, returnsText: Option<string>)
    ensures NormalizeType(returnsText).Some? ==> InferReturns(qualname, owner, returnsText) == NormalizeType(returnsText)
    ensures NormalizeType(returnsText).None? ==> InferReturns(qualname, owner, returnsText) == LastIdPart(owner)
  {
  }

  /** The label endings of intermediate objects. */
  const Intermediates: seq<string> := ["GroupBy", "Iterator", "Generator", "Cursor", "Builder"]

  /**
   * `re.search("(GroupBy|Iterator|Generator|Cursor|Builder)$", label)`: `$`
   * also matches before a final newline.
   */
  predicate IntermediateLabel(lbl: string)
  {
    exists k :: 0 <= k < |Intermediates| &&
      (EndsWith(lbl, Intermediates[k]) || EndsWith(lbl, Intermediates[k] + "\n"))
  }

  /** `infer_is_stop` */
  function InferIsStop(qualname: string, returnsLabel: Option<string>): bool
  {
    if returnsLabel.None? || returnsLabel.value == "" then false
    else if IntermediateLabel(returnsLabel.value) then false
    else LowerAscii(LastPart(qualname, '.')) !in {"groupby", "builder", "cursor"}
  }

  /**
   * Only a present label can stop a chain; a group-by result is never a stop,
   * not even with a trailing newline, and neither is a call named
   * `groupby` in any letter case.
   */
  lemma IsStopRules(qualname: string, returnsLabel: Option<string>)
    ensures InferIsStop(qualname, returnsLabel) ==> returnsLabel.Some? && returnsLabel.value != ""
    ensures !InferIsStop(qualname, Some("DataFrameGroupBy"))
    ensures !InferIsStop(qualname, Some("DataFrameGroupBy\n"))
    ensures LastPart(qualname, '.') == "GroupBy" ==> !InferIsStop(qualname, returnsLabel)
  {
    var g := "DataFrameGroupBy";
    assert EndsWith(g, Intermediates[0]) by { assert g[|g| - 7..] == "GroupBy"; }
    assert EndsWith(g + "\n", Intermediates[0] + "\n") by { assert (g + "\n")[|g| - 7..] == "GroupBy\n"; }
    if LastPart(qualname, '.') == "GroupBy" {
      assert LowerAscii("GroupBy") == "groupby";
    }
  }

  /** `infer_mutates`: `False` when some parameter is named `inplace`, else unknown. */
  function InferMutates(params: seq<SynthParam>): Option<bool>
  {
    if exists k :: 0 <= k < |params| && params[k].name == "inplace" then Some(false) else None
  }

  /** Mutation is never asserted: it is denied exactly when an `inplace` parameter exists. */
  lemma InferMutatesSpec(params: seq<SynthParam>)
    ensures InferMutates(params) != Some(true)
    ensures InferMutates(params) == Some(false) <==> exists p :: p in params && p.name == "inplace"
  {
    if exists p :: p in params && p.name == "inplace" {
      var p :| p in params && p.name == "inplace";
      var k :| 0 <= k < |params| && params[k] == p;
    }
  }

  // ---------------------------------------------------------------------------
  // Card text

  function BoolText(b: bool): string
  {
    if b then "true" else "false"
  }

  /** One parameter as `(name,domain,required,default)`. */
  function ParamItem(p: SynthParam): string
  {
    "(" + Q(Some(p.name)) + "," + Q(Some(p.domain)) + "," + BoolText(p.required) + "," + Q(p.default) + ")"
  }

  function ArgsLine(params: seq<SynthParam>): string
  {
    "  pre.args = [ " + Join(", ", seq(|params|, k requires 0 <= k < |params| => ParamItem(params[k]))) + " ];"
  }

  function StopLine(isStop: bool): string
  {
    "  post.is_valid_stop = " + BoolText(isStop) + ";"
  }

  /** The optional fact lines: each is there only when its fact is present. */
  function AcceptsLines(accepts: Option<string>): seq<string>
  {
    if accepts.Some? && accepts.value != "" then ["  pre.accepts = " + Q(accepts) + ";"] else []
  }

  function ArgsLines(params: seq<SynthParam>): seq<string>
  {
    if |params| > 0 then [ArgsLine(params)] else []
  }

  function ReturnsLines(returnsLabel: Option<string>): seq<string>
  {
    if returnsLabel.Some? && returnsLabel.value != "" then ["  post.returns = " + Q(returnsLabel) + ";"] else []
  }

  function MutatesLines(mutates: Option<bool>): seq<string>
  {
    if mutates.Some? then ["  post.mutates_input = " + BoolText(mutates.value) + ";"] else []
  }

  /** The lines of a card: header, the present facts in a fixed order, the stop fact and the closing brace. */
  function CardLines(qualname: string, profile: string, accepts: Option<string>, params: seq<SynthParam>,
                     returnsLabel: Option<string>, mutates: Option<bool>, isStop: bool): seq<string>
  {
    ["card " + qualname + " : " + profile + " {"] + AcceptsLines(accepts) + ArgsLines(params)
    + ReturnsLines(returnsLabel) + MutatesLines(mutates) + [StopLine(isStop), "}\n"]
  }

  /** `card_block`: the lines, appended one by one, joined by newlines. */
  method CardBlock(qualname: string, profile: string, accepts: Option<string>, params: seq<SynthParam>,
                   returnsLabel: Option<string>, mutates: Option<bool>, isStop: bool) returns (text: string)
    ensures text == Join("\n", CardLines(qualname, profile, accepts, params, returnsLabel, mutates, isStop))
  {
    var header := ["card " + qualname + " : " + profile + " {"];
    var lines := header;
    if accepts.Some? && accepts.value != "" {
      lines := lines + ["  pre.accepts = " + Q(accepts) + ";"];
    }
    assert lines == header + AcceptsLines(accepts);
    if |params| > 0 {
      lines := lines + [ArgsLine(params)];
    }
    assert lines == header + AcceptsLines(accepts) + ArgsLines(params);
    if returnsLabel.Some? && returnsLabel.value != "" {
      lines := lines + ["  post.returns = " + Q(returnsLabel) + ";"];
    }
    assert lines == header + AcceptsLines(accepts) + ArgsLines(params) + ReturnsLines(returnsLabel);
    if mutates.Some? {
      lines := lines + ["  post.mutates_input = " + BoolText(mutates.value) + ";"];
    }
    assert lines == header + AcceptsLines(accepts) + ArgsLines(params) + ReturnsLines(returnsLabel) + MutatesLines(mutates);
    lines := lines + [StopLine(isStop), "}\n"];
    text := Join("\n", lines);
  }

  /**
   * A card has its header first, its stop fact and closing brace last, and
   * one line for each fact that is present: the accepts label, the
   * arguments, the return label and the mutation flag.
   */
  lemma CardLinesSpec(qualname: string, profile: string, accepts: Option<string>, params: seq<SynthParam>,
                      returnsLabel: Option<string>, mutates: Option<bool>, isStop: bool)
    ensures var lines := CardLines(qualname, profile, accepts, params, returnsLabel, mutates, isStop);
      && lines[0] == "card " + qualname + " : " + profile + " {"
      && lines[|lines| - 2] == StopLine(isStop)
      && lines[|lines| - 1] == "}\n"
      && |lines| == 3 + (if accepts.Some? && accepts.value != "" then 1 else 0) + (if |params| > 0 then 1 else 0)
                      + (if returnsLabel.Some? && returnsLabel.value != "" then 1 else 0) + (if mutates.Some? then 1 else 0)
  {
  }

  /** A card's text opens with its header line and closes with the stop fact and the brace. */
  lemma CardBlockEnds(qualname: string, profile: string, accepts: Option<string>, params: seq<SynthParam>,
                      returnsLabel: Option<string>, mutates: Option<bool>, isStop: bool)
    ensures var text := Join("\n", CardLines(qualname, profile, accepts, params, returnsLabel, mutates, isStop));
      && StartsWith(text, "card " + qualname + " : " + profile + " {\n")
      && EndsWith(text, "\n" + StopLine(isStop) + "\n}\n")
  {
    var head := "card " + qualname + " : " + profile + " {";
    var mid := AcceptsLines(accepts) + ArgsLines(params) + ReturnsLines(returnsLabel) + MutatesLines(mutates);
    var lines := CardLines(qualname, profile, accepts, params, returnsLabel, mutates, isStop);
    var a, b, c, d := AcceptsLines(accepts), ArgsLines(params), ReturnsLines(returnsLabel), MutatesLines(mutates);
    var tail := [StopLine(isStop), "}\n"];
    assert lines == [head] + a + b + c + d + tail;
    Regroup([head], a, b, c, d, tail);
    CardTextFrame(lines, head, mid, StopLine(isStop));
    assert head + "\n" == "card " + qualname + " : " + profile + " {\n";
  }

  lemma Regroup<T>(h: seq<T>, a: seq<T>, b: seq<T>, c: seq<T>, d: seq<T>, t: seq<T>)
    ensures h + a + b + c + d + t == h + ((a + b + c + d) + t)
  {
  }

  lemma CardTextFrame(lines: seq<string>, head: string, mid: seq<string>, stop: string)
    requires lines == [head] + (mid + [stop, "}\n"])
    ensures StartsWith(Join("\n", lines), head + "\n")
    ensures EndsWith(Join("\n", lines), "\n" + stop + "\n}\n")
  {
    var rest := mid + [stop, "}\n"];
    var j := Join("\n", [head] + mid + [stop]);
    assert [head] + rest == ([head] + mid + [stop]) + ["}\n"];
    JoinAppend("\n", [head] + mid + [stop], "}\n");
    JoinAppend("\n", [head] + mid, stop);
    var front := Join("\n", [head] + mid);
    var text := Join("\n", [head] + rest);
    assert text == front + "\n" + stop + "\n" + "}\n";
    assert text == front + ("\n" + stop + "\n}\n");
    Ends(front, "\n" + stop + "\n}\n");
    JoinFront("\n", head, rest);
    assert text == head + "\n" + Join("\n", rest);
    Ends(head + "\n", Join("\n", rest));
  }

  // ---------------------------------------------------------------------------
  // One card per symbol

  /** One public symbol row: its qualified name, owner, decoded parameters and return annotation. */
  datatype SymbolRow = SymbolRow(qualname: string, owner: Option<string>, params: Option<seq<RawParam>>,
                                 returnsText: Option<string>)

  function RowParams(r: SymbolRow): seq<SynthParam>
  {
    if r.params.None? then [] else Map(r.params.value, InferParam)
  }

  /** The card of one row, with profile `auto` and every label inferred. */
  function RowCard(r: SymbolRow): string
  {
    var params := RowParams(r);
    var returnsLabel := InferReturns(r.qualname, r.owner, r.returnsText);
    Join("\n", CardLines(r.qualname, "auto", InferAccepts(r.owner), params, returnsLabel,
                         InferMutates(params), InferIsStop(r.qualname, returnsLabel)))
  }

  /** The exit message when the database holds no public symbol of the library. */
  function NoRowsMessage(lib: string, dbPath: string): string
  {
    "No public symbols found for library '" + lib + "' in " + dbPath
  }

  /**
   * `synth_cards` once the rows are read from the database at `dbPath`, and
   * before the file is written: the text of all cards, one per row in order,
   * or the exit message when there are no rows.
   */
  method SynthCards(lib: string, dbPath: string, rows: seq<SymbolRow>) returns (out: Result<string>)
    ensures |rows| == 0 <==> out.Err?
    ensures out.Err? ==> out.msg == NoRowsMessage(lib, dbPath)
    ensures out.Ok? ==> out.value == Concat(Map(rows, RowCard))
  {
    if |rows| == 0 {
      return Err(NoRowsMessage(lib, dbPath));
    }
    var blocks: seq<string> := [];
    var i := 0;
    while i < |rows|
      invariant 0 <= i <= |rows|
      invariant blocks == Map(rows[..i], RowCard)
    {
      var block := RowBlock(rows[i]);
      MapStep(rows, i, RowCard);
      blocks := blocks + [block];
      i := i + 1;
    }
    assert rows[..|rows|] == rows;
    out := Ok(Concat(blocks));
  }

  /** The loop body of `synth_cards`: infer every label of one row and write its card. */
  method RowBlock(r: SymbolRow) returns (block: string)
    ensures block == RowCard(r)
  {
    var params := InferParams(r.params);
    var accepts := InferAccepts(r.owner);
    var returnsLabel := InferReturns(r.qualname, r.owner, r.returnsText);
    var mutates := InferMutates(params);
    var isStop := InferIsStop(r.qualname, returnsLabel);
    block := CardBlock(r.qualname, "auto", accepts, params, returnsLabel, mutates, isStop);
  }

  /** Every card of a row names the row's symbol with the `auto` profile and closes with its stop fact. */
  lemma RowCardFrame(r: SymbolRow)
    ensures StartsWith(RowCard(r), "card " + r.qualname + " : " + "auto" + " {\n")
    ensures EndsWith(RowCard(r), "\n" + StopLine(InferIsStop(r.qualname, InferReturns(r.qualname, r.owner, r.returnsText))) + "\n}\n")
  {
    var params := RowParams(r);
    var returnsLabel := InferReturns(r.qualname, r.owner, r.returnsText);
    CardBlockEnds(r.qualname, "auto", InferAccepts(r.owner), params, returnsLabel,
                  InferMutates(params), InferIsStop(r.qualname, returnsLabel));
  }
}
