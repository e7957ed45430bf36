/**
 * The pandas realizer: a fixed DataFrame or Series fixture, one call line per
 * plan step, and a fixed tail that writes `curr` as CSV when it can. Values
 * are written with the same literal code as the generic realizer
 * (`Realizer.ValueCode`).
 */
module PandasRealizer {
  import opened Strs
  import opened PyValues
  import opened JsonText
  import opened Cards
  import opened Realizer

  const PandasHead := "import pandas as pd\n"
  const FrameData := "df = pd.DataFrame({'A':[1,2,3,4],'B':[10,20,30,40],'C':[5,6,7,8]})\n"
  const SeriesData := "curr = pd.Series([1,2,3,4])\n"

  /** `initial_fixture`: the head and setup code for a library and a type label. */
  function InitialFixture(lib: string, acceptLabel: string): Result<(string, string)>
  {
    if lib == "pandas" && acceptLabel == "DataFrame" then Ok((PandasHead, FrameData + "curr = df\n"))
    else if lib == "pandas" && acceptLabel == "Series" then Ok((PandasHead, SeriesData))
    else Err("No fixture for " + lib + ":" + acceptLabel)
  }

  /**
   * Only pandas DataFrames and Series have a fixture; both import pandas,
   * and the DataFrame setup ends by making the frame `curr`.
   */
  lemma InitialFixtureSpec(lib: string, acceptLabel: string)
    ensures var r := InitialFixture(lib, acceptLabel);
      && (r.Ok? <==> lib == "pandas" && (acceptLabel == "DataFrame" || acceptLabel == "Series"))
      && (r.Ok? ==> r.value.0 == PandasHead)
      && (r.Ok? && acceptLabel == "DataFrame" ==> EndsWith(r.value.1, "curr = df\n"))
      && (r.Err? ==> r.msg == "No fixture for " + lib + ":" + acceptLabel)
  {
    if lib == "pandas" && acceptLabel == "DataFrame" {
      Ends(FrameData, "curr = df\n");
    }
  }

  /** `call_line`: as the generic call, with the module path between single quotes. */
  function CallLine(qual: string, kwargs: seq<(string, Value)>): string
  {
    var name := LastPart(qual, '.');
    CallText(ValueCode(VStr(name)), "'" + BeforeLast(qual, '.') + "'", name, ArgsCode(kwargs))
  }

  /**
   * A call line calls the text after the last `.` of the qualified name, in
   * the module named by the text before it, and ends by keeping `curr`.
   */
  lemma CallLineSpec(qual: string, kwargs: seq<(string, Value)>)
    ensures var name := LastPart(qual, '.');
      var line := CallLine(qual, kwargs);
      && '.' !in name
      && ('.' in qual ==> BeforeLast(qual, '.') + "." + name == qual)
      && StartsWith(line, "__m = getattr(curr, " + Quote(name))
      && EndsWith(line, KeepCurr)
  {
    QualCut(qual);
    var name := LastPart(qual, '.');
    CallTextEnds(Quote(name), "'" + BeforeLast(qual, '.') + "'", name, ArgsCode(kwargs));
  }

  /** The fixed tail: write `curr` as CSV when it has `to_csv`, else as `str(curr)`. */
  const PandasTail :=
    "import sys\n"
    + "try:\n"
    + "    import pandas as pd\n"
    + "    if hasattr(curr,'to_csv'):\n"
    + "        sys.stdout.write(curr.to_csv(index=False))\n"
    + "    else:\n"
    + "        sys.stdout.write(str(curr))\n"
    + "except Exception:\n"
    + "    sys.stdout.write(str(curr))\n"

  /** The type label of the first step: its accepts, or "DataFrame" when that is missing or falsy. */
  function StartLabel(c: Card): string
  {
    var acc := Get(c.pre, "accepts");
    if Truthy(acc) then Str(acc) else "DataFrame"
  }

  /** `realize_program`: head, setup, one call line per step and the tail. */
  function RealizeProgram(lib: string, cards: seq<Card>, plan: seq<int>,
                          kwargList: seq<seq<(string, Value)>>): Result<string>
    requires |plan| >= 1 && PlanInRange(cards, plan) && |kwargList| >= |plan|
  {
    match InitialFixture(lib, StartLabel(cards[plan[0]]))
    case Err(msg) => Err(msg)
    case Ok((head, setup)) => Ok(head + setup + Body(cards, plan, kwargList, CallLine) + PandasTail)
  }

  /**
   * A pandas program exists exactly for a pandas library whose first card
   * takes a DataFrame or a Series (a missing accepts counts as a DataFrame);
   * it opens with the pandas import, holds one call line per step and ends
   * with the fixed tail.
   */
  lemma RealizeProgramSpec(lib: string, cards: seq<Card>, plan: seq<int>,
                           kwargList: seq<seq<(string, Value)>>)
    requires |plan| >= 1 && PlanInRange(cards, plan) && |kwargList| >= |plan|
    ensures var r := RealizeProgram(lib, cards, plan, kwargList);
      var acceptLabel := StartLabel(cards[plan[0]]);
      && (r.Ok? <==> lib == "pandas" && (acceptLabel == "DataFrame" || acceptLabel == "Series"))
      && (r.Ok? ==> StartsWith(r.value, PandasHead) && EndsWith(r.value, PandasTail))
      && (r.Ok? ==> r.value == PandasHead + InitialFixture(lib, acceptLabel).value.1
                               + Body(cards, plan, kwargList, CallLine) + PandasTail)
  {
    var acceptLabel := StartLabel(cards[plan[0]]);
    InitialFixtureSpec(lib, acceptLabel);
    var r := RealizeProgram(lib, cards, plan, kwargList);
    if r.Ok? {
      var setup := InitialFixture(lib, acceptLabel).value.1;
      var body := Body(cards, plan, kwargList, CallLine);
      var front := PandasHead + setup + body;
      assert r.value == front + PandasTail;
      Ends(front, PandasTail);
      Ends(PandasHead, setup);
      StartsWithAppend(PandasHead + setup, PandasHead, body);
      StartsWithAppend(front, PandasHead, PandasTail);
    }
  }

  /** A first card with a missing or falsy accepts is realized as one that takes a DataFrame. */
  lemma FalsyAcceptsIsFrame(lib: string, cards: seq<Card>, plan: seq<int>,
                            kwargList: seq<seq<(string, Value)>>)
    requires |plan| >= 1 && PlanInRange(cards, plan) && |kwargList| >= |plan|
    requires !Truthy(Get(cards[plan[0]].pre, "accepts"))
    ensures var first := cards[plan[0]];
      var framed := cards[plan[0] := first.(pre := first.pre["accepts" := VStr("DataFrame")])];
      && PlanInRange(framed, plan)
      && RealizeProgram(lib, cards, plan, kwargList) == RealizeProgram(lib, framed, plan, kwargList)
  {
    var first := cards[plan[0]];
    var framed := cards[plan[0] := first.(pre := first.pre["accepts" := VStr("DataFrame")])];
    assert StartLabel(framed[plan[0]]) == "DataFrame";
    SameNamesSameBody(cards, framed, plan, kwargList, CallLine);
  }

  /** The calls of a plan depend only on the names of its cards. */
  lemma SameNamesSameBody(cards: seq<Card>, other: seq<Card>, plan: seq<int>,
                          kwargList: seq<seq<(string, Value)>>,
                          snippet: (string, seq<(string, Value)>) -> string)
    requires PlanInRange(cards, plan) && |kwargList| >= |plan| && |other| == |cards|
    requires forall i :: 0 <= i < |cards| ==> other[i].qualname == cards[i].qualname
    ensures PlanInRange(other, plan)
    ensures Body(cards, plan, kwargList, snippet) == Body(other, plan, kwargList, snippet)
  {
    assert seq(|plan|, k requires 0 <= k < |plan| => snippet(cards[plan[k]].qualname, kwargList[k]))
        == seq(|plan|, k requires 0 <= k < |plan| => snippet(other[plan[k]].qualname, kwargList[k]));
  }
}
