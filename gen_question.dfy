/**
 * The generation loop: pick a start card, plan from it, sample arguments for
 * every step, realize the program, run it in the sandbox, and package the
 * first run that succeeds. Randomness, the realizer used by the loop, the
 * interpreter, SHA-1 and the clock are inputs.
 */
module GenQuestion {
  import opened Strs
  import opened PyValues
  import opened Utf8
  import opened Cards
  import opened Compat
  import opened Planner
  import opened ArgSampler
  import opened Runner
  import opened Inspectors
  import opened QuestionText

  // ---------------------------------------------------------------------------
  // Start cards

  /** A card that takes a frame or a series; a missing `accepts` prints as `"None"`. */
  predicate TakesFrame(c: Card)
  {
    Str(Get(c.pre, "accepts")) in {"DataFrame", "Series"}
  }

  /** The positions below `k` of the cards that take a frame, ascending. */
  function FrameStarts(cards: seq<Card>, k: nat): (r: seq<int>)
    requires k <= |cards|
    ensures forall m :: 0 <= m < |r| ==> 0 <= r[m] < k && TakesFrame(cards[r[m]])
    ensures forall i :: 0 <= i < k && TakesFrame(cards[i]) ==> i in r
    ensures forall m, m' :: 0 <= m < m' < |r| ==> r[m] < r[m']
    decreases k
  {
    if k == 0 then []
    else if TakesFrame(cards[k - 1]) then FrameStarts(cards, k - 1) + [k - 1]
    else FrameStarts(cards, k - 1)
  }

  /** `pick_start_indices`: the frame-taking cards, or every card when there is none. */
  function PickStartIndices(cards: seq<Card>): seq<int>
  {
    var starts := FrameStarts(cards, |cards|);
    if |starts| > 0 then starts else seq(|cards|, i requires 0 <= i < |cards| => i)
  }

  /**
   * The start positions ascend and lie in the catalog. They are exactly the
   * cards whose `accepts` prints as `DataFrame` or `Series`, or all cards
   * when no card does; a card without `accepts` never qualifies.
   */
  lemma PickStartSpec(cards: seq<Card>)
    ensures var s := PickStartIndices(cards);
      && (forall m, m' :: 0 <= m < m' < |s| ==> s[m] < s[m'])
      && (forall m :: 0 <= m < |s| ==> 0 <= s[m] < |cards|)
      && ((exists i :: 0 <= i < |cards| && TakesFrame(cards[i])) ==>
            forall i :: i in s <==> 0 <= i < |cards| && TakesFrame(cards[i]))
      && ((forall i :: 0 <= i < |cards| ==> !TakesFrame(cards[i])) ==> |s| == |cards| && forall i :: 0 <= i < |s| ==> s[i] == i)
      && (|s| == 0 <==> |cards| == 0)
  {
    var starts := FrameStarts(cards, |cards|);
    assert |starts| > 0 ==> TakesFrame(cards[starts[0]]);
    if exists i :: 0 <= i < |cards| && TakesFrame(cards[i]) {
      var i :| 0 <= i < |cards| && TakesFrame(cards[i]);
      assert i in starts;
    }
  }

  lemma MissingAcceptsNeverStarts(c: Card)
    requires "accepts" !in c.pre
    ensures !TakesFrame(c)
  {
    assert Str(VNone) == "None";
    assert "None" != "DataFrame" && "None" != "Series" by {
      assert "None"[0] != "DataFrame"[0] && "None"[0] != "Series"[0];
    }
  }

  // ---------------------------------------------------------------------------
  // Card facts as the loader writes them

  /** `str` of a Lark tree starts with `Tree(`, so a card whose `accepts` is a tree never takes a frame. */
  lemma TreeNeverFrame(c: Card)
    requires "accepts" in c.pre ==> c.pre["accepts"].VTree?
    ensures !TakesFrame(c)
  {
    var text := Str(Get(c.pre, "accepts"));
    assert |text| > 0 && text[0] in "TN";
  }

  /**
   * With the loader as written every fact holds a tree, so no card takes a
   * frame and every card is a start.
   */
  lemma AsWrittenEveryCardStarts(parsed: seq<(string, string, seq<Item>)>)
    requires forall k :: 0 <= k < |parsed| ==> TreeFacts(parsed[k].2)
    ensures var cards := seq(|parsed|, k requires 0 <= k < |parsed| => CardOf(parsed[k].0, parsed[k].1, parsed[k].2));
      PickStartIndices(cards) == seq(|cards|, i => i)
  {
    var cards := seq(|parsed|, k requires 0 <= k < |parsed| => CardOf(parsed[k].0, parsed[k].1, parsed[k].2));
    forall i | 0 <= i < |cards| ensures !TakesFrame(cards[i]) {
      TreeFactsTreeValues(Empty(parsed[i].0, parsed[i].1), parsed[i].2);
      TreeNeverFrame(cards[i]);
    }
    PickStartSpec(cards);
  }

  /**
   * As written, `pre.accepts = "DataFrame"` does not make a start card and
   * `post.is_valid_stop = false` makes a stop.
   */
  lemma AsWrittenFactsLost(qual: string, profile: string, s: string)
    ensures !TakesFrame(CardOf(qual, profile, [MakeFactAsWritten("pre", "accepts", VStr(s))]))
    ensures IsStop(CardOf(qual, profile, [MakeFactAsWritten("post", "is_valid_stop", VBool(false))]))
  {
    var c := CardOf(qual, profile, [MakeFactAsWritten("pre", "accepts", VStr(s))]);
    assert [MakeFactAsWritten("pre", "accepts", VStr(s))][..0] == [];
    TreeNeverFrame(c);
    assert [MakeFactAsWritten("post", "is_valid_stop", VBool(false))][..0] == [];
  }

  /**
   * With facts that hold their converted values, `pre.accepts = "DataFrame"`
   * (or `"Series"`) makes a start card and `post.is_valid_stop = false` does
   * not make a stop.
   */
  lemma FactsKept(qual: string, profile: string, s: string)
    requires s == "DataFrame" || s == "Series"
    ensures TakesFrame(CardOf(qual, profile, [MakeFact("pre", "accepts", VStr(s))]))
    ensures !IsStop(CardOf(qual, profile, [MakeFact("post", "is_valid_stop", VBool(false))]))
  {
    assert [MakeFact("pre", "accepts", VStr(s))][..0] == [];
    assert [MakeFact("post", "is_valid_stop", VBool(false))][..0] == [];
  }

  // ---------------------------------------------------------------------------
  // One plan, several argument samples

  /** One step's keyword arguments, keyed by the names as the card gives them. */
  type KwargDict = seq<(Value, Value)>

  /** What a successful attempt keeps: the APIs, the arguments, the program, its output and a preview. */
  datatype Pack = Pack(apis: seq<string>, kwargs: seq<KwargDict>, program: string, stdout: string, preview: string)

  datatype AttemptResult = Raised | Failed | Succeeded(pack: Pack)

  datatype TryResult = TryRaised | NoPack | Found(pack: Pack)

  /** The sampled arguments for one card, or `None` when sampling its `args` raises. */
  function KwargsFor(c: Card, env: Env, draw: nat -> ParamDraw): Option<KwargDict>
  {
    match ParamsOf(Get(c.pre, "args"))
    case None => None
    case Some(ps) => Kwargs(ps, env, draw)
  }

  /** The draws of step `k` in argument attempt `a`: `draw(a, k, i)` is parameter `i`'s. */
  function StepDraw(draw: (nat, nat, nat) -> ParamDraw, a: nat, k: nat): nat -> ParamDraw
  {
    (i: nat) => draw(a, k, i)
  }

  /** The arguments of the first `k` steps of the plan in argument attempt `a`. */
  function KwargList(cards: seq<Card>, plan: seq<int>, env: Env, draw: (nat, nat, nat) -> ParamDraw, a: nat, k: nat)
    : (r: Option<seq<KwargDict>>)
    requires PlanInRange(cards, plan) && k <= |plan|
    ensures r.Some? ==> |r.value| == k
    decreases k
  {
    if k == 0 then Some([])
    else
      match KwargList(cards, plan, env, draw, a, k - 1)
      case None => None
      case Some(prev) =>
        match KwargsFor(cards[plan[k - 1]], env, StepDraw(draw, a, k - 1))
        case None => None
        case Some(kw) => Some(prev + [kw])
  }

  /** The qualified names of the plan's cards, in plan order. */
  function Apis(cards: seq<Card>, plan: seq<int>): (r: seq<string>)
    requires PlanInRange(cards, plan)
    ensures |r| == |plan| && forall k :: 0 <= k < |plan| ==> r[k] == cards[plan[k]].qualname
  {
    seq(|plan|, k requires 0 <= k < |plan| => cards[plan[k]].qualname)
  }

  /** The first five lines of the output, joined by newlines. */
  function Preview(stdout: string): string
  {
    Join("\n", Take(SplitLines(stdout), 5))
  }

  /** The preview has at most five lines: at most four newlines. */
  lemma PreviewLines(stdout: string)
    ensures Count(Preview(stdout), '\n') <= 4
  {
    var lines := Take(SplitLines(stdout), 5);
    if |lines| > 0 {
      assert IsLineBreak('\n');
      forall k | 0 <= k < |lines| ensures '\n' !in lines[k] {
        assert lines[k] == SplitLines(stdout)[k];
      }
      CountJoin('\n', lines);
    }
  }

  /** The realizer the loop calls: the program text, or `None` when it raises. */
  type Realize = (seq<int>, seq<KwargDict>) -> Option<string>

  /**
   * `run_code(code, allowed_imports=[library])` with the parent environment
   * and the interpreter fixed; `None` is an exception it raises.
   */
  type Run = string -> Option<SandboxResult>

  /** A run that returned, was ok and holds text output. */
  predicate OkText(res: Option<SandboxResult>)
  {
    res.Some? && res.value.ok && res.value.stdout.Chars?
  }

  /**
   * Run a realized program and keep it when the run is ok. The call is
   * outside the `try`, so an exception from the run propagates; so does the
   * `TypeError` of joining the lines of an ok run whose output is bytes. A
   * kept pack holds the given APIs, arguments and program, the output of
   * its ok run and the preview of that output.
   */
  function RunAndPack(apis: seq<string>, kwl: seq<KwargDict>, code: string, run: Run): (r: AttemptResult)
    ensures r.Raised? <==> run(code).None? || (run(code).value.ok && run(code).value.stdout.Bytes?)
    ensures r.Failed? <==> run(code).Some? && !run(code).value.ok
    ensures r.Succeeded? ==> r.pack.apis == apis && r.pack.kwargs == kwl && r.pack.program == code
    ensures r.Succeeded? ==>
      OkText(run(code)) && r.pack.stdout == run(code).value.stdout.text && r.pack.preview == Preview(r.pack.stdout)
  {
    match run(code)
    case None => Raised
    case Some(res) =>
      if !res.ok then Failed
      else match res.stdout
        case Bytes(_) => Raised
        case Chars(out) => Succeeded(Pack(apis, kwl, code, out, Preview(out)))
  }

  /** Argument attempt `a`: sample every step's arguments, realize, run. */
  function Attempt(cards: seq<Card>, plan: seq<int>, env: Env, draw: (nat, nat, nat) -> ParamDraw,
                   a: nat, realize: Realize, run: Run): AttemptResult
    requires PlanInRange(cards, plan)
  {
    match KwargList(cards, plan, env, draw, a, |plan|)
    case None => Raised
    case Some(kwl) =>
      match realize(plan, kwl)
      case None => Failed
      case Some(code) => RunAndPack(Apis(cards, plan), kwl, code, run)
  }

  /** `max(1, arg_resamples)` */
  function Budget(argResamples: int): (b: nat)
    ensures b >= 1 && b >= argResamples && (b == 1 || b == argResamples)
  {
    if argResamples > 1 then argResamples else 1
  }

  /** The attempts from `a` on, up to the budget: the first success, the first raise, or nothing. */
  function FirstSuccess(cards: seq<Card>, plan: seq<int>, env: Env,
                        draw: (nat, nat, nat) -> ParamDraw, realize: Realize,
                        run: Run,
                        a: nat, budget: nat): TryResult
    requires PlanInRange(cards, plan)
    decreases budget - a
  {
    if a >= budget then NoPack
    else
      match Attempt(cards, plan, env, draw, a, realize, run)
      case Raised => TryRaised
      case Failed => FirstSuccess(cards, plan, env, draw, realize, run, a + 1, budget)
      case Succeeded(p) => Found(p)
  }

  /**
   * `try_one_plan`: up to `max(1, arg_resamples)` attempts; a failed
   * realization or an unsuccessful run uses up one attempt, a card whose
   * `args` cannot be unpacked raises.
   */
  method TryOnePlan(ir: IR, plan: seq<int>, argResamples: int, env: Env,
                    draw: (nat, nat, nat) -> ParamDraw, realize: Realize,
                    run: Run)
    returns (r: TryResult)
    requires PlanInRange(ir.cards, plan)
    ensures r == FirstSuccess(ir.cards, plan, env, draw, realize, run, 0, Budget(argResamples))
  {
    var budget := if argResamples > 1 then argResamples else 1;
    var a := 0;
    while a < budget
      invariant 0 <= a <= budget
      invariant FirstSuccess(ir.cards, plan, env, draw, realize, run, 0, budget)
             == FirstSuccess(ir.cards, plan, env, draw, realize, run, a, budget)
    {
      var attempt := OneAttempt(ir, plan, env, draw, a, realize, run);
      if attempt.Raised? {
        return TryRaised;
      } else if attempt.Succeeded? {
        return Found(attempt.pack);
      }
      FailedAttempt(ir.cards, plan, env, draw, realize, run, a, budget);
      a := a + 1;
    }
    return NoPack;
  }

  /** One pass of the attempt loop: sample, realize, run and, on success, build the pack. */
  method OneAttempt(ir: IR, plan: seq<int>, env: Env, draw: (nat, nat, nat) -> ParamDraw,
                    a: nat, realize: Realize, run: Run)
    returns (attempt: AttemptResult)
    requires PlanInRange(ir.cards, plan)
    ensures attempt == Attempt(ir.cards, plan, env, draw, a, realize, run)
  {
    var kwl := SampleSteps(ir, plan, env, draw, a);
    if kwl.None? {
      return Raised;
    }
    var code := realize(plan, kwl.value);
    if code.None? {
      return Failed;
    }
    var res := run(code.value);
    if res.None? {
      return Raised;
    }
    if !res.value.ok {
      return Failed;
    }
    if res.value.stdout.Bytes? {
      return Raised;
    }
    var out := res.value.stdout.text;
    var outPreview := Join("\n", Take(SplitLines(out), 5));
    var apis := seq(|plan|, j requires 0 <= j < |plan| => ir.cards[plan[j]].qualname);
    assert apis == Apis(ir.cards, plan);
    return Succeeded(Pack(apis, kwl.value, code.value, out, outPreview));
  }

  /** A failed attempt within the budget hands over to the next one. */
  lemma FailedAttempt(cards: seq<Card>, plan: seq<int>, env: Env,
                      draw: (nat, nat, nat) -> ParamDraw, realize: Realize,
                      run: Run,
                      a: nat, budget: nat)
    requires PlanInRange(cards, plan) && a < budget
    requires Attempt(cards, plan, env, draw, a, realize, run) == Failed
    ensures FirstSuccess(cards, plan, env, draw, realize, run, a, budget)
         == FirstSuccess(cards, plan, env, draw, realize, run, a + 1, budget)
  {
  }

  /**
   * `[sample_kwargs(ir.cards[i].pre.get("args") or [], env) for i in plan]`,
   * step by step; `None` when sampling a card's `args` raises.
   */
  method SampleSteps(ir: IR, plan: seq<int>, env: Env, draw: (nat, nat, nat) -> ParamDraw, a: nat)
    returns (kwl: Option<seq<KwargDict>>)
    requires PlanInRange(ir.cards, plan)
    ensures kwl == KwargList(ir.cards, plan, env, draw, a, |plan|)
  {
    var acc: seq<KwargDict> := [];
    var k := 0;
    while k < |plan|
      invariant 0 <= k <= |plan|
      invariant KwargList(ir.cards, plan, env, draw, a, k) == Some(acc)
    {
      var kw := SampleCard(ir.cards[plan[k]], env, StepDraw(draw, a, k));
      KwargListStep(ir.cards, plan, env, draw, a, k, acc);
      if kw.None? {
        KwargListStaysNone(ir.cards, plan, env, draw, a, k + 1, |plan|);
        return None;
      }
      acc := acc + [kw.value];
      k := k + 1;
    }
    return Some(acc);
  }

  /** `sample_kwargs(card.pre.get("args") or [], env)` for one card of the plan. */
  method SampleCard(c: Card, env: Env, draw: nat -> ParamDraw) returns (kw: Option<KwargDict>)
    ensures kw == KwargsFor(c, env, draw)
  {
    var ps := ParamsOf(Get(c.pre, "args"));
    if ps.None? {
      return None;
    }
    kw := SampleKwargs(ps.value, env, draw);
  }

  /** Step `k` extends the arguments of the steps before it, or fails with its card. */
  lemma KwargListStep(cards: seq<Card>, plan: seq<int>, env: Env, draw: (nat, nat, nat) -> ParamDraw,
                      a: nat, k: nat, acc: seq<KwargDict>)
    requires PlanInRange(cards, plan) && k < |plan|
    requires KwargList(cards, plan, env, draw, a, k) == Some(acc)
    ensures var kf := KwargsFor(cards[plan[k]], env, StepDraw(draw, a, k));
      KwargList(cards, plan, env, draw, a, k + 1)
        == if kf.None? then None else Some(acc + [kf.value])
  {
  }

  /** Once sampling a step's arguments raises, the whole list does. */
  lemma {:induction false} KwargListStaysNone(cards: seq<Card>, plan: seq<int>, env: Env, draw: (nat, nat, nat) -> ParamDraw,
                                              a: nat, k: nat, m: nat)
    requires PlanInRange(cards, plan) && k <= m <= |plan|
    requires KwargList(cards, plan, env, draw, a, k) == None
    ensures KwargList(cards, plan, env, draw, a, m) == None
    decreases m - k
  {
    if k < m {
      KwargListStaysNone(cards, plan, env, draw, a, k + 1, m);
    }
  }

  /** Argument attempt `a` depends only on the draws of attempt `a`. */
  lemma {:induction false} KwargListOwnDraws(cards: seq<Card>, plan: seq<int>, env: Env,
                                             d1: (nat, nat, nat) -> ParamDraw, d2: (nat, nat, nat) -> ParamDraw, a: nat, k: nat)
    requires PlanInRange(cards, plan) && k <= |plan|
    requires forall s: nat, i: nat :: d1(a, s, i) == d2(a, s, i)
    ensures KwargList(cards, plan, env, d1, a, k) == KwargList(cards, plan, env, d2, a, k)
    decreases k
  {
    if k > 0 {
      KwargListOwnDraws(cards, plan, env, d1, d2, a, k - 1);
      var ps := ParamsOf(Get(cards[plan[k - 1]].pre, "args"));
      if ps.Some? {
        KwargsOwnDraws(ps.value, ValueOf(env), StepDraw(d1, a, k - 1), StepDraw(d2, a, k - 1), |ps.value|);
      }
    }
  }

  /** An attempt depends on the draws only through the arguments they sample. */
  lemma SameKwargsSameAttempt(cards: seq<Card>, plan: seq<int>, env: Env,
                              d1: (nat, nat, nat) -> ParamDraw, d2: (nat, nat, nat) -> ParamDraw, a: nat,
                              realize: Realize, run: Run)
    requires PlanInRange(cards, plan)
    requires KwargList(cards, plan, env, d1, a, |plan|) == KwargList(cards, plan, env, d2, a, |plan|)
    ensures Attempt(cards, plan, env, d1, a, realize, run)
         == Attempt(cards, plan, env, d2, a, realize, run)
  {
  }

  /**
   * Only the first `max(1, arg_resamples)` attempts are made: the draws of
   * later attempts never change the outcome.
   */
  lemma {:induction false} OnlyBudgetAttempts(cards: seq<Card>, plan: seq<int>, env: Env,
                                              d1: (nat, nat, nat) -> ParamDraw, d2: (nat, nat, nat) -> ParamDraw,
                                              realize: Realize, run: Run, a: nat, budget: nat)
    requires PlanInRange(cards, plan)
    requires forall t: nat, s: nat, i: nat :: t < budget ==> d1(t, s, i) == d2(t, s, i)
    ensures FirstSuccess(cards, plan, env, d1, realize, run, a, budget)
         == FirstSuccess(cards, plan, env, d2, realize, run, a, budget)
    decreases budget - a
  {
    if a < budget {
      KwargListOwnDraws(cards, plan, env, d1, d2, a, |plan|);
      SameKwargsSameAttempt(cards, plan, env, d1, d2, a, realize, run);
      OnlyBudgetAttempts(cards, plan, env, d1, d2, realize, run, a + 1, budget);
    }
  }

  /**
   * A successful attempt names the plan's cards in order, has one argument
   * dict per step, keeps the output of an ok run of its program, and
   * previews at most its first five lines.
   */
  lemma {:induction false} FoundPackShape(cards: seq<Card>, plan: seq<int>, env: Env,
                                          draw: (nat, nat, nat) -> ParamDraw, realize: Realize,
                                          run: Run,
                                          a: nat, budget: nat)
    requires PlanInRange(cards, plan)
    ensures var r := FirstSuccess(cards, plan, env, draw, realize, run, a, budget);
      r.Found? ==>
        && r.pack.apis == Apis(cards, plan)
        && |r.pack.kwargs| == |plan|
        && OkText(run(r.pack.program)) && r.pack.stdout == run(r.pack.program).value.stdout.text
        && r.pack.preview == Preview(r.pack.stdout)
        && Count(r.pack.preview, '\n') <= 4
    decreases budget - a
  {
    if a < budget {
      match Attempt(cards, plan, env, draw, a, realize, run)
      case Raised =>
      case Failed =>
        FoundPackShape(cards, plan, env, draw, realize, run, a + 1, budget);
      case Succeeded(p) =>
        AttemptShape(cards, plan, env, draw, a, realize, run);
        PreviewLines(p.stdout);
    }
  }

  /**
   * A successful attempt keeps the plan's APIs, one argument dict per step,
   * the output of an ok run of its program and the preview of that output.
   */
  lemma AttemptShape(cards: seq<Card>, plan: seq<int>, env: Env,
                     draw: (nat, nat, nat) -> ParamDraw, a: nat, realize: Realize,
                     run: Run)
    requires PlanInRange(cards, plan)
    ensures var r := Attempt(cards, plan, env, draw, a, realize, run);
      r.Succeeded? ==>
        && r.pack.apis == Apis(cards, plan)
        && |r.pack.kwargs| == |plan|
        && OkText(run(r.pack.program)) && r.pack.stdout == run(r.pack.program).value.stdout.text
        && r.pack.preview == Preview(r.pack.stdout)
  {
  }

  // ---------------------------------------------------------------------------
  // The outer loop

  /** The stored question. */
  datatype Doc = Doc(
    library: string,
    apis: seq<string>,
    kwargs: seq<KwargDict>,
    program: string,
    outputPreview: string,
    fingerprint: string,
    questionText: string,
    createdAt: int,
    attempt: int)

  /** How a run ends: a question, an exit with a message, or an uncaught error. */
  datatype Outcome = Done(doc: Doc) | Exit(message: string) | Crash

  const NoPairsMessage := "No compatible pairs; regenerate cards with a higher limit or improve traits."

  function ExhaustedMessage(maxPlans: int, argResamples: int): string
  {
    "Failed to produce a valid snippet after " + IntToString(maxPlans) + " plan attempts \U{d7} "
    + IntToString(argResamples) + " arg resamples per plan."
  }

  /** The sampler hint the loop uses: columns `A`, `B`, `C`. */
  const SamplerEnv := Env([VStr("A"), VStr("B"), VStr("C")])

  /** A plan the planner may give for some start. */
  ghost predicate PlannedFrom(cards: seq<Card>, starts: seq<int>, plan: seq<int>)
  {
    && |plan| > 0 && plan[0] in starts
    && Witnesses(plan, plan[0], |cards|, CompatPairs(cards), Stops(cards))
  }

  /** The draws of plan attempt `t`. */
  function PlanDraw(draw: (nat, nat, nat, nat) -> ParamDraw, t: nat): (nat, nat, nat) -> ParamDraw
  {
    (a: nat, k: nat, i: nat) => draw(t, a, k, i)
  }

  /** The stored question for the pack found in plan attempt `attempt`, created at `now`. */
  function MakeDoc(library: string, pk: Pack, sha1: seq<Byte> -> string, now: int, attempt: int): (d: Doc)
    ensures d.library == library && d.apis == pk.apis && d.kwargs == pk.kwargs && d.program == pk.program
    ensures d.outputPreview == pk.preview && d.fingerprint == Fingerprint(pk.stdout, sha1) && |d.fingerprint| <= 16
    ensures d.questionText == TemplateQuestion(pk.apis, pk.preview, [], None)
    ensures d.createdAt == now && d.attempt == attempt
  {
    var fp := Take(sha1(Encode(pk.stdout)), 16);
    var q := RenderQuestion(pk.apis, pk.preview, None, Some([]), None, (prompt, model) => None);
    Doc(library, pk.apis, pk.kwargs, pk.program, pk.preview, fp, q.text, now, attempt)
  }

  /**
   * What the plan attempts depend on: the library, the catalog, the two
   * limits, the start picks (`pick(t)` for plan attempt `t`), the argument
   * draws (`draw(t, a, k, i)` for parameter `i` of step `k` in argument
   * attempt `a` of plan attempt `t`), the realizer, the sandbox run, SHA-1
   * and the time the question is stored.
   */
  datatype Session = Session(library: string, cards: seq<Card>, maxPlans: int, argResamples: int,
                             pick: nat -> nat, draw: (nat, nat, nat, nat) -> ParamDraw,
                             realize: Realize, run: Run, sha1: seq<Byte> -> string, now: int)

  /** `run_code(code, allowed_imports=[library])` in the parent environment, with `process` as the interpreter. */
  function SandboxRun(library: string, parentEnv: map<string, string>,
                      process: (string, map<string, string>) -> ProcessOutcome): Run
  {
    (code: string) => RunCode(code, Some([library]), parentEnv, process)
  }

  /** The plan of plan attempt `t`: the planner's answer for the start picked in that attempt. */
  function PlanAt(s: Session, t: nat): Option<seq<int>>
  {
    if |s.cards| == 0 then None
    else
      var starts := PickStartIndices(s.cards);
      PickStartSpec(s.cards);
      ChoosePlan(starts[s.pick(t) % |starts|], |s.cards|, CompatPairs(s.cards), Stops(s.cards))
  }

  lemma PlanAtPlanned(s: Session, t: nat)
    requires PlanAt(s, t).Some?
    ensures PlannedFrom(s.cards, PickStartIndices(s.cards), PlanAt(s, t).value)
    ensures PlanInRange(s.cards, PlanAt(s, t).value)
  {
    PickStartSpec(s.cards);
    var starts := PickStartIndices(s.cards);
    ChosenPlanned(s.cards, starts[s.pick(t) % |starts|], PlanAt(s, t).value);
  }

  /**
   * What plan attempt `t` comes to: `None` when it finds no plan, otherwise
   * `try_one_plan` on its plan with its own draws.
   */
  function TryAt(s: Session, t: nat): Option<TryResult>
  {
    match PlanAt(s, t)
    case None => None
    case Some(plan) =>
      PlanAtPlanned(s, t);
      Some(FirstSuccess(s.cards, plan, SamplerEnv, PlanDraw(s.draw, t), s.realize, s.run, 0, Budget(s.argResamples)))
  }

  function Tries(s: Session): nat -> Option<TryResult>
  {
    (t: nat) => TryAt(s, t)
  }

  /** How the plan attempts end: every one moves on, one raises, or one finds a pack. */
  datatype Decision = Exhausted | Raises | Takes(attempt: nat, pack: Pack)

  /** A plan attempt that moves on to the next: it found no plan, or its plan gave no pack. */
  predicate MovesOn(r: Option<TryResult>)
  {
    r.None? || r.value.NoPack?
  }

  /** The plan attempts from `t` to `max_plans`, given what each comes to: the first that does not move on decides. */
  function Decide(tries: nat -> Option<TryResult>, maxPlans: int, t: nat): Decision
    decreases maxPlans - t
  {
    if t > maxPlans then Exhausted
    else match tries(t)
      case None => Decide(tries, maxPlans, t + 1)
      case Some(NoPack) => Decide(tries, maxPlans, t + 1)
      case Some(TryRaised) => Raises
      case Some(Found(pk)) => Takes(t, pk)
  }

  /** How `generate_question_multi` ends once the graph has a pair. */
  function Outer(s: Session): Outcome
  {
    match Decide(Tries(s), s.maxPlans, 1)
    case Exhausted => Exit(ExhaustedMessage(s.maxPlans, s.argResamples))
    case Raises => Crash
    case Takes(t, pk) => Done(MakeDoc(s.library, pk, s.sha1, s.now, t))
  }

  /** What the outer loop keeps of a returned question. */
  ghost predicate GoodDoc(s: Session, d: Doc)
  {
    && 1 <= d.attempt <= s.maxPlans
    && d.library == s.library
    && d.createdAt == s.now
    && |d.kwargs| == |d.apis|
    && OkText(s.run(d.program))
    && d.outputPreview == Preview(s.run(d.program).value.stdout.text)
    && Count(d.outputPreview, '\n') <= 4
    && d.fingerprint == Fingerprint(s.run(d.program).value.stdout.text, s.sha1)
    && d.questionText == TemplateQuestion(d.apis, d.outputPreview, [], None)
    && exists plan :: PlannedFrom(s.cards, PickStartIndices(s.cards), plan) && PlanInRange(s.cards, plan)
         && d.apis == Apis(s.cards, plan)
  }

  /**
   * `generate_question_multi` once the catalog is loaded: the no-pairs exit,
   * or the outcome of plan attempts 1 to `max_plans`. The question is stored
   * with no inputs hint, no requirements and no paraphrase.
   */
  method GenerateQuestionMulti(library: string, ir: IR, maxPlans: int, argResamples: int,
                               pick: nat -> nat, draw: (nat, nat, nat, nat) -> ParamDraw,
                               realize: Realize, parentEnv: map<string, string>,
                               process: (string, map<string, string>) -> ProcessOutcome,
                               sha1: seq<Byte> -> string, now: int)
    returns (r: Outcome)
    ensures CompatPairs(ir.cards) == {} ==> r == Exit(NoPairsMessage)
    ensures CompatPairs(ir.cards) != {} ==>
      var s := Session(library, ir.cards, maxPlans, argResamples, pick, draw, realize,
                       SandboxRun(library, parentEnv, process), sha1, now);
      r == Outer(s) && (r.Done? ==> GoodDoc(s, r.doc))
  {
    var pairs, stops := BuildCompat(ir);
    if pairs == {} {
      return Exit(NoPairsMessage);
    }
    InRange(ir.cards);
    var s := Session(library, ir.cards, maxPlans, argResamples, pick, draw, realize,
                     SandboxRun(library, parentEnv, process), sha1, now);
    var starts := PickStartIndices(ir.cards);
    var d := PlanLoop(ir, s, pairs, stops, starts);
    match d
    case Exhausted => r := Exit(ExhaustedMessage(maxPlans, argResamples));
    case Raises => r := Crash;
    case Takes(t, pk) =>
      var doc := MakeDoc(library, pk, sha1, now, t);
      r := Done(doc);
    OuterDoneGood(s);
  }

  /**
   * The plan loop of `generate_question_multi`: attempts `1` to `maxPlans`,
   * each a fresh plan, until one raises or finds a pack.
   */
  method PlanLoop(ir: IR, s: Session, pairs: set<(int, int)>, stops: set<int>, starts: seq<int>)
    returns (d: Decision)
    requires s.cards == ir.cards && |ir.cards| > 0
    requires pairs == CompatPairs(ir.cards) && stops == Stops(ir.cards) && starts == PickStartIndices(ir.cards)
    ensures d == Decide(Tries(s), s.maxPlans, 1)
  {
    var attempt := 1;
    while attempt <= s.maxPlans
      invariant 1 <= attempt
      invariant Decide(Tries(s), s.maxPlans, 1) == Decide(Tries(s), s.maxPlans, attempt)
    {
      var res := PlanAttempt(ir, s, pairs, stops, starts, attempt);
      DecideStep(Tries(s), s.maxPlans, attempt);
      if !MovesOn(res) {
        return if res.value.TryRaised? then Raises else Takes(attempt, res.value.pack);
      }
      attempt := attempt + 1;
    }
    return Exhausted;
  }

  /**
   * One pass of the plan loop: pick a start, plan from it and, when there is
   * a plan, try it; `None` when there is no plan.
   */
  method PlanAttempt(ir: IR, s: Session, pairs: set<(int, int)>, stops: set<int>, starts: seq<int>, attempt: nat)
    returns (res: Option<TryResult>)
    requires s.cards == ir.cards && |ir.cards| > 0
    requires pairs == CompatPairs(ir.cards) && stops == Stops(ir.cards) && starts == PickStartIndices(ir.cards)
    ensures res == Tries(s)(attempt)
  {
    PickStartSpec(ir.cards);
    var a1 := starts[s.pick(attempt) % |starts|];
    var plan := ChoosePlan(a1, |ir.cards|, pairs, stops);
    assert plan == PlanAt(s, attempt);
    if plan.None? {
      return None;
    }
    PlanAtPlanned(s, attempt);
    var pack := TryOnePlan(ir, plan.value, s.argResamples, SamplerEnv, PlanDraw(s.draw, attempt), s.realize, s.run);
    return Some(pack);
  }

  /** One plan attempt within the limit: it moves on, or it decides. */
  lemma DecideStep(tries: nat -> Option<TryResult>, maxPlans: int, t: nat)
    requires t <= maxPlans
    ensures Decide(tries, maxPlans, t)
         == if MovesOn(tries(t)) then Decide(tries, maxPlans, t + 1)
            else if tries(t).value.TryRaised? then Raises else Takes(t, tries(t).value.pack)
  {
  }

  /** Attempts `t` to `u - 1` all move on. */
  ghost predicate MoveOnFromTo(tries: nat -> Option<TryResult>, t: nat, u: int)
  {
    forall v: nat :: t <= v < u ==> MovesOn(tries(v))
  }

  /**
   * When the attempts before `u` all move on and `u` does not, attempt `u`
   * decides: an exception ends the run, a pack is taken.
   */
  lemma {:induction false} DecideFirstTaken(tries: nat -> Option<TryResult>, maxPlans: int, t: nat, u: nat)
    requires t <= u <= maxPlans
    requires MoveOnFromTo(tries, t, u) && !MovesOn(tries(u))
    ensures Decide(tries, maxPlans, t)
         == if tries(u).value.TryRaised? then Raises else Takes(u, tries(u).value.pack)
    decreases u - t
  {
    if t < u {
      assert MovesOn(tries(t));
      assert MoveOnFromTo(tries, t + 1, u);
      DecideFirstTaken(tries, maxPlans, t + 1, u);
    }
  }

  /** The attempts end exhausted exactly when every one from `t` to `max_plans` moves on. */
  lemma {:induction false} DecideExhausted(tries: nat -> Option<TryResult>, maxPlans: int, t: nat)
    ensures Decide(tries, maxPlans, t) == Exhausted <==> MoveOnFromTo(tries, t, maxPlans + 1)
    decreases maxPlans - t
  {
    if t <= maxPlans {
      if MovesOn(tries(t)) {
        DecideExhausted(tries, maxPlans, t + 1);
        if MoveOnFromTo(tries, t + 1, maxPlans + 1) {
          forall v: nat | t <= v < maxPlans + 1 ensures MovesOn(tries(v)) {
            if v > t {
              assert t + 1 <= v < maxPlans + 1;
            }
          }
        }
      } else {
        assert !MoveOnFromTo(tries, t, maxPlans + 1) by {
          assert t <= t < maxPlans + 1;
        }
      }
    }
  }

  /** A taken pack is the pack of an attempt from `t` to `max_plans`. */
  lemma {:induction false} DecideTakes(tries: nat -> Option<TryResult>, maxPlans: int, t: nat)
    ensures var d := Decide(tries, maxPlans, t);
      d.Takes? ==> t <= d.attempt <= maxPlans && tries(d.attempt) == Some(Found(d.pack))
    decreases maxPlans - t
  {
    if t <= maxPlans && MovesOn(tries(t)) {
      DecideTakes(tries, maxPlans, t + 1);
    }
  }

  /** With no stop, no attempt finds a plan, and the run ends with the exhausted exit. */
  lemma NoStopsExhausted(s: Session)
    requires Stops(s.cards) == {}
    ensures Outer(s) == Exit(ExhaustedMessage(s.maxPlans, s.argResamples))
  {
    forall v: nat | 1 <= v < s.maxPlans + 1 ensures MovesOn(Tries(s)(v)) {
      if |s.cards| > 0 {
        PickStartSpec(s.cards);
        var starts := PickStartIndices(s.cards);
        NoStopsNoPlan(starts[s.pick(v) % |starts|], |s.cards|, CompatPairs(s.cards));
      }
    }
    DecideExhausted(Tries(s), s.maxPlans, 1);
  }

  /** Every question the plan attempts return is one the outer loop keeps. */
  lemma OuterDoneGood(s: Session)
    ensures Outer(s).Done? ==> GoodDoc(s, Outer(s).doc)
  {
    DecideTakes(Tries(s), s.maxPlans, 1);
    var d := Decide(Tries(s), s.maxPlans, 1);
    if d.Takes? {
      assert TryAt(s, d.attempt) == Some(Found(d.pack));
      TakenDocGood(s, d.attempt, d.pack);
      assert Outer(s) == Done(MakeDoc(s.library, d.pack, s.sha1, s.now, d.attempt));
    }
  }

  /** The question made from the pack plan attempt `t` found is one the outer loop keeps. */
  lemma TakenDocGood(s: Session, t: nat, pk: Pack)
    requires 1 <= t <= s.maxPlans && TryAt(s, t) == Some(Found(pk))
    ensures GoodDoc(s, MakeDoc(s.library, pk, s.sha1, s.now, t))
  {
    var plan := PlanAt(s, t).value;
    PlanAtPlanned(s, t);
    FoundPackShape(s.cards, plan, SamplerEnv, PlanDraw(s.draw, t), s.realize, s.run, 0, Budget(s.argResamples));
    assert MakeDoc(s.library, pk, s.sha1, s.now, t).apis == Apis(s.cards, plan);
  }

  /** A plan the planner chose from a start it picked is a planned chain within the catalog. */
  lemma ChosenPlanned(cards: seq<Card>, a1: int, plan: seq<int>)
    requires a1 in PickStartIndices(cards)
    requires ChoosePlan(a1, |cards|, CompatPairs(cards), Stops(cards)) == Some(plan)
    ensures PlannedFrom(cards, PickStartIndices(cards), plan) && PlanInRange(cards, plan)
  {
    PickStartSpec(cards);
    PlanShape(a1, |cards|, CompatPairs(cards), Stops(cards));
  }
}
