# codetutor — a Dafny model of the question-generation pipeline

codetutor turns the public API of a Python library into small coding
exercises. The pipeline has these stages:

1. **scan** walks the library's member tree and records one symbol row per
   public and private object, with a signature and docstring row where
   there is one.
2. **synth_cards** turns each public symbol into a *card* written in the
   card language (`card pandas.DataFrame.head : auto { pre.accepts = ...; }`).
   Each card carries its accepted input type, its parameters, its return
   type, whether it mutates its input and whether it is a valid stop.
3. **loader** reads cards back into an IR: a list of cards and an index by
   qualified name.
4. **compat** builds the graph of cards that may follow each other:
   the return type of one equals the accepted type of the next, and the
   optional axis and dtype gates agree.
5. **z3core** chooses a plan of two or three distinct cards that starts at
   a given card, follows edges and ends at a stop.
6. **arg_sampler** draws keyword arguments for every step.
7. **realizer** (generic, fixture-driven) or **pandas_realizer** writes the
   Python program for the plan.
8. **runner** runs the program in a child interpreter behind an import
   guard.
9. **inspectors** fingerprint and classify its output.
10. **text** renders the question.
11. **gen_question** repeats plan attempts and argument resamples until one
    program prints something, then packages the question document.
12. **fixtures_auto** derives a fixture map from the type labels of a card
    catalog.

One Dafny module models each source file. Imperative code keeps its form:
- the loops of `load_cards`, `build_compat`, `sample_kwargs`,
  `collect_type_labels`, `materialize_fixtures`, `try_one_plan`,
  `generate_question_multi`, `card_block`, `synth_cards`, `infer_params`
  and the root loop of `scan_library` are methods;
- each of those methods is proved equal to a specification function, and
  the properties are proved about that function. For
  `generate_question_multi`, that function is `GenQuestion.Outer`: the
  first plan attempt that raises or finds a pack decides the outcome;
- the card builder that appends cards as the parser visits them is a class
  (`Cards.Builder`).

The rest is pure functions with lemmas. Shared helper modules model the
Python behaviour the core relies on:
- `Strs`: `str.split`/`join`/`strip`/`splitlines`/`find`, decimal `int()`
  and `str()`, and string order for `sorted`;
- `PyValues`: Python values, truthiness, `str()`/`repr()`, and
  insertion-ordered dictionaries. The values include Lark's `Tree`
  objects, which the card loader stores as written;
- `JsonText`: `json.dumps` of a string, with its decoder;
- `Utf8`: `str.encode("utf-8")`, with its decoder.

Randomness, the clock, the child process, hash digests and the text
paraphraser are function-valued parameters, so every property holds
whatever they return. The planner is a fixed search, not a parameter.

Where the system's specification and its code disagree, the model follows the code:
- **Two-card catalogs never plan.** The specification expects the catalog
  "a → b, b is a stop" to give the plan `[0, 1]`. The code posts
  `Distinct(x1, x2, x3)` and keeps `x3` inside the catalog even for a
  two-step plan, so a catalog of two cards has no plan
  (`Planner.TwoCardCatalog`, `Planner.SmallCatalogNoPlan`).
- **The import guard is always installed.** A comment in the runner says
  the guard has no effect when the allow list is empty. The code always
  adds `builtins`, so the guard is always installed and then only lets
  `builtins` through (`Runner.GuardAlwaysInstalled`,
  `Runner.AllowSetNeverEmpty`).

## Model

| member | source | states |
|---|---|---|
| Cards.LStripDashes | root/src/codetutor/core/dsl/loader.py:25 | the result is the suffix of the text left after every leading `-` is removed, and it does not start with `-` |
| Cards.SignedNumber | root/src/codetutor/core/dsl/loader.py:23-25 | a number token becomes an int exactly when, with its leading dashes stripped, it is a non-empty run of digits; otherwise it becomes a float that keeps its own text |
| Cards.SignedNumberInt | root/src/codetutor/core/dsl/loader.py:23-25 | the decimal text of every integer, negative ones included, is read back as that integer |
| Cards.SignedNumberPlus | root/src/codetutor/core/dsl/loader.py:25 | a token with a leading `+` never becomes an int: the digit test rejects the sign, so it is read as a float |
| Cards.EscapedString | root/src/codetutor/core/dsl/loader.py:26-27 | a string token loses its first and last character and nothing else; no escape sequence is decoded; a token shorter than two characters gives the empty string |
| Cards.MakeFact | root/src/codetutor/core/dsl/loader.py:49-51 | a fact carries its namespace, key and converted value, as evidently intended; the code as written stores a Lark tree around the value (see "Findings") |
| Cards.TreeFactsTreeValues | root/src/codetutor/core/dsl/loader.py:38-56 | with the fact callbacks as written, every value a card's `pre` or `post` holds is a Lark tree |
| Cards.ModalWordIgnored | root/src/codetutor/core/dsl/loader.py:53-56 | the modal word has no effect: two modal facts that differ only in it are the same item |
| Cards.MakeLink | root/src/codetutor/core/dsl/loader.py:58-60 | a link carries its relation and target unchanged |
| Cards.ApplyAllKeepsName | root/src/codetutor/core/dsl/loader.py:38-46 | applying a card's items never changes its qualified name or profile |
| Cards.LastFactWins | root/src/codetutor/core/dsl/loader.py:41-44 | for each `pre`/`post` key, the last fact for that key decides its value in the card |
| Cards.FactKeysFromItems | root/src/codetutor/core/dsl/loader.py:41-44 | every key in a card's `pre` (`post`) was already there or comes from a fact of that namespace |
| Cards.LinksInOrder | root/src/codetutor/core/dsl/loader.py:45-46 | links are appended in item order: the links of items `a + b` are those of `a` followed by those of `b` |
| Cards.LinkItem | root/src/codetutor/core/dsl/loader.py:42-46 | a link item appends exactly its `(rel, tgt)` pair, and a fact item leaves the links alone |
| Cards.Builder.constructor | root/src/codetutor/core/dsl/loader.py:34-35 | a new builder holds no cards |
| Cards.Builder.AddCard | root/src/codetutor/core/dsl/loader.py:38-47 | visiting a card block appends exactly one card, built from its items, to the end of the list |
| Cards.IndexLastWins | root/src/codetutor/core/dsl/loader.py:70 | the index has a key exactly for each qualified name in the catalog, and maps it to the last card with that name |
| Cards.LoadCards | root/src/codetutor/core/dsl/loader.py:65-70 | one card per parsed block, in order, with the index of those cards |
| Compat.BuildCompat | root/src/codetutor/core/planner/compat.py:5-37 | the pairs are exactly the ordered pairs of cards that pass the edge test, and the stops are exactly the cards marked as valid stops |
| Compat.EdgeTest | root/src/codetutor/core/planner/compat.py:14-35 | the test of one ordered pair agrees with the edge relation: equal non-empty return and accept labels, and equal axis and dtype wherever both sides give one |
| Compat.InRange | root/src/codetutor/core/planner/compat.py:9-13 | every pair and every stop names cards inside the catalog |
| Compat.StopIff | root/src/codetutor/core/planner/compat.py:10-11 | a card is a stop exactly when its `post.is_valid_stop` is truthy |
| Compat.NoEdgeWithoutTypes | root/src/codetutor/core/planner/compat.py:14-17 | no edge leaves a card without a return type, and none enters a card without an accepted type |
| Compat.EdgeNeedsSameType | root/src/codetutor/core/planner/compat.py:14-19 | every edge joins a return label to an equal, non-empty accepted label |
| Compat.AxisGateVetoes | root/src/codetutor/core/planner/compat.py:23-26 | when both cards state an axis and the axes differ, there is no edge |
| Compat.DtypeGateVetoes | root/src/codetutor/core/planner/compat.py:29-32 | when both cards state a dtype and the dtypes differ, there is no edge |
| Compat.GatesAbsent | root/src/codetutor/core/planner/compat.py:19-35 | when the source card states no axis and no dtype, the gates are no-ops: the edge exists exactly when the type labels match |
| Compat.EdgeIff | root/src/codetutor/core/planner/compat.py:13-35 | a pair is in the graph exactly when both indices are in range and the cards pass the edge relation |
| Planner.SearchFrom | root/src/codetutor/core/planner/z3core.py:11-27 | any plan found satisfies every posted constraint, and "none" means that no assignment from the search position on satisfies them |
| Planner.TwoStepWitness | root/src/codetutor/core/planner/z3core.py:28-30 | a solution that does not use the third step is reported as the two-card plan `[x1, x2]` |
| Planner.ChoosePlan | root/src/codetutor/core/planner/z3core.py:6-30 | the plan returned satisfies the constraints, and no plan is returned exactly when the constraints are unsatisfiable |
| Planner.SatNeedsEdge | root/src/codetutor/core/planner/z3core.py:17-19 | every solution uses a pair leaving the start, so the early return on no outgoing pair loses no plan |
| Planner.SatNeedsThree | root/src/codetutor/core/planner/z3core.py:13-14 | with in-range pairs, any solution needs at least three cards, because all three variables are distinct and in range |
| Planner.PlanShape | root/src/codetutor/core/planner/z3core.py:11-30 | a plan has two or three distinct in-range cards, starts at the start card, follows edges and ends at a stop |
| Planner.NoOutgoingNoPlan | root/src/codetutor/core/planner/z3core.py:17-18 | a start card with no outgoing pair gives no plan |
| Planner.NoStopsNoPlan | root/src/codetutor/core/planner/z3core.py:23-26 | a catalog with no stops gives no plan |
| Planner.SmallCatalogNoPlan | root/src/codetutor/core/planner/z3core.py:13-14 | a catalog of at most two cards never gives a plan |
| Planner.TwoStepFound | root/src/codetutor/core/planner/z3core.py:22-30 | whenever a two-card plan to a stop exists, with a third distinct card in the catalog, some plan is returned |
| Planner.TwoCardCatalog | root/src/codetutor/core/planner/z3core.py:13-14 | the catalog "a → b, b → b, b is a stop" has the expected graph and stops, yet no plan |
| ArgSampler.ParamsOf | root/src/codetutor/core/generation/arg_sampler.py:6-8 | a falsy `args` value gives no parameters; a truthy one gives one parameter per element when it can be iterated, and raises when it cannot |
| ArgSampler.Elements | root/src/codetutor/core/generation/arg_sampler.py:8 | iterating a value gives the items of a list or tuple, the one-character strings of a string and the keys of a dict; any other value cannot be iterated |
| ArgSampler.ParamsOfSpec | root/src/codetutor/core/generation/arg_sampler.py:8 | a truthy `args` unpacks exactly when it can be iterated and every element gives exactly four values; each parameter holds its element's four values, with `required` read by truthiness |
| ArgSampler.ParamListSpec | root/src/codetutor/core/generation/arg_sampler.py:8 | a sequence of entries unpacks exactly when each entry does, and the i-th parameter is the i-th entry's |
| ArgSampler.UnusualEntries | root/src/codetutor/core/generation/arg_sampler.py:8 | entries that are not string tuples still unpack: an integer name, a list domain, a four-character string and a four-key dict; a one-character string `args` raises |
| ArgSampler.DropUnderscores | root/src/codetutor/core/generation/arg_sampler.py:26 | removing the underscores of a digit-and-underscore text leaves digits, and leaves a plain digit run unchanged |
| ArgSampler.ParseUnsignedDigits | root/src/codetutor/core/generation/arg_sampler.py:26 | `int()` reads a run of digits as its decimal value |
| ArgSampler.ParseSignedDigits | root/src/codetutor/core/generation/arg_sampler.py:26 | `int()` reads a digit run with an optional minus sign as the signed value |
| ArgSampler.ParseIntString | root/src/codetutor/core/generation/arg_sampler.py:26 | `int()` reads back the decimal text of every integer |
| ArgSampler.Coerce | root/src/codetutor/core/generation/arg_sampler.py:21-30 | a default always becomes a bool, int, float or string |
| ArgSampler.CoerceBoolText | root/src/codetutor/core/generation/arg_sampler.py:25 | `"true"` and `"false"`, in any case, become the matching bool |
| ArgSampler.CoerceIntText | root/src/codetutor/core/generation/arg_sampler.py:24-26 | the text of an integer becomes that integer |
| ArgSampler.CoerceIdempotent | root/src/codetutor/core/generation/arg_sampler.py:21-30 | coercing twice gives the same as coercing once |
| ArgSampler.NonBlank | root/src/codetutor/core/generation/arg_sampler.py:39 | the kept enum items are all non-empty |
| ArgSampler.NonBlankEmpty | root/src/codetutor/core/generation/arg_sampler.py:39-40 | no item is kept exactly when every item strips to nothing |
| ArgSampler.NonBlankFirst | root/src/codetutor/core/generation/arg_sampler.py:39-40 | the first kept item is the stripped form of the first item that does not strip to nothing |
| ArgSampler.AnyHasNoTag | root/src/codetutor/core/generation/arg_sampler.py:33-48 | the default domain `any` contains none of the tags the sampler looks for |
| ArgSampler.NoTagGivesOne | root/src/codetutor/core/generation/arg_sampler.py:33-48 | an empty domain, or a string, list, tuple or dict domain with none of the tags, gives the value 1 |
| ArgSampler.UnsearchableRaises | root/src/codetutor/core/generation/arg_sampler.py:33-40 | a truthy domain that `in` cannot search, such as a number, raises; so does an enum domain that is a list, tuple or dict, at its `find` |
| ArgSampler.SampleValueRanges | root/src/codetutor/core/generation/arg_sampler.py:33-35 | a domain with the `bool` tag gives a bool; otherwise one with the `int` tag gives an integer from 1 to 3; a list domain has a tag exactly when the tag is one of its items |
| ArgSampler.SampleEnum | root/src/codetutor/core/generation/arg_sampler.py:37-40 | an enum domain gives its first non-blank item, stripped, or `enumval` when every item is blank |
| ArgSampler.SampleContainers | root/src/codetutor/core/generation/arg_sampler.py:41-47 | the column-or-list, list, dict and str domains give the first column or a list of it, `[]`, `{}` and the first column, checked in that order |
| ArgSampler.KwargsOwnDraws | root/src/codetutor/core/generation/arg_sampler.py:8-18 | the arguments drawn for the first `k` parameters depend only on those parameters' own draws |
| ArgSampler.SampleKwargs | root/src/codetutor/core/generation/arg_sampler.py:6-19 | the loop returns exactly the argument dictionary of the per-parameter rules, and raises exactly when they raise |
| ArgSampler.KwargsRaise | root/src/codetutor/core/generation/arg_sampler.py:8-18 | the call raises exactly when some parameter that is included cannot get its value |
| ArgSampler.KwargsStaysNone | root/src/codetutor/core/generation/arg_sampler.py:8-18 | once one parameter raises, the whole call raises, whatever the later parameters are |
| ArgSampler.KwargsKeys | root/src/codetutor/core/generation/arg_sampler.py:8-18 | when the call returns, the keys are unique, and a name is a key exactly when some parameter with that name was included |
| ArgSampler.KwargsValueAt | root/src/codetutor/core/generation/arg_sampler.py:8-18 | with distinct parameter names, an included parameter's value is the one its own draw produced |
| ArgSampler.KwargsUnique | root/src/codetutor/core/generation/arg_sampler.py:7-19 | the argument dictionary never has a key twice |
| ArgSampler.RequiredPresent | root/src/codetutor/core/generation/arg_sampler.py:18 | when the call returns, every required parameter has an argument |
| ArgSampler.KeysAreNames | root/src/codetutor/core/generation/arg_sampler.py:8-18 | when the call returns, every key names a parameter |
| ArgSampler.DefaultOnlyCoerced | root/src/codetutor/core/generation/arg_sampler.py:9-12 | an optional parameter with a default is passed exactly when its coin is below 0.2, and then with its coerced default |
| Runner.AllowList | root/src/codetutor/core/sandbox/runner.py:15-23 | the module names written into the guard are strictly sorted |
| Runner.AllowSetSpec | root/src/codetutor/core/sandbox/runner.py:15-16 | a top-level name is allowed exactly when it is `builtins` or the first segment of an allowed module |
| Runner.AllowSetNeverEmpty | root/src/codetutor/core/sandbox/runner.py:15-16 | `builtins` is always allowed, and an empty allow list allows only `builtins` |
| Runner.PermitsBelow | root/src/codetutor/core/sandbox/runner.py:21-24 | the guard lets an allowed module and all its submodules through |
| Runner.RefusesOthers | root/src/codetutor/core/sandbox/runner.py:21-25 | the guard refuses any import whose top-level name is neither `builtins` nor the top of an allowed module |
| Runner.GuardAlwaysInstalled | root/src/codetutor/core/sandbox/runner.py:14-28 | the prelude always installs the guard, whatever the allow list |
| Runner.Payload | root/src/codetutor/core/sandbox/runner.py:33-34 | the child runs the prelude followed by a newline and the program, unchanged |
| Runner.ChildEnvSpec | root/src/codetutor/core/sandbox/runner.py:35-36 | the child's environment is the parent's, plus `PYTHONHASHSEED=0` only when the parent does not set it |
| Runner.ClassifySpec | root/src/codetutor/core/sandbox/runner.py:37-45 | a finished run is ok exactly when it exited with 0 and printed a non-blank character, and keeps its return code, output and error; a timeout is not ok, has return code -1 and stderr `"\nTIMEOUT"`, and keeps its partial output as bytes; a timeout after the child wrote to stderr raises, since bytes and text cannot be concatenated |
| Runner.RunOkNotBlank | root/src/codetutor/core/sandbox/runner.py:30-45 | an ok run always holds text output with a non-blank character |
| Runner.BlankOutputNotOk | root/src/codetutor/core/sandbox/runner.py:42 | a clean exit with blank output is not ok |
| Runner.PartialStderrRaises | root/src/codetutor/core/sandbox/runner.py:44-45 | a timeout after the child wrote to stderr raises as written, where the intended branch reports the decoded partial stderr followed by `TIMEOUT` |
| Runner.ClassifyIntendedSpec | root/src/codetutor/core/sandbox/runner.py:44-45 | with the partial output decoded, a timeout never raises and always holds text, keeps the partial stderr before `TIMEOUT`, and agrees with the code as written wherever that returns text |
| Inspectors.FingerprintShape | root/src/codetutor/core/sandbox/inspectors.py:5-6 | a fingerprint is the first 16 lower-case hex digits of the SHA-1 of the UTF-8 text |
| Inspectors.ValidateNonemptySpec | root/src/codetutor/core/sandbox/inspectors.py:40-42 | output is accepted exactly when it has a non-blank character, with the matching message |
| Inspectors.BlankIsText | root/src/codetutor/core/sandbox/inspectors.py:8-10 | blank output is classified as text |
| Inspectors.TextSummarySpec | root/src/codetutor/core/sandbox/inspectors.py:25-38 | a text summary holds the output's length and its first 800 characters |
| QuestionText.ShownPreview | root/src/codetutor/core/generation/text.py:10 | the preview shown is a prefix of the stripped output, at most 800 characters long |
| QuestionText.TemplateParts | root/src/codetutor/core/generation/text.py:5-10 | the question starts with the API list and ends with the shown preview; without a hint there is no inputs sentence; without requirements the default requirement is used |
| QuestionText.NoHintSame | root/src/codetutor/core/generation/text.py:8 | an empty hint reads like no hint |
| QuestionText.RenderFallsBack | root/src/codetutor/core/generation/text.py:31-45 | without a model name the text is the template; it differs from the template only when a model was named and paraphrasing gave non-empty text |
| FixturesAuto.CollectTypeLabels | root/src/codetutor/core/generation/fixtures_auto.py:14-20 | a label is collected exactly when it is the non-empty accepted or returned string label of some card |
| FixturesAuto.TypeLabelsSpec | root/src/codetutor/core/generation/fixtures_auto.py:14-20 | the set of labels holds exactly the non-empty string labels some card accepts or returns |
| FixturesAuto.MaterializeFixtures | root/src/codetutor/core/generation/fixtures_auto.py:31-44 | the loop builds exactly the fixture map of the labels in sorted order, or stops with the first error |
| FixturesAuto.FixturesForErr | root/src/codetutor/core/generation/fixtures_auto.py:34-37 | once a label raises, later labels do not change the outcome |
| FixturesAuto.FixturesForSpec | root/src/codetutor/core/generation/fixtures_auto.py:34-44 | the map is built exactly when every label's lookup succeeds, and then has one entry per label, in order, with that label's fixture |
| FixturesAuto.MaterializedFixtures | root/src/codetutor/core/generation/fixtures_auto.py:31-44 | the keys of the map are exactly the labels, sorted and without repeats, each with its own fixture |
| FixturesAuto.FixtureFromDict | root/src/codetutor/core/generation/fixtures_auto.py:35-43 | with a dict of pack fixtures, a label takes the pack's fixture when there is one and the placeholder otherwise |
| FixturesAuto.NoPackFixtures | root/src/codetutor/core/generation/fixtures_auto.py:32-43 | without a fixtures section every label gets the placeholder fixture |
| GenQuestion.FrameStarts | root/src/codetutor/core/cli/gen_question.py:17 | the frame starts are exactly the cards accepting a DataFrame or Series, in increasing order |
| GenQuestion.PickStartSpec | root/src/codetutor/core/cli/gen_question.py:16-18 | starts are the frame cards when there are any, otherwise every card; they are ordered and in range, and empty only for an empty catalog |
| GenQuestion.MissingAcceptsNeverStarts | root/src/codetutor/core/cli/gen_question.py:17 | a card without `accepts` is never a frame start, since `str(None)` is `"None"` |
| GenQuestion.TreeNeverFrame | root/src/codetutor/core/cli/gen_question.py:17 | a card whose `accepts` is a Lark tree never takes a frame, since `str` of a tree starts with `Tree(` |
| GenQuestion.AsWrittenEveryCardStarts | root/src/codetutor/core/cli/gen_question.py:16-18 | with the loader as written, no card takes a frame, so every card of the catalog is a start |
| GenQuestion.AsWrittenFactsLost | root/src/codetutor/core/dsl/loader.py:49-51 | as written, `pre.accepts = "DataFrame"` does not make a start card and `post.is_valid_stop = false` makes a stop |
| GenQuestion.FactsKept | root/src/codetutor/core/dsl/loader.py:49-51 | with converted values, `pre.accepts = "DataFrame"` or `"Series"` makes a start card and `post.is_valid_stop = false` does not make a stop |
| GenQuestion.KwargList | root/src/codetutor/core/cli/gen_question.py:26 | when sampling succeeds there is one argument dictionary per plan step |
| GenQuestion.Apis | root/src/codetutor/core/cli/gen_question.py:38 | the API list is the plan's qualified names, in plan order |
| GenQuestion.PreviewLines | root/src/codetutor/core/cli/gen_question.py:36 | the preview has at most five lines |
| GenQuestion.RunAndPack | root/src/codetutor/core/cli/gen_question.py:32-43 | a run that raises, or that is ok with bytes output, raises; a run that is not ok moves on; otherwise the pack holds the APIs, arguments and program, and the run's text output and its preview |
| GenQuestion.Budget | root/src/codetutor/core/cli/gen_question.py:25 | the number of attempts is `arg_resamples` when that is more than one, and one otherwise |
| GenQuestion.TryOnePlan | root/src/codetutor/core/cli/gen_question.py:20-44 | the loop returns the pack of the first successful attempt within the budget, nothing when none succeeds, and propagates a sampling exception |
| GenQuestion.OneAttempt | root/src/codetutor/core/cli/gen_question.py:26-43 | one attempt samples, realizes and runs as the attempt function says |
| GenQuestion.FailedAttempt | root/src/codetutor/core/cli/gen_question.py:27-34 | a failed realization or run moves on to the next attempt |
| GenQuestion.SampleSteps | root/src/codetutor/core/cli/gen_question.py:26 | the loop samples one argument dictionary per step, as the step list function says |
| GenQuestion.SampleCard | root/src/codetutor/core/cli/gen_question.py:26 | a card's arguments are sampled from its `args` list, or from none when `args` is falsy |
| GenQuestion.KwargListStaysNone | root/src/codetutor/core/cli/gen_question.py:26 | once one step's `args` cannot be sampled, the whole list cannot be |
| GenQuestion.KwargListOwnDraws | root/src/codetutor/core/cli/gen_question.py:25-26 | an attempt's arguments depend only on that attempt's draws |
| GenQuestion.SameKwargsSameAttempt | root/src/codetutor/core/cli/gen_question.py:26-43 | the outcome of an attempt depends only on the arguments it sampled |
| GenQuestion.OnlyBudgetAttempts | root/src/codetutor/core/cli/gen_question.py:25-44 | draws beyond the attempt budget never affect the result |
| GenQuestion.FoundPackShape | root/src/codetutor/core/cli/gen_question.py:25-43 | a found pack names the plan's APIs, has one argument dictionary per step, and holds an ok run with its output and a preview of at most five lines |
| GenQuestion.AttemptShape | root/src/codetutor/core/cli/gen_question.py:26-43 | a successful attempt has the same shape as a found pack |
| GenQuestion.MakeDoc | root/src/codetutor/core/cli/gen_question.py:71-92 | the document copies the library, APIs, arguments, program, preview and attempt, holds the output's 16-digit fingerprint, the template question for the APIs and preview, and the given creation time |
| GenQuestion.GenerateQuestionMulti | root/src/codetutor/core/cli/gen_question.py:46-97 | a catalog with no compatible pair exits with the no-pairs message; otherwise the outcome is the one the plan attempts decide, and a returned document was made from an ok run of its own program, by a planned plan, within `max_plans` attempts |
| GenQuestion.PlanLoop | root/src/codetutor/core/cli/gen_question.py:62-97 | the loop stops at the first attempt that raises or finds a pack, and otherwise runs all `max_plans` attempts |
| GenQuestion.PlanAttempt | root/src/codetutor/core/cli/gen_question.py:63-68 | one pass draws its start, plans from it and, when there is a plan, tries it with its own draws |
| GenQuestion.PlanAtPlanned | root/src/codetutor/core/cli/gen_question.py:63-64 | an attempt's plan is a planned plan from one of the start cards, within the catalog |
| GenQuestion.DecideStep | root/src/codetutor/core/cli/gen_question.py:62-68 | an attempt within the limit either moves on to the next or decides the outcome |
| GenQuestion.DecideFirstTaken | root/src/codetutor/core/cli/gen_question.py:62-94 | when every attempt before `u` moves on and `u` does not, attempt `u` decides |
| GenQuestion.DecideExhausted | root/src/codetutor/core/cli/gen_question.py:62-97 | the attempts end exhausted exactly when every attempt up to `max_plans` moves on |
| GenQuestion.DecideTakes | root/src/codetutor/core/cli/gen_question.py:62-94 | a taken pack was found by an attempt between the first and `max_plans` |
| GenQuestion.NoStopsExhausted | root/src/codetutor/core/cli/gen_question.py:62-97 | a catalog without stops always ends with the exhausted message |
| GenQuestion.OuterDoneGood | root/src/codetutor/core/cli/gen_question.py:62-94 | a returned document meets every guarantee of the outer loop |
| GenQuestion.TakenDocGood | root/src/codetutor/core/cli/gen_question.py:68-94 | the document made from an attempt's pack was made from an ok run of its own program and names a planned plan's APIs |
| GenQuestion.ChosenPlanned | root/src/codetutor/core/cli/gen_question.py:63-64 | a plan chosen from a start card is a planned plan whose cards are in range |
| Realizer.ValueCodeRoundTrip | root/src/codetutor/adapters/python/realize/realizer.py:9-16 | the code of every value the sampler produces other than a float reads back as that value |
| Realizer.ValueCodeInjective | root/src/codetutor/adapters/python/realize/realizer.py:9-16 | different values get different code |
| Realizer.ParseValueCode | root/src/codetutor/adapters/python/realize/realizer.py:9-16 | a value's code reads back as the value whatever delimiter follows it |
| Realizer.ArgsCodeRoundTrip | root/src/codetutor/adapters/python/realize/realizer.py:53 | the `k=v, ...` argument text reads back as the argument list when no key contains `=` |
| Realizer.CallTextEnds | root/src/codetutor/adapters/python/realize/realizer.py:55-63 | a call snippet starts by looking up the method on `curr` and ends by keeping `curr` |
| Realizer.QualCut | root/src/codetutor/adapters/python/realize/realizer.py:52-54 | the called name has no dot, and the module path, a dot and the name give back the qualified name |
| Realizer.CallSnippetSpec | root/src/codetutor/adapters/python/realize/realizer.py:46-63 | the snippet looks up the last segment of the name, quoted, on `curr`, falls back to the module before it, and ends by keeping `curr` |
| Realizer.SerializeSnippetEnds | root/src/codetutor/adapters/python/realize/realizer.py:65-91 | the serializer starts with `import sys` and always ends with the `str(curr)` fallback |
| Realizer.CascadeOrder | root/src/codetutor/adapters/python/realize/realizer.py:69-90 | the hint `csv` tries `to_csv` then `to_json`; `json` tries `to_json` then `to_dict`; any other hint tries the full cascade; `str` comes last |
| Realizer.InitialSetupSpec | root/src/codetutor/adapters/python/realize/realizer.py:28-44 | a label without a fixture gives empty imports, setup and hint; the imports are newline-terminated lines; the hint has no upper-case letter |
| Realizer.UpperHintLowered | root/src/codetutor/adapters/python/realize/realizer.py:43 | the serializer hint `CSV` is lowered to `csv` |
| Realizer.BodyExtends | root/src/codetutor/adapters/python/realize/realizer.py:110-113 | the body is one call snippet per plan step, in order |
| Realizer.RealizeFailsIff | root/src/codetutor/adapters/python/realize/realizer.py:97-101 | realization fails exactly when the first card has no accepted type, with the fixed message |
| Realizer.RealizeEndsWithSerializer | root/src/codetutor/adapters/python/realize/realizer.py:103-115 | a realized program ends with the serializer for its fixture's hint |
| Realizer.RealizeWithoutFixture | root/src/codetutor/adapters/python/realize/realizer.py:103-115 | without a fixture the program is the placeholder setup, the body and the full serializer cascade |
| PandasRealizer.InitialFixtureSpec | root/src/codetutor/adapters/python/realize/pandas_realizer.py:25-35 | only pandas DataFrames and Series have a fixture, both importing pandas, and the DataFrame fixture ends with `curr = df`; anything else fails with `No fixture for lib:label` |
| PandasRealizer.CallLineSpec | root/src/codetutor/adapters/python/realize/pandas_realizer.py:37-49 | a call line looks up the last segment of the name on `curr`, falls back to the module before it, and ends by keeping `curr` |
| PandasRealizer.RealizeProgramSpec | root/src/codetutor/adapters/python/realize/pandas_realizer.py:51-70 | realization succeeds exactly for pandas frames and series, and the program is the head, the fixture, one call line per step and the fixed tail |
| PandasRealizer.FalsyAcceptsIsFrame | root/src/codetutor/adapters/python/realize/pandas_realizer.py:53 | a first card without an accepted type is realized as if it accepted a DataFrame |
| PandasRealizer.SameNamesSameBody | root/src/codetutor/adapters/python/realize/pandas_realizer.py:55-58 | the body depends only on the plan's qualified names and arguments |
| SynthCards.LastIdPartSpec | root/src/codetutor/adapters/python/synth/synth_cards.py:12-15 | a missing or empty name gives nothing; otherwise the result is the dot-free last segment, and the part before it, a dot and the result give back the name |
| SynthCards.FirstIdentSpec | root/src/codetutor/adapters/python/synth/synth_cards.py:20-21 | no identifier is found exactly when no character can start one; a found identifier occurs as a whole token in the text |
| SynthCards.NormalizeGeneric | root/src/codetutor/adapters/python/synth/synth_cards.py:17-21 | an annotation such as `DataFrame[int]` normalises to its leading identifier |
| SynthCards.InferParams | root/src/codetutor/adapters/python/synth/synth_cards.py:23-49 | unreadable parameter JSON gives no parameters; otherwise there is one inferred parameter per record, in order |
| SynthCards.RequiredKinds | root/src/codetutor/adapters/python/synth/synth_cards.py:34-37 | a positional or keyword parameter is required exactly when it has no default or the `inspect._empty` default |
| SynthCards.DomainRules | root/src/codetutor/adapters/python/synth/synth_cards.py:39-47 | `inplace`/`ascending` are bool; column-like names are `str\|list[str]` unless the annotation says bool, int or float; without an annotation, names containing `axis` are `enum[axis]` and the rest `any` |
| SynthCards.InferReturnsSpec | root/src/codetutor/adapters/python/synth/synth_cards.py:55-59 | the return label is the normalised annotation when there is one, otherwise the owner's last segment |
| SynthCards.IsStopRules | root/src/codetutor/adapters/python/synth/synth_cards.py:61-69 | a stop has a non-empty return label; intermediates such as `DataFrameGroupBy` are never stops, even with a trailing newline; neither is a call named `GroupBy` |
| SynthCards.InferMutatesSpec | root/src/codetutor/adapters/python/synth/synth_cards.py:71-74 | mutation is never claimed; it is denied exactly when an `inplace` parameter exists, and unknown otherwise |
| SynthCards.CardBlock | root/src/codetutor/adapters/python/synth/synth_cards.py:98-125 | the block is the card's lines joined by newlines |
| SynthCards.CardLinesSpec | root/src/codetutor/adapters/python/synth/synth_cards.py:105-124 | the header comes first, the stop line and closing brace last, and there is one line for each present accepts, args, returns and mutates fact |
| SynthCards.CardBlockEnds | root/src/codetutor/adapters/python/synth/synth_cards.py:98-125 | a block starts with the card header and ends with the stop line and closing brace |
| SynthCards.SynthCards | root/src/codetutor/adapters/python/synth/synth_cards.py:127-153 | no rows is exactly the error exit, whose message names the library and the database path; otherwise the output is every row's card, in row order |
| SynthCards.RowBlock | root/src/codetutor/adapters/python/synth/synth_cards.py:139-149 | one row gives the card block of its inferred facts |
| SynthCards.RowCardFrame | root/src/codetutor/adapters/python/synth/synth_cards.py:138-149 | a row's card has profile `auto` and ends with the stop line its return label implies |
| Scan.MaxModDepth | root/src/codetutor/adapters/python/scan/scan.py:96-101 | `light` limits modules to the root's depth, `mid` to one level more, and anything else is unlimited |
| Scan.DepthOrder | root/src/codetutor/adapters/python/scan/scan.py:97-101 | `full` is looser than `mid`, which is looser than `light`; unknown depths act as `full`, which never cuts |
| Scan.ScanLibrary | root/src/codetutor/adapters/python/scan/scan.py:103-174 | the records are the walks of the root's members, in order |
| Scan.WalkWellFormed | root/src/codetutor/adapters/python/scan/scan.py:103-122 | no record is for an alias or a module, and each record is public exactly when its name is |
| Scan.WalkAllWellFormed | root/src/codetutor/adapters/python/scan/scan.py:114-122 | the same holds for the walk of several members |
| Scan.WalkMonotone | root/src/codetutor/adapters/python/scan/scan.py:111-116 | a looser depth limit only adds records |
| Scan.WalkAllMonotone | root/src/codetutor/adapters/python/scan/scan.py:111-116 | the same holds for the walk of several members |
| Scan.SkippedSubtrees | root/src/codetutor/adapters/python/scan/scan.py:104-113 | an alias, or a module beyond the limit, gives no records whatever its members |
| Scan.PublicIff | root/src/codetutor/adapters/python/scan/scan.py:122 | a name is public exactly when no dotted segment of it starts with `_` |
| Scan.Hash | root/src/codetutor/adapters/python/scan/scan.py:21-22 | a missing or empty text has no hash; any other text has its digest |
| Scan.LibraryHashPresent | root/src/codetutor/adapters/python/scan/scan.py:32 | a library row always has a hash, of `name:version` |
| Scan.SignatureRow | root/src/codetutor/adapters/python/scan/scan.py:62-69 | a signature row is written exactly when one of its three texts is non-empty, and holds them unchanged |
| Scan.DocstringRow | root/src/codetutor/adapters/python/scan/scan.py:71-78 | a docstring row is written exactly when the raw docstring is non-empty |
| JsonText.QuoteShape | root/src/codetutor/adapters/python/synth/synth_cards.py:9-10 | a quoted string is enclosed in double quotes and is printable ASCII |
| JsonText.EscapePrintable | root/src/codetutor/adapters/python/realize/realizer.py:10-11 | the escaped text is printable ASCII |
| JsonText.Hex4RoundTrip | root/src/codetutor/adapters/python/realize/realizer.py:10-11 | a `\u` escape's four hex digits read back as their code unit |
| JsonText.DecodeEscapeChar | root/src/codetutor/adapters/python/realize/realizer.py:10-11 | each character's escape decodes back to that character |
| JsonText.UnescapeEscape | root/src/codetutor/adapters/python/realize/realizer.py:10-11 | unescaping the escaped text gives back the text |
| JsonText.QuoteRoundTrip | root/src/codetutor/adapters/python/realize/realizer.py:10-11 | a quoted string reads back as the string |
| JsonText.QuoteInjective | root/src/codetutor/adapters/python/realize/realizer.py:10-11 | different strings quote differently |
| Utf8.EncodeChar | root/src/codetutor/core/sandbox/inspectors.py:6 | a character takes one to four bytes |
| Utf8.DecodeEncodeChar | root/src/codetutor/core/sandbox/inspectors.py:6 | a character's bytes decode back to it, whatever follows |
| Utf8.DecodeEncode | root/src/codetutor/core/sandbox/inspectors.py:6 | the bytes of a text decode back to the text |
| Utf8.EncodeInjective | root/src/codetutor/adapters/python/scan/scan.py:22 | different texts have different bytes |
| PyValues.LabelEmpty | root/src/codetutor/core/planner/compat.py:14-15 | `str(x or "")` is empty exactly when `x` is falsy |
| PyValues.ReprChar | root/src/codetutor/adapters/python/realize/realizer.py:16 | inside a string's `repr`, a backslash or the quote becomes a backslash and the character, a tab, newline or carriage return becomes `\t`, `\n` or `\r`, any other Latin-1 character that is not printable becomes `\xNN` with two lower-case hex digits, and any other character stays as it is |
| PyValues.ReprBodyPrintable | root/src/codetutor/adapters/python/realize/realizer.py:16 | the `repr` of a string never contains a Latin-1 character that is not printable |
| PyValues.DictPutSpec | root/src/codetutor/core/generation/arg_sampler.py:11-18 | assigning a key keeps the keys unique, sets that key, keeps every other entry, keeps the order of existing keys, and appends a new key at the end |

## Left out

- Storage: the SQLite database is not modelled, nor are file reads and
  writes. This covers the scan tables, the card, fixture and question
  files, and the JSON of a fixture map. Each stage takes and returns the
  rows or values those files hold.
- Library introspection: `griffe`, `importlib` and `inspect` are not
  modelled. This covers `_import_qualname`, signatures and docstrings, and
  docstring parsing. `scan_library` takes the loaded member tree. The
  per-symbol signature, docstring and hash texts are not derived; only the
  guards that decide whether their rows are written are modelled.
- `_insert_symbol`'s `INSERT OR IGNORE` deduplication is not modelled.
  Storage is not modelled.
- Hashes: the BLAKE3 and SHA-1 digests are parameters.
- Card parsing: the Lark grammar and parser are not modelled.
  `load_cards` takes the parsed card blocks. The number and string token
  conversions and the fact, link and card actions are modelled. The rest
  of the model loads facts with their converted values, not with the Lark
  tree the code as written stores (see "Findings").
- The parameter JSON that `infer_params` reads arrives already decoded,
  as records; `None` stands for JSON that does not parse.
- Floats are kept as their literal text. Neither their value nor
  `round(uniform(0.1, 3.0), 2)` is modelled. The float domain's draw is
  the text of the drawn number.
- ArgSampler.Coerce: a text that Python's `float()` accepts and `int()`
  rejects (such as `"1.5"`) stays a string instead of becoming a float,
  because float values are not modelled.
- Realizer.ValueCodeRoundTrip: the code of a float is not read back,
  because float values are held as their text and not as numbers; the
  round trip covers every other value the sampler produces.
- PyValues.ReprChar: only the Latin-1 characters that `str.isprintable()`
  rejects are escaped. Characters above U+00FF that Python also escapes,
  such as U+200B and U+2028, are kept as they are, because the Unicode
  character database is not modelled.
- Strs.LowerAscii: only ASCII letters are lowered. Python's `str.lower`
  also folds other scripts.
- Randomness: `random.random`, `random.choice` and `random.randint` are
  parameters. This covers the draws of the sampler, the start choice and
  the serializer choice.
- The clock: `time.time` is a parameter.
- The child interpreter: the process is a parameter returning its exit
  code, output and error, or a timeout. The 8-second timeout value and
  the `CT_TIMEOUT` variable are not modelled.
- Planner.ChoosePlan: it returns the first satisfying assignment in a
  fixed search order. The model does not pin down which model Z3 would
  return. It claims only that the plan satisfies the constraints, and
  that there is no plan exactly when they are unsatisfiable.
- Output classification: the CSV and JSON readers in `detect_format` and
  `summarize` are parameters. The CSV and JSON summaries are built from
  what those parameters return.
- The FLAN paraphraser (`_try_load_flan`, `_paraphrase_with_flan`) is a
  parameter of `render_question`.
- `core/generation/realize_universal.py` is not part of this model.
  `gen_question` imports `realize_program` from it, so realization is a
  parameter of the generation loop. The two realizers in
  `adapters/python/realize` are modelled on their own.
- GenQuestion.GenerateQuestionMulti: every exception the source lets
  escape becomes one `Crash` outcome, with no type or message. Examples
  are an `args` entry that does not unpack and a timed-out run with
  partial stderr.
- ArgSampler.Coerce: `int()` reads only ASCII digits. Python also reads
  other Unicode decimal digits, such as Arabic-Indic ones.
- ArgSampler.Kwargs: names that Python treats as one dictionary key, such
  as `1`, `True` and `1.0`, are kept apart. Keys are compared as values.
- Realizer.InitialSetup: the fixture's fields are typed. The model does
  not cover fixture JSON with other types, such as a string `imports` that
  would be joined character by character, or the raise on a null
  `imports` or on a truthy serializer that is not a string.
- Exits: `SystemExit` and `sys.exit` are modelled as error results that
  carry their messages.
- `qual_to_obj` in `pandas_realizer.py` imports modules at run time and
  is not modelled. Nothing in the realizer calls it.
- `value_code` in `pandas_realizer.py` is the same function as
  `_value_code` in `realizer.py`, and is modelled once
  (`Realizer.ValueCode`).
- Not modelled, because each only composes file and database I/O with
  the stages above:
  - `load_pack`, `write_fixtures` and `auto_fixtures` in
    `fixtures_auto.py`;
  - `_load_fixture_map` in `realizer.py`;
  - `rows_for_library` in `synth_cards.py`;
  - `_connect` and `_ensure_schema` in `scan.py`.
- The command-line entry points of each module are not modelled.

## Findings

| source | as written | input that shows it | evidently intended | confidence | as-written member | corrected member |
|---|---|---|---|---|---|---|
| root/src/codetutor/core/sandbox/runner.py:44-45 | the timeout branch adds `"\nTIMEOUT"` to `e.stderr`, which is bytes even under `text=True` | a program that writes to stderr and then runs past the timeout: `bytes + str` raises `TypeError` | report the timeout with the decoded partial stderr followed by `TIMEOUT`, and the decoded partial stdout | not executed | Runner.PartialStderrRaises | Runner.ClassifyIntendedSpec |
| root/src/codetutor/core/dsl/loader.py:49-56 | `fact` and `modal_fact` store `_vp.transform(Tree("value", …))`; `_ToPython` has no `value` callback, so Lark's default callback returns `Tree('value', [v])` and not `v` | a catalog whose cards say `pre.accepts = "DataFrame"` and `post.is_valid_stop = false`: no card is a frame start, so every card is a start, and every such card is a stop | store the converted value `v` | not executed; rests on Lark's default transformer callback, which is not part of this model | GenQuestion.AsWrittenEveryCardStarts | GenQuestion.FactsKept |

The generation loop keeps the runner as written, because it models what
`generate_question_multi` does: such a timeout ends the run as a `Crash`.
Every generation lemma other than those about `GenerateQuestionMulti`
holds for any runner, and so for the corrected one too.

The rest of the model loads cards with `Cards.MakeFact`, which stores the
converted value. With the loader as written, `str()` of a stored value is
the text of a Lark tree. So labels never equal a type name, and a stored
`false` is truthy. `args` is then a tree and not a list.
