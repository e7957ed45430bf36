/**
 * The question text for a generated program: a fixed template naming the
 * APIs, the optional inputs hint, the requirements and the output preview,
 * optionally paraphrased by a language model. The model is an input
 * (`paraphrase`); `None` stands for a model that cannot be loaded.
 */
module QuestionText {
  import opened Strs

  const DefaultRequirement := "Follow the API requirements exactly."
  const PreviewLimit := 800

  /** The preview as shown: stripped, then cut to 800 characters. */
  function ShownPreview(preview: string): (r: string)
    ensures |r| <= PreviewLimit && |r| <= |Strip(preview)| && r == Strip(preview)[..|r|]
  {
    Take(Strip(preview), PreviewLimit)
  }

  /** The opening sentence, naming the APIs in order. */
  function Head(apis: seq<string>): string
  {
    "Use exactly these APIs: " + Join(", ", apis) + " to produce an output matching the preview below."
  }

  /** `" Inputs: <hint>."` for a non-empty hint, nothing otherwise. */
  function InputsSegment(hint: Option<string>): string
  {
    if hint.Some? && hint.value != "" then " Inputs: " + hint.value + "." else ""
  }

  /** The requirements joined by `"; "`, or the default sentence when there are none. */
  function RequirementText(requirements: seq<string>): string
  {
    if |requirements| > 0 then Join("; ", requirements) else DefaultRequirement
  }

  /** The closing part: requirements, then the shown preview. */
  function Tail(requirements: seq<string>, preview: string): string
  {
    " Requirements: " + RequirementText(requirements) + " Output preview:\n" + ShownPreview(preview)
  }

  /** `_template_question` */
  function TemplateQuestion(apis: seq<string>, preview: string, requirements: seq<string>, hint: Option<string>): string
  {
    Head(apis) + InputsSegment(hint) + Tail(requirements, preview)
  }

  /**
   * The template opens with the API list and closes with the shown preview;
   * the inputs segment is there only for a non-empty hint, and an empty
   * requirement list shows the default sentence.
   */
  lemma TemplateParts(apis: seq<string>, preview: string, requirements: seq<string>, hint: Option<string>)
    ensures var t := TemplateQuestion(apis, preview, requirements, hint);
      && StartsWith(t, "Use exactly these APIs: " + Join(", ", apis))
      && EndsWith(t, " Output preview:\n" + ShownPreview(preview))
      && (hint.None? || hint.value == "" ==> t == Head(apis) + Tail(requirements, preview))
      && (|requirements| == 0 ==> RequirementText(requirements) == DefaultRequirement)
  {
    PrefixOfFour("Use exactly these APIs: " + Join(", ", apis), " to produce an output matching the preview below.",
                 InputsSegment(hint), Tail(requirements, preview));
    SuffixOfNested(Head(apis) + InputsSegment(hint), " Requirements: " + RequirementText(requirements),
                   " Output preview:\n", ShownPreview(preview));
    if hint.None? || hint.value == "" {
      EmptyMiddle(Head(apis), Tail(requirements, preview));
    }
  }

  lemma PrefixOfFour(a: string, b: string, c: string, d: string)
    ensures StartsWith(a + b + c + d, a)
  {
    assert (a + b + c + d)[..|a|] == a;
  }

  lemma SuffixOfNested(u: string, m: string, l: string, s: string)
    ensures EndsWith(u + (m + l + s), l + s)
  {
    var t := u + (m + l + s);
    assert t[|t| - |l + s|..] == l + s;
  }

  lemma EmptyMiddle(a: string, b: string)
    ensures a + "" + b == a + b
  {
  }

  /** A hint-less template does not depend on which falsy hint was given. */
  lemma NoHintSame(apis: seq<string>, preview: string, requirements: seq<string>)
    ensures TemplateQuestion(apis, preview, requirements, None) == TemplateQuestion(apis, preview, requirements, Some(""))
  {
  }

  datatype Question = Question(text: string, requirements: seq<string>)

  /**
   * `render_question`: the template, or its paraphrase when a model name is
   * given and the paraphrase is not empty. Missing requirements are `[]`.
   */
  function RenderQuestion(apis: seq<string>, preview: string, hint: Option<string>,
                          requirements: Option<seq<string>>, modelName: Option<string>,
                          paraphrase: (string, string) -> Option<string>): (q: Question)
  {
    var reqs := if requirements.Some? then requirements.value else [];
    var base := TemplateQuestion(apis, preview, reqs, hint);
    var text :=
      if modelName.Some? && modelName.value != "" then
        var p := paraphrase("Rewrite as a concise coding exercise without revealing solution code:\n" + base, modelName.value);
        if p.Some? && p.value != "" then p.value else base
      else base;
    Question(text, reqs)
  }

  /**
   * Without a model name the text is the template; with one, it is the
   * template whenever the paraphrase is unavailable or empty. The
   * requirements are given back, or `[]`.
   */
  lemma RenderFallsBack(apis: seq<string>, preview: string, hint: Option<string>,
                        requirements: Option<seq<string>>, modelName: Option<string>,
                        paraphrase: (string, string) -> Option<string>)
    ensures var q := RenderQuestion(apis, preview, hint, requirements, modelName, paraphrase);
      var reqs := if requirements.Some? then requirements.value else [];
      var base := TemplateQuestion(apis, preview, reqs, hint);
      && q.requirements == reqs
      && (modelName.None? || modelName.value == "" ==> q.text == base)
      && (q.text != base ==> q.text != "" && modelName.Some? && modelName.value != "")
  {
  }
}
