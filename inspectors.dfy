/**
 * Inspecting a program's output: its fingerprint (the first 16 hex digits of
 * the SHA-1 digest of its UTF-8 bytes, FIPS 180-4), the non-empty check, the
 * format guess and the summary. SHA-1, the CSV reader and the JSON parser
 * are inputs (`sha1`, `csvRows`, `jsonType`).
 */
module Inspectors {
  import opened Strs
  import opened Utf8

  /** `hashlib.sha1(text.encode("utf-8")).hexdigest()[:16]` */
  function Fingerprint(text: string, sha1: seq<Byte> -> string): string
  {
    Take(sha1(Encode(text)), 16)
  }

  predicate LowerHex(s: string)
  {
    forall k :: 0 <= k < |s| ==> '0' <= s[k] <= '9' || 'a' <= s[k] <= 'f'
  }

  /** A 40-digit hex digest gives a 16-digit hex fingerprint that starts the digest. */
  lemma FingerprintShape(text: string, sha1: seq<Byte> -> string)
    requires |sha1(Encode(text))| == 40 && LowerHex(sha1(Encode(text)))
    ensures var f := Fingerprint(text, sha1);
      |f| == 16 && LowerHex(f) && f == sha1(Encode(text))[..16]
  {
  }

  /** `validate_nonempty`: ok iff the output is not all whitespace. */
  function ValidateNonempty(stdout: string): (bool, string)
  {
    var ok := Strip(stdout) != "";
    (ok, if ok then "nonempty output" else "empty output")
  }

  lemma ValidateNonemptySpec(stdout: string)
    ensures var (ok, msg) := ValidateNonempty(stdout);
      && (ok <==> exists k :: 0 <= k < |stdout| && !IsSpace(stdout[k]))
      && msg == (if ok then "nonempty output" else "empty output")
  {
    StripEmpty(stdout);
  }

  datatype Format = Csv | Json | Text

  /**
   * `detect_format`: blank output is text; otherwise CSV when the reader
   * finds a row with a field, else JSON when it parses, else text.
   * `csvRows` is `None` when the reader raises; `jsonType` is `None` when the
   * text is not JSON.
   */
  function DetectFormat(stdout: string, csvRows: string -> Option<seq<seq<string>>>,
                        jsonType: string -> Option<string>): Format
  {
    var s := Strip(stdout);
    if s == "" then Text
    else
      var rows := csvRows(s);
      if rows.Some? && |rows.value| >= 1 && |rows.value[0]| >= 1 then Csv
      else if jsonType(s).Some? then Json
      else Text
  }

  /** Blank output is text, whatever the readers say. */
  lemma BlankIsText(stdout: string, csvRows: string -> Option<seq<seq<string>>>, jsonType: string -> Option<string>)
    requires forall k :: 0 <= k < |stdout| ==> IsSpace(stdout[k])
    ensures DetectFormat(stdout, csvRows, jsonType) == Text
  {
    StripEmpty(stdout);
  }

  datatype Summary =
    | CsvSummary(rows: int, cols: nat, header: seq<string>, preview: string)
    | JsonSummary(typeName: string, preview: string)
    | TextSummary(len: nat, preview: string)

  /** The summary of text output: its length and its first 800 characters. */
  function SummarizeText(stdout: string): Summary
  {
    TextSummary(|stdout|, Take(stdout, 800))
  }

  /**
   * `summarize`: by the detected format. `None` when the CSV reader raises
   * on the full output.
   */
  function Summarize(stdout: string, csvRows: string -> Option<seq<seq<string>>>,
                     jsonType: string -> Option<string>): Option<Summary>
  {
    match DetectFormat(stdout, csvRows, jsonType)
    case Csv =>
      (match csvRows(stdout)
       case None => None
       case Some(rows) =>
         var shown := Take(rows, 5);
         Some(CsvSummary(
           if |rows| > 0 then |rows| - 1 else 0,
           if |rows| > 0 then |rows[0]| else 0,
           if |rows| > 0 then rows[0] else [],
           Join("\n", seq(|shown|, k requires 0 <= k < |shown| => Join("\t", shown[k]))))))
    case Json =>
      var t := jsonType(stdout);
      Some(JsonSummary(if t.Some? then t.value else "invalid", Take(stdout, 800)))
    case Text => Some(SummarizeText(stdout))
  }

  /** A text summary counts every character and previews at most the first 800. */
  lemma TextSummarySpec(stdout: string, csvRows: string -> Option<seq<seq<string>>>,
                        jsonType: string -> Option<string>)
    requires DetectFormat(stdout, csvRows, jsonType) == Text
    ensures var r := Summarize(stdout, csvRows, jsonType);
      && r.Some? && r.value.TextSummary?
      && r.value.len == |stdout|
      && |r.value.preview| == (if |stdout| < 800 then |stdout| else 800)
      && stdout[..|r.value.preview|] == r.value.preview
  {
  }
}
