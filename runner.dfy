/**
 * The sandbox policy around running a generated program: the import
 * allow-set and the guard that enforces it, the prelude that installs the
 * guard, the child environment, and how a finished (or timed-out) process is
 * classified. Starting the interpreter is an input: `process` stands for it.
 */
module Runner {
  import opened Strs
  import opened PyValues
  import opened Utf8

  /**
   * What a result holds as its output: the text of a finished run, or the
   * bytes a timed-out run left behind (Python does not decode those).
   */
  datatype Captured = Chars(text: string) | Bytes(bytes: seq<Byte>)

  datatype SandboxResult = SandboxResult(ok: bool, returncode: int, stdout: Captured, stderr: string, timedOut: bool)

  /**
   * What the child interpreter did: exited with its decoded output, or ran
   * past the timeout, leaving the bytes it had written so far (`None` when
   * it wrote nothing to that stream).
   */
  datatype ProcessOutcome =
    | Exited(returncode: int, out: string, err: string)
    | TimedOut(partialOut: Option<seq<Byte>>, partialErr: Option<seq<Byte>>)

  // ---------------------------------------------------------------------------
  // The allow-set and the guard

  /** The top-level package of each allowed name, plus `builtins`, in sorted order. */
  function AllowList(allowed: seq<string>): (r: seq<string>)
    ensures StrictlySorted(r)
  {
    SortedUnique(seq(|allowed|, k requires 0 <= k < |allowed| => FirstPart(allowed[k], '.')) + ["builtins"])
  }

  /** `{m.split('.')[0] for m in allowed} | {"builtins"}` */
  function AllowSet(allowed: seq<string>): set<string>
  {
    set x | x in AllowList(allowed)
  }

  /** The allow-set holds `builtins` and the top-level package of each allowed name, and nothing else. */
  lemma AllowSetSpec(allowed: seq<string>, x: string)
    ensures x in AllowSet(allowed) <==> x == "builtins" || exists m :: m in allowed && FirstPart(m, '.') == x
  {
    var tops := seq(|allowed|, k requires 0 <= k < |allowed| => FirstPart(allowed[k], '.'));
    assert x in tops + ["builtins"] <==> x in tops || x == "builtins";
    if exists m :: m in allowed && FirstPart(m, '.') == x {
      var m :| m in allowed && FirstPart(m, '.') == x;
      var k :| 0 <= k < |allowed| && allowed[k] == m;
      assert tops[k] == x;
    }
  }

  /** The allow-set is never empty: with no allowed name it is `{"builtins"}`. */
  lemma AllowSetNeverEmpty(allowed: seq<string>)
    ensures "builtins" in AllowSet(allowed)
    ensures allowed == [] ==> AllowSet(allowed) == {"builtins"}
  {
    AllowSetSpec(allowed, "builtins");
    if allowed == [] {
      forall x | x in AllowSet(allowed) ensures x == "builtins" {
        AllowSetSpec(allowed, x);
      }
    }
  }

  /** The guard's rule: a module may be imported iff its top-level package is allowed. */
  predicate Permits(allowed: seq<string>, fullname: string)
  {
    FirstPart(fullname, '.') in AllowSet(allowed)
  }

  /** An allowed name and every module below it can be imported. */
  lemma PermitsBelow(allowed: seq<string>, m: string, rest: string)
    requires m in allowed
    ensures Permits(allowed, m)
    ensures Permits(allowed, m + "." + rest)
  {
    AllowSetSpec(allowed, FirstPart(m, '.'));
    FirstPartPrefix(m, rest, '.');
    assert m + "." + rest == m + ['.'] + rest;
  }

  /** A module whose top-level package is neither allowed nor `builtins` is refused. */
  lemma RefusesOthers(allowed: seq<string>, fullname: string)
    requires FirstPart(fullname, '.') != "builtins"
    requires forall m :: m in allowed ==> FirstPart(m, '.') != FirstPart(fullname, '.')
    ensures !Permits(allowed, fullname)
  {
    AllowSetSpec(allowed, FirstPart(fullname, '.'));
  }

  // ---------------------------------------------------------------------------
  // The prelude and the payload

  /** The prelude for a sorted allow-list and the flag that decides whether the guard is installed. */
  function PreludeText(names: seq<string>, install: bool): string
  {
    var listed := Repr(VList(seq(|names|, k requires 0 <= k < |names| => VStr(names[k]))));
    "\nimport sys\n"
    + "class _Guard:\n"
    + "    def find_spec(self, fullname, path=None, target=None):\n"
    + "        base = fullname.split('.')[0]\n"
    + "        if base in " + listed + ":\n"
    + "            return None\n"
    + "        raise ImportError(f\"Module {fullname} not allowed in sandbox\")\n"
    + "if " + (if install then "True" else "False") + ":\n"
    + "    sys.meta_path.insert(0, _Guard())\n"
  }

  /** `_import_guard_prelude(allowed)`: the guard is installed when the allow-set is not empty. */
  function Prelude(allowed: seq<string>): string
  {
    var names := AllowList(allowed);
    PreludeText(names, |names| > 0)
  }

  /** The guard is always installed, even for an empty allow-list. */
  lemma GuardAlwaysInstalled(allowed: seq<string>)
    ensures Prelude(allowed) == PreludeText(AllowList(allowed), true)
  {
    AllowSetNeverEmpty(allowed);
  }

  /** `prelude + "\n" + code`; no allow-list counts as an empty one. */
  function Payload(code: string, allowed: Option<seq<string>>): (p: string)
    ensures EndsWith(p, "\n" + code)
  {
    var prelude := Prelude(if allowed.Some? then allowed.value else []);
    Ends(prelude, "\n" + code);
    prelude + ("\n" + code)
  }

  /** The child's environment: `PYTHONHASHSEED` is set to `"0"` only when it is not already set. */
  function ChildEnv(env: map<string, string>): (r: map<string, string>)
  {
    if "PYTHONHASHSEED" in env then env else env["PYTHONHASHSEED" := "0"]
  }

  lemma ChildEnvSpec(env: map<string, string>)
    ensures "PYTHONHASHSEED" in ChildEnv(env)
    ensures ChildEnv(env)["PYTHONHASHSEED"] == if "PYTHONHASHSEED" in env then env["PYTHONHASHSEED"] else "0"
    ensures forall k :: k in env ==> k in ChildEnv(env) && ChildEnv(env)[k] == env[k]
    ensures forall k :: k in ChildEnv(env) ==> k in env || k == "PYTHONHASHSEED"
  {
  }

  // ---------------------------------------------------------------------------
  // Classification

  /** Python's `x or ""` on a partial stream: empty when nothing was written. */
  predicate Wrote(partial: Option<seq<Byte>>)
  {
    partial.Some? && |partial.value| > 0
  }

  /**
   * The sandbox result for a process outcome, or `None` when building it
   * raises: after a timeout, `e.stderr` is bytes, and adding `"\nTIMEOUT"` to
   * non-empty bytes is a `TypeError`. Partial stdout is kept as bytes.
   */
  function Classify(o: ProcessOutcome): Option<SandboxResult>
  {
    match o
    case Exited(rc, out, err) => Some(SandboxResult(rc == 0 && Strip(out) != "", rc, Chars(out), err, false))
    case TimedOut(out, err) =>
      if Wrote(err) then None
      else Some(SandboxResult(false, -1, if Wrote(out) then Bytes(out.value) else Chars(""), "\nTIMEOUT", true))
  }

  /**
   * `run_code`: the payload and the child environment go to the interpreter;
   * its outcome is classified. `None` is the `TypeError` `run_code` raises.
   */
  function RunCode(code: string, allowed: Option<seq<string>>, env: map<string, string>,
                   process: (string, map<string, string>) -> ProcessOutcome): Option<SandboxResult>
  {
    Classify(process(Payload(code, allowed), ChildEnv(env)))
  }

  /**
   * Classification raises exactly for a timeout whose stderr was written to.
   * Otherwise a run is ok iff the program exited with 0 and printed something
   * other than whitespace; exactly the timed-out runs are marked so, with
   * return code -1, stderr `"\nTIMEOUT"` and their partial stdout as bytes.
   */
  lemma ClassifySpec(o: ProcessOutcome)
    ensures Classify(o).None? <==> o.TimedOut? && Wrote(o.partialErr)
    ensures Classify(o).Some? ==> var r := Classify(o).value;
      && (r.ok <==> o.Exited? && o.returncode == 0 && exists k :: 0 <= k < |o.out| && !IsSpace(o.out[k]))
      && (r.timedOut <==> o.TimedOut?)
      && (o.TimedOut? ==> r.returncode == -1 && r.stderr == "\nTIMEOUT"
                          && r.stdout == if Wrote(o.partialOut) then Bytes(o.partialOut.value) else Chars(""))
      && (o.Exited? ==> r.returncode == o.returncode && r.stdout == Chars(o.out) && r.stderr == o.err)
  {
    if o.Exited? {
      StripEmpty(o.out);
    }
  }

  /** An ok run printed text with something other than whitespace in it. */
  lemma RunOkNotBlank(code: string, allowed: Option<seq<string>>, env: map<string, string>,
                      process: (string, map<string, string>) -> ProcessOutcome)
    ensures var r := RunCode(code, allowed, env, process);
      r.Some? && r.value.ok ==>
        r.value.stdout.Chars? && Strip(r.value.stdout.text) != ""
        && exists k :: 0 <= k < |r.value.stdout.text| && !IsSpace(r.value.stdout.text[k])
  {
    var o := process(Payload(code, allowed), ChildEnv(env));
    ClassifySpec(o);
  }

  // ---------------------------------------------------------------------------
  // The timeout branch as evidently intended

  /**
   * The timeout branch as it is evidently meant to work: the partial output,
   * decoded by `decode`, stands in for the text a finished run would have
   * given, and `TIMEOUT` follows the partial stderr.
   */
  function ClassifyIntended(o: ProcessOutcome, decode: seq<Byte> -> string): SandboxResult
  {
    match o
    case Exited(_, _, _) => Classify(o).value
    case TimedOut(out, err) =>
      SandboxResult(false, -1, Chars(if Wrote(out) then decode(out.value) else ""),
                    (if Wrote(err) then decode(err.value) else "") + "\nTIMEOUT", true)
  }

  /**
   * The intended classification never raises and always holds text; it
   * keeps the partial stderr before `TIMEOUT`, and it agrees with `Classify`
   * wherever that returns text.
   */
  lemma ClassifyIntendedSpec(o: ProcessOutcome, decode: seq<Byte> -> string)
    ensures var r := ClassifyIntended(o, decode);
      && r.stdout.Chars?
      && (r.timedOut <==> o.TimedOut?)
      && (o.TimedOut? ==> !r.ok && r.returncode == -1
                          && r.stderr == (if Wrote(o.partialErr) then decode(o.partialErr.value) else "") + "\nTIMEOUT")
      && (Classify(o).Some? && Classify(o).value.stdout.Chars? ==> r == Classify(o).value)
  {
  }

  /**
   * A timeout after the child wrote to stderr: the code as written raises,
   * where the intended branch reports the run with its partial stderr.
   */
  lemma PartialStderrRaises(out: Option<seq<Byte>>, err: seq<Byte>, decode: seq<Byte> -> string)
    requires |err| > 0
    ensures Classify(TimedOut(out, Some(err))).None?
    ensures ClassifyIntended(TimedOut(out, Some(err)), decode).stderr == decode(err) + "\nTIMEOUT"
  {
  }

  /** A zero exit with blank output is not ok. */
  lemma BlankOutputNotOk(out: string, err: string)
    requires forall k :: 0 <= k < |out| ==> IsSpace(out[k])
    ensures Classify(Exited(0, out, err)).Some? && !Classify(Exited(0, out, err)).value.ok
  {
    StripEmpty(out);
  }
}
