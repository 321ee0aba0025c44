/**
 * `Keboola\LuckyGuessRBundle\MainTransformation`: runs a named R module of
 * the bundle against the warehouse (`run`) and asks a module for the
 * parameters it accepts (`getParameters`).
 */
module MainTransformation {
  import opened Optional
  import opened Strings
  import opened OrderedMap
  import opened Php
  import opened ScriptRun

  const RScriptDir := "RScripts"

  const LibDir := "Lib"


  /* ---------------------------------------------------------------- */
  /* Script check                                                      */
  /* ---------------------------------------------------------------- */

  /** `__DIR__/RScripts/{script}.R`. */
  function ScriptPath(dir: string, ds: string, script: string): string {
    dir + ds + RScriptDir + ds + script + ".R"
  }

  /** A character of the class `[a-z0-9_.-]`, matched case-insensitively. */
  predicate IsNameChar(c: char) {
    'a' <= c <= 'z' || 'A' <= c <= 'Z' || '0' <= c <= '9' || c == '_' || c == '.' || c == '-'
  }

  /** `preg_match('#[a-z0-9_\.-]#i', $script)`: the pattern is not anchored. */
  predicate NameMatches(script: string) {
    exists i :: 0 <= i < |script| && IsNameChar(script[i])
  }

  function ScriptNotFound(path: string): Exception {
    UserError("I cannot find R script " + path + ", verify that 'script' is an existing R script.")
  }

  /**
   * The check `run` and `getParameters` make before running anything: the
   * name must match the pattern and the module file must exist.
   */
  function CheckScript(dir: string, ds: string, script: string, fileExists: string -> bool): (r: Option<Exception>)
    ensures r.None? <==> NameMatches(script) && fileExists(ScriptPath(dir, ds, script))
    ensures r.Some? ==> r.value == ScriptNotFound(ScriptPath(dir, ds, script))
  {
    var path := ScriptPath(dir, ds, script);
    if !NameMatches(script) || !fileExists(path) then Some(ScriptNotFound(path)) else None
  }

  /**
   * Because the pattern is not anchored, one allowed character anywhere
   * satisfies it, whatever surrounds it (path separators included); only a
   * name without any such character fails it.
   */
  lemma {:induction false} UnanchoredNameCheck(prefix: string, c: char, suffix: string)
    requires IsNameChar(c)
    ensures NameMatches(prefix + [c] + suffix)
    ensures !NameMatches("") && !NameMatches("/ /")
  {
    assert (prefix + [c] + suffix)[|prefix|] == c;
    assert forall i :: 0 <= i < |"/ /"| ==> !IsNameChar("/ /"[i]);
  }

  /* ---------------------------------------------------------------- */
  /* Running a module                                                  */
  /* ---------------------------------------------------------------- */

  /** The debug flag handed to the script: 1 when requested or in the `dev` environment, else 0. */
  function DebugFlag(debug: bool, environment: string): (r: int)
    ensures r == 0 || r == 1
    ensures r == 1 <==> debug || environment == "dev"
  {
    if debug || environment == "dev" then 1 else 0
  }

  /**
   * The result of a successful run: the standard output split at every
   * comma, each piece trimmed. There is one entry per piece, no entry holds
   * a comma, and none starts or ends with whitespace.
   */
  function SuccessResult(output: string): (r: seq<string>)
    ensures var pieces := Explode(output, ",");
      |r| == |pieces| && forall k :: 0 <= k < |r| ==> r[k] == Trim(pieces[k])
    ensures forall k :: 0 <= k < |r| ==> !Contains(r[k], ",") && Trimmed(r[k])
  {
    var pieces := Explode(output, ",");
    var r := seq(|pieces|, k requires 0 <= k < |pieces| => Trim(pieces[k]));
    ExplodeMeaning(output, ",");
    forall k | 0 <= k < |r| ensures !Contains(r[k], ",") && Trimmed(r[k]) {
      TrimKeepsAbsence(pieces[k], ',');
      TrimIsTrimmed(pieces[k]);
    }
    r
  }

  /** A comma-separated list of names comes back as the names, trimmed. */
  lemma {:induction false} SuccessResultOfNames(names: seq<string>)
    requires names != []
    requires forall k :: 0 <= k < |names| ==> !Contains(names[k], ",")
    ensures SuccessResult(Join(names, ",")) == seq(|names|, k requires 0 <= k < |names| => Trim(names[k]))
  {
    ExplodeJoin(names, ',');
  }

  /**
   * The `switch` on the exit code: 0 yields the success result; any other
   * code throws a user exception with the composed failure message.
   */
  method ClassifyRun(debug: int, process: ProcessResult) returns (r: Result<seq<string>>)
    ensures process.exitCode == 0 ==> r == Ok(SuccessResult(process.stdout))
    ensures process.exitCode != 0 ==> r == Throw(UserError(FailureMessage(debug != 0, process)))
  {
    if process.exitCode == 0 {
      r := Ok(SuccessResult(process.stdout));
    } else {
      var flag := Truthy(Int(debug));
      assert flag == (debug != 0);
      var message := ComposeFailure(flag, process);
      r := Throw(UserError(message));
    }
  }

  /* ---------------------------------------------------------------- */
  /* Uploads                                                           */
  /* ---------------------------------------------------------------- */

  /** `FileUploadOptions` as `run` sets them. */
  datatype FileUploadOptions = FileUploadOptions(isPermanent: bool, isPublic: bool, isSliced: bool, notify: bool, tags: seq<string>)

  datatype Upload = Upload(path: string, options: FileUploadOptions)

  /** `trim($fileTag)`: a tag as text, trimmed. */
  function FileTagText(tag: Value): string {
    TrimText(tag)
  }

  /** The tags of an uploaded file: the row's name, the module, `LuckyGuess`, then each file tag trimmed, in order. */
  function TagsFor(rowName: string, script: string, fileTags: seq<Value>): (tags: seq<string>)
    ensures |tags| == 3 + |fileTags|
    ensures tags[..3] == [rowName, script, LuckyGuessTag]
    ensures forall i :: 0 <= i < |fileTags| ==> tags[3 + i] == FileTagText(fileTags[i])
    decreases |fileTags|
  {
    if fileTags == [] then [rowName, script, LuckyGuessTag]
    else
      var n := |fileTags| - 1;
      var t := TagsFor(rowName, script, fileTags[..n]);
      var last := FileTagText(fileTags[n]);
      AppendKeepsPrefix(t, last, 3);
      assert forall i :: 0 <= i < n ==> fileTags[..n][i] == fileTags[i];
      t + [last]
  }

  lemma {:induction false} AppendKeepsPrefix(t: seq<string>, x: string, k: nat)
    requires k <= |t|
    ensures (t + [x])[..k] == t[..k]
    ensures forall i :: 0 <= i < |t| ==> (t + [x])[i] == t[i]
  {
  }

  /** The options of one upload: permanent, private, not sliced, no notification. */
  method UploadOptionsFor(rowName: string, script: string, fileTags: seq<Value>) returns (options: FileUploadOptions)
    ensures options == FileUploadOptions(true, false, false, false, TagsFor(rowName, script, fileTags))
  {
    var tags := [rowName, script, LuckyGuessTag];
    for i := 0 to |fileTags|
      invariant tags == TagsFor(rowName, script, fileTags[..i])
    {
      assert fileTags[..i + 1][..i] == fileTags[..i];
      tags := tags + [FileTagText(fileTags[i])];
    }
    assert fileTags[..|fileTags|] == fileTags;
    options := FileUploadOptions(true, false, false, false, tags);
  }

  /** One upload per row of `r__file_names`, in row order, of the file the row names in the working directory. */
  method Uploads(workingDir: string, ds: string, script: string, fileTags: seq<Value>, rows: seq<FileRow>)
    returns (uploads: seq<Upload>)
    ensures |uploads| == |rows|
    ensures forall i :: 0 <= i < |rows| ==>
      uploads[i] == Upload(workingDir + ds + rows[i].value,
                           FileUploadOptions(true, false, false, false, TagsFor(rows[i].name, script, fileTags)))
  {
    uploads := [];
    var i := 0;
    while i < |rows|
      invariant 0 <= i <= |rows|
      invariant |uploads| == i
      invariant forall j :: 0 <= j < i ==>
        uploads[j] == Upload(workingDir + ds + rows[j].value,
                             FileUploadOptions(true, false, false, false, TagsFor(rows[j].name, script, fileTags)))
    {
      var options := UploadOptionsFor(rows[i].name, script, fileTags);
      uploads := uploads + [Upload(workingDir + ds + rows[i].value, options)];
      i := i + 1;
    }
  }

  /* ---------------------------------------------------------------- */
  /* run                                                               */
  /* ---------------------------------------------------------------- */

  /**
   * What `run` puts on the command line: the wrapper and the driver by
   * their paths under the class's directory, the module as `{script}.R`,
   * the debug flag as a digit.
   */
  function MainInvocation(host: Host, dir: string, rScript: string, dbDriver: string, credentials: Credentials,
                          script: string, workingDir: string, sourceTable: string, params: Value, debug: int): Invocation
  {
    Invocation(
      rScript,
      dir + host.ds + RScriptDir + host.ds + "wrapper.R",
      script + ".R",
      dir + host.ds + LibDir + host.ds + dbDriver,
      ConnectionString(credentials.hostname, credentials.db),
      credentials,
      workingDir,
      sourceTable,
      ParamsToken(host.jsonEncode(params), host.os, host.escapeShellArg),
      IntToString(debug))
  }

  /** What a successful `run` did: the command line, the line logged for it, the result, the uploads. */
  datatype RunResponse = RunResponse(commandLine: string, logged: string, result: seq<string>, uploads: seq<Upload>)

  /**
   * The outcome of `run`, in the source's order of checks: a module that
   * fails its check throws that error; missing credentials throw; otherwise
   * the command line is built and logged with the password masked, and then
   * a failed process throws its failure message, while a successful one
   * gives the result and one upload per `r__file_names` row. `commandLine`
   * and `logged` are the command line and its log line when they were made.
   */
  predicate RunOutcome(host: Host, dir: string, fileExists: string -> bool, rScript: string, dbDriver: string,
                       environment: string, script: string, sourceTable: string, params: Value,
                       fileTags: seq<Value>, debug: bool, provisioning: Value, workingDir: string,
                       process: ProcessResult, rows: seq<FileRow>, r: Result<RunResponse>,
                       commandLine: Option<string>, logged: Option<string>)
  {
    && (var check := CheckScript(dir, host.ds, script, fileExists);
        check.Some? ==> r == Throw(check.value) && commandLine == None && logged == None)
    && (CheckScript(dir, host.ds, script, fileExists).None? && CredentialsFrom(provisioning).None? ==>
        r == Throw(UserError(CredentialsMissing)) && commandLine == None && logged == None)
    && (CheckScript(dir, host.ds, script, fileExists).None? && CredentialsFrom(provisioning).Some? ==>
        var flag := DebugFlag(debug, environment);
        var credentials := CredentialsFrom(provisioning).value;
        var line := CommandLine(MainInvocation(host, dir, rScript, dbDriver, credentials, script,
                                               workingDir, sourceTable, params, flag), host.escapeShellArg);
        var masked := "Executing command line " + MaskPassword(line, credentials.password);
        commandLine == Some(line) && logged == Some(masked) &&
        (process.exitCode != 0 ==> r == Throw(UserError(FailureMessage(flag == 1, process)))) &&
        (process.exitCode == 0 ==>
          r.Ok? && r.value.commandLine == line && r.value.logged == masked &&
          r.value.result == SuccessResult(process.stdout) &&
          |r.value.uploads| == |rows| &&
          forall i :: 0 <= i < |rows| ==>
            r.value.uploads[i] == Upload(workingDir + host.ds + rows[i].value,
                                         FileUploadOptions(true, false, false, false, TagsFor(rows[i].name, script, fileTags)))))
  }

  /**
   * `MainTransformation::run`. `dir` is the class's directory, `rScript`,
   * `dbDriver` and `environment` the container parameters, `provisioning`
   * the provisioning service's answer, `process` what the command line left
   * behind and `rows` the `r__file_names` rows read afterwards. The checks
   * come in the source's order: the module, the credentials, the exit code.
   */
  method Run(host: Host, dir: string, fileExists: string -> bool, rScript: string, dbDriver: string,
             environment: string, script: string, sourceTable: string, params: Value,
             fileTags: seq<Value>, debug: bool, provisioning: Value, workingDir: string,
             process: ProcessResult, rows: seq<FileRow>)
    returns (r: Result<RunResponse>, commandLine: Option<string>, logged: Option<string>)
    ensures RunOutcome(host, dir, fileExists, rScript, dbDriver, environment, script, sourceTable, params,
                       fileTags, debug, provisioning, workingDir, process, rows, r, commandLine, logged)
  {
    commandLine, logged := None, None;
    var check := CheckScript(dir, host.ds, script, fileExists);
    if check.Some? {
      return Throw(check.value), None, None;
    }
    var credentials := CredentialsFrom(provisioning);
    if credentials.None? {
      return Throw(UserError(CredentialsMissing)), None, None;
    }
    var flag := DebugFlag(debug, environment);
    var inv := MainInvocation(host, dir, rScript, dbDriver, credentials.value, script, workingDir, sourceTable, params, flag);
    var line := CommandLine(inv, host.escapeShellArg);
    var masked := "Executing command line " + MaskPassword(line, credentials.value.password);
    commandLine, logged := Some(line), Some(masked);
    var outcome := ClassifyRun(flag, process);
    if outcome.Throw? {
      r := Throw(outcome.error);
      return;
    }
    var uploads := Uploads(workingDir, host.ds, script, fileTags, rows);
    r := Ok(RunResponse(line, masked, outcome.value, uploads));
  }

  /* ---------------------------------------------------------------- */
  /* getParameters                                                     */
  /* ---------------------------------------------------------------- */

  /** A parameter as listed: a single value, or the values of a repeated name (and always of `packages`). */
  datatype Parameter = Scalar(value: string) | Several(values: seq<string>)

  /** What `exec` returned: the exit code and the output lines (error output included). */
  datatype ExecResult = ExecResult(exitCode: int, lines: seq<string>)

  /** One output line `name => value`: the trimmed text around `=>` when the line splits into exactly two parts. */
  function ParseLine(line: string): Option<(string, string)> {
    var components := Explode(line, "=>");
    if |components| != 2 then None else Some((Trim(components[0]), Trim(components[1])))
  }

  /**
   * A line is usable exactly when `=>` occurs in it once, and then gives the
   * trimmed text before and after that occurrence.
   */
  lemma {:induction false} ParseLineMeaning(line: string)
    ensures ParseLine(line).Some? <==> Find(line, "=>").Some? && !Contains(line[Find(line, "=>").value + 2..], "=>")
    ensures ParseLine(line).Some? ==> var i := Find(line, "=>").value;
      ParseLine(line).value == (Trim(line[..i]), Trim(line[i + 2..]))
  {
    ExplodeTwo(line, "=>");
  }

  /** The values already stored under a name, as the list they grow into. */
  function Previous(p: Option<Parameter>): seq<string> {
    match p
    case None => []
    case Some(Scalar(v)) => [v]
    case Some(Several(vs)) => vs
  }

  /** One pass of the loop over the output lines: unusable lines are skipped. */
  function Step(parameters: Dict<Parameter>, line: string): Dict<Parameter> {
    var parsed := ParseLine(line);
    if parsed.None? then parameters else Store(parameters, parsed.value.0, parsed.value.1)
  }

  /** A value is appended to the list of a name already present, or of `packages`; a new name gets it alone. */
  function Store(parameters: Dict<Parameter>, name: string, value: string): Dict<Parameter> {
    if Get(parameters, name).Some? || name == "packages" then
      Put(parameters, name, Several(Previous(Get(parameters, name)) + [value]))
    else
      Put(parameters, name, Scalar(Trim(value)))
  }

  /** The dictionary the loop builds from the lines, in order. */
  function ParametersOf(lines: seq<string>): Dict<Parameter> {
    if lines == [] then []
    else Step(ParametersOf(lines[..|lines| - 1]), lines[|lines| - 1])
  }

  /** The values given to `name` by the usable lines, in line order. */
  function NamedValues(lines: seq<string>, name: string): seq<string> {
    if lines == [] then []
    else NamedValues(lines[..|lines| - 1], name) + LineValues(lines[|lines| - 1], name)
  }

  /** The value a line gives to `name`, if it is usable and names it. */
  function LineValues(line: string, name: string): seq<string> {
    var parsed := ParseLine(line);
    if parsed.Some? && parsed.value.0 == name then [parsed.value.1] else []
  }

  /**
   * What the listing says about a name, independently of the loop: nothing
   * when no usable line gives it, its value when exactly one does (unless it
   * is `packages`), otherwise the list of its values.
   */
  function Expected(lines: seq<string>, name: string): Option<Parameter> {
    ExpectedOf(NamedValues(lines, name), name)
  }

  function ExpectedOf(vs: seq<string>, name: string): Option<Parameter> {
    if vs == [] then None
    else if |vs| == 1 && name != "packages" then Some(Scalar(vs[0]))
    else Some(Several(vs))
  }

  /** The loop computes the listing's meaning for every name. */
  lemma {:induction false} ParametersMeaning(lines: seq<string>, name: string)
    ensures Get(ParametersOf(lines), name) == Expected(lines, name)
    decreases |lines|
  {
    if lines != [] {
      var prefix := lines[..|lines| - 1];
      ParametersMeaning(prefix, name);
      StepMeaning(ParametersOf(prefix), lines[|lines| - 1], name, NamedValues(prefix, name));
    }
  }

  /** One loop pass adds the line's value to what the dictionary says about the name. */
  lemma {:induction false} StepMeaning(p: Dict<Parameter>, line: string, name: string, vs: seq<string>)
    requires Get(p, name) == ExpectedOf(vs, name)
    ensures Get(Step(p, line), name) == ExpectedOf(vs + LineValues(line, name), name)
  {
    if ParseLine(line).None? {
      StepSkips(p, line, name, vs);
    } else if ParseLine(line).value.0 == name {
      StepSameName(p, line, name, vs);
    } else {
      StepOtherName(p, line, name, vs);
    }
  }

  lemma {:induction false} StepSkips(p: Dict<Parameter>, line: string, name: string, vs: seq<string>)
    requires Get(p, name) == ExpectedOf(vs, name)
    requires ParseLine(line).None?
    ensures Get(Step(p, line), name) == ExpectedOf(vs + LineValues(line, name), name)
  {
    assert vs + [] == vs;
  }

  lemma {:induction false} StepOtherName(p: Dict<Parameter>, line: string, name: string, vs: seq<string>)
    requires Get(p, name) == ExpectedOf(vs, name)
    requires ParseLine(line).Some? && ParseLine(line).value.0 != name
    ensures Get(Step(p, line), name) == ExpectedOf(vs + LineValues(line, name), name)
  {
    StoreOther(p, ParseLine(line).value.0, ParseLine(line).value.1, name);
    assert vs + [] == vs;
  }

  lemma {:induction false} StepSameName(p: Dict<Parameter>, line: string, name: string, vs: seq<string>)
    requires Get(p, name) == ExpectedOf(vs, name)
    requires ParseLine(line).Some? && ParseLine(line).value.0 == name
    ensures Get(Step(p, line), name) == ExpectedOf(vs + LineValues(line, name), name)
  {
    ParsedValueTrimmed(line);
    AddValue(p, name, ParseLine(line).value.1, vs);
  }

  lemma {:induction false} StoreOther(p: Dict<Parameter>, n: string, v: string, name: string)
    requires n != name
    ensures Get(Store(p, n, v), name) == Get(p, name)
  {
  }

  lemma {:induction false} ParsedValueTrimmed(line: string)
    requires ParseLine(line).Some?
    ensures Trim(ParseLine(line).value.1) == ParseLine(line).value.1
  {
    TrimIdempotent(Explode(line, "=>")[1]);
  }

  /** Storing a new value under a name, as the loop body does. */
  lemma {:induction false} AddValue(p: Dict<Parameter>, name: string, v: string, vs: seq<string>)
    requires Get(p, name) == ExpectedOf(vs, name)
    requires Trim(v) == v
    ensures Get(Store(p, name, v), name) == ExpectedOf(vs + [v], name)
  {
    if Get(p, name).Some? || name == "packages" {
      AddToList(p, name, v, vs);
    } else {
      AddScalar(p, name, v, vs);
    }
  }

  lemma {:induction false} AddToList(p: Dict<Parameter>, name: string, v: string, vs: seq<string>)
    requires Get(p, name) == ExpectedOf(vs, name)
    requires Get(p, name).Some? || name == "packages"
    ensures Get(Put(p, name, Several(Previous(Get(p, name)) + [v])), name) == ExpectedOf(vs + [v], name)
  {
    assert Previous(Get(p, name)) == vs;
  }

  lemma {:induction false} AddScalar(p: Dict<Parameter>, name: string, v: string, vs: seq<string>)
    requires Get(p, name) == ExpectedOf(vs, name)
    requires !(Get(p, name).Some? || name == "packages")
    ensures Get(Put(p, name, Scalar(v)), name) == ExpectedOf(vs + [v], name)
  {
    assert vs == [];
  }

  /** `packages`, when listed, is always a list, even with a single value. */
  lemma {:induction false} PackagesAlwaysSeveral(lines: seq<string>)
    requires Get(ParametersOf(lines), "packages").Some?
    ensures Get(ParametersOf(lines), "packages").value == Several(NamedValues(lines, "packages"))
  {
    ParametersMeaning(lines, "packages");
  }

  /** A name listed once (other than `packages`) keeps its single value; a repeated one becomes the list of its values. */
  lemma {:induction false} RepeatedNameBecomesList(lines: seq<string>, name: string)
    requires |NamedValues(lines, name)| >= 2
    ensures Get(ParametersOf(lines), name) == Some(Several(NamedValues(lines, name)))
  {
    ParametersMeaning(lines, name);
  }

  /** A line that does not hold exactly one `=>` changes nothing. */
  lemma {:induction false} UnusableLineIgnored(lines: seq<string>, line: string)
    requires ParseLine(line).None?
    ensures ParametersOf(lines + [line]) == ParametersOf(lines)
  {
    assert (lines + [line])[..|lines|] == lines;
  }

  /** Every name is listed once. */
  lemma {:induction false} ParametersDistinct(lines: seq<string>)
    ensures Distinct(Keys(ParametersOf(lines)))
    decreases |lines|
  {
    if lines != [] {
      var prefix := lines[..|lines| - 1];
      ParametersDistinct(prefix);
      var p := ParametersOf(prefix);
      var parsed := ParseLine(lines[|lines| - 1]);
      if parsed.Some? {
        var name := parsed.value.0;
        PutKeepsDistinct(p, name, Several(Previous(Get(p, name)) + [parsed.value.1]));
        PutKeepsDistinct(p, name, Scalar(Trim(parsed.value.1)));
      }
    }
  }

  /** What `getParameters` returns or throws, as one value. */
  function ParametersResult(dir: string, ds: string, fileExists: string -> bool, script: string, exec: ExecResult)
    : Result<Dict<Parameter>>
  {
    var check := CheckScript(dir, ds, script, fileExists);
    if check.Some? then Throw(check.value)
    else if exec.exitCode != 0 then Throw(UserError(Join(exec.lines, " ")))
    else Ok(ParametersOf(exec.lines))
  }

  /**
   * `MainTransformation::getParameters`: after the module check, a non-zero
   * exit throws the output lines joined by spaces and nothing is parsed;
   * otherwise the lines are parsed in order.
   */
  method GetParameters(dir: string, ds: string, fileExists: string -> bool, script: string, exec: ExecResult)
    returns (r: Result<Dict<Parameter>>)
    ensures r == ParametersResult(dir, ds, fileExists, script, exec)
    ensures var check := CheckScript(dir, ds, script, fileExists);
      check.Some? ==> r == Throw(check.value)
    ensures CheckScript(dir, ds, script, fileExists).None? && exec.exitCode != 0 ==>
      r == Throw(UserError(Join(exec.lines, " ")))
    ensures CheckScript(dir, ds, script, fileExists).None? && exec.exitCode == 0 ==>
      r == Ok(ParametersOf(exec.lines))
  {
    var check := CheckScript(dir, ds, script, fileExists);
    if check.Some? {
      return Throw(check.value);
    }
    if exec.exitCode != 0 {
      return Throw(UserError(Join(exec.lines, " ")));
    }
    var lines := exec.lines;
    var parameters: Dict<Parameter> := [];
    for i := 0 to |lines|
      invariant parameters == ParametersOf(lines[..i])
    {
      assert lines[..i + 1][..i] == lines[..i];
      var components := Explode(lines[i], "=>");
      if |components| != 2 {
        continue;
      }
      var name := Trim(components[0]);
      var value := Trim(components[1]);
      if Get(parameters, name).Some? || name == "packages" {
        parameters := Put(parameters, name, Several(Previous(Get(parameters, name)) + [value]));
      } else {
        parameters := Put(parameters, name, Scalar(Trim(value)));
      }
    }
    assert lines[..|lines|] == lines;
    r := Ok(parameters);
  }
}
