/**
 * `Keboola\DockerLGRBundle\Command\RunCommand`, the older `lgr:run`: the
 * same job as `RunCommand`, in one straight-line `execute` that throws user
 * exceptions, reads the token and run id from the configuration, and writes
 * the files to `out` itself.
 */
module LegacyRunCommand {
  import opened Optional
  import opened Strings
  import opened Php
  import opened ScriptRun
  import opened JobConfig
  import RunCommand

  const TokenMissing := "Storage API token must be provided in configuration."

  /** What `execute` keeps from the configuration. */
  datatype LegacySettings = LegacySettings(debug: Value, fileTags: Value, sourceTable: Value, scriptParams: Value,
                                           token: Value, runId: Value, scriptContent: string)

  /** What a completed run leaves behind: the script file written and the files moved to `out`. */
  datatype LegacyRun = LegacyRun(settings: LegacySettings, scriptFileName: string, credentials: Credentials,
                                 files: seq<OutputFile>)

  /** `foreach` over the script rows; anything but an array yields no rows and so an empty script. */
  function LegacyScript(script: Value): string {
    if IsArray(script) then ScriptFromRows(Values(script.entries)) else ""
  }

  /** The configuration checks of `execute`, in its order: source table, then token. */
  function LegacySettingsFrom(config: Value, kernelEnvironment: string): (r: Result<LegacySettings>)
    ensures r.Throw? ==> r.error.UserError?
  {
    if Empty(SourceTable(config)) then Throw(UserError(SourceTableMissing))
    else if Empty(At(config, "token")) then Throw(UserError(TokenMissing))
    else Ok(LegacySettings(DebugSetting(config, kernelEnvironment), FileTagsSetting(config), SourceTable(config),
                           ArrayDefault(config, "scriptParams"), At(config, "token"),
                           if Empty(At(config, "runId")) then Str("") else At(config, "runId"),
                           LegacyScript(At(Parameters(config), "script"))))
  }

  /** The manifest flags this command writes: the integers 0, 1 and 0. */
  const LegacyFlags := Flags(Int(0), Int(1), Int(0))

  /** `{dir}/../{rScriptDir}/script.R`. */
  function LegacyScriptFileName(commandDir: string, ds: string, rScriptDir: string): string {
    commandDir + ds + ".." + ds + rScriptDir + ds + "script.R"
  }

  /**
   * `execute`. `config` is the decoded `config.yml` of `dataDir`,
   * `provisioning` the provisioning service's answer, `wrapperFailure` what
   * the run of the R wrapper threw and `rows` the files the script
   * registered. The first failing step's exception is thrown; a completed
   * run moves every registered file to `{dataDir}/out/` with its manifest.
   */
  method Execute(config: Value, kernelEnvironment: string, dataDir: string, ds: string, commandDir: string,
                 rScriptDir: string, workingDir: string, provisioning: Value, wrapperFailure: Option<Exception>,
                 rows: seq<FileRow>)
    returns (r: Result<LegacyRun>)
    ensures LegacySettingsFrom(config, kernelEnvironment).Throw? ==>
      r == Throw(LegacySettingsFrom(config, kernelEnvironment).error)
    ensures LegacySettingsFrom(config, kernelEnvironment).Ok? && CredentialsFrom(provisioning).None? ==>
      r == Throw(UserError(CredentialsMissing))
    ensures (LegacySettingsFrom(config, kernelEnvironment).Ok? && CredentialsFrom(provisioning).Some?
             && wrapperFailure.Some?) ==> r == Throw(wrapperFailure.value)
    ensures r.Ok? ==>
      LegacySettingsFrom(config, kernelEnvironment).Ok? && CredentialsFrom(provisioning).Some? && wrapperFailure.None?
      && r.value.settings == LegacySettingsFrom(config, kernelEnvironment).value
      && r.value.credentials == CredentialsFrom(provisioning).value
      && r.value.scriptFileName == LegacyScriptFileName(commandDir, ds, rScriptDir)
      && |r.value.files| == |rows|
      && forall i :: 0 <= i < |rows| ==>
           r.value.files[i] == OutputFileFor(rows[i], workingDir, ds, dataDir + ds + "out" + ds, FileTagsSetting(config), LegacyFlags)
    ensures (LegacySettingsFrom(config, kernelEnvironment).Ok? && CredentialsFrom(provisioning).Some?
             && wrapperFailure.None?) ==> r.Ok?
  {
    var debug := DebugSetting(config, kernelEnvironment);
    var fileTags := FileTagsSetting(config);
    if Empty(SourceTable(config)) {
      return Throw(UserError(SourceTableMissing));
    }
    var sourceTable := SourceTable(config);
    var scriptParams := ArrayDefault(config, "scriptParams");
    if Empty(At(config, "token")) {
      return Throw(UserError(TokenMissing));
    }
    var token := At(config, "token");
    var runId := if Empty(At(config, "runId")) then Str("") else At(config, "runId");
    var scriptFileName := LegacyScriptFileName(commandDir, ds, rScriptDir);
    var scriptContent := "";
    var script := At(Parameters(config), "script");
    if IsArray(script) {
      scriptContent := AssembleScript(Values(script.entries));
    }
    var credentials := CredentialsFrom(provisioning);
    if credentials.None? {
      return Throw(UserError(CredentialsMissing));
    }
    if wrapperFailure.Some? {
      return Throw(wrapperFailure.value);
    }
    var files := OutputFiles(rows, workingDir, ds, dataDir + ds + "out" + ds, fileTags, LegacyFlags);
    var settings := LegacySettings(debug, fileTags, sourceTable, scriptParams, token, runId, scriptContent);
    return Ok(LegacyRun(settings, scriptFileName, credentials.value, files));
  }

  /**
   * The source table is checked before the token, and a configuration that
   * passes has both; the run id is the configured one or "".
   */
  lemma {:induction false} LegacyChecks(config: Value, kernelEnvironment: string)
    ensures Empty(SourceTable(config)) ==>
      LegacySettingsFrom(config, kernelEnvironment) == Throw(UserError(SourceTableMissing))
    ensures !Empty(SourceTable(config)) && Empty(At(config, "token")) ==>
      LegacySettingsFrom(config, kernelEnvironment) == Throw(UserError(TokenMissing))
    ensures LegacySettingsFrom(config, kernelEnvironment).Ok? ==>
      (var s := LegacySettingsFrom(config, kernelEnvironment).value;
       && !Empty(s.sourceTable) && !Empty(s.token) && s.fileTags.Arr?
       && (s.runId == At(config, "runId") || s.runId == Str("")))
  {
  }

  /**
   * The two commands disagree on a script given as one string: the newer
   * one runs it trimmed, this one writes an empty script and goes on.
   */
  lemma {:induction false} StringScriptDropped(text: string)
    requires text != [] && !IsSpace(text[0]) && !IsSpace(text[|text| - 1])
    ensures LegacyScript(Str(text)) == ""
    ensures RunCommand.ScriptContentOf(Str(text)) == text
  {
    TrimUnique([], text, []);
    assert [] + text + [] == text;
  }
}
