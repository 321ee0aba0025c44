/**
 * `AppBundle\Command\RunCommand` (`lgr:run`): reads the job configuration
 * from the data directory, runs the configured R script through
 * `RWrapper`, and moves every file the script registered to the output
 * directory with a manifest beside it.
 */
module RunCommand {
  import opened Optional
  import opened Strings
  import opened Php
  import opened ScriptRun
  import opened JobConfig
  import RWrapper
  import opened EventHandling

  const TokenMissing: string :=
    "Storage API token must be provided in environment variable KBC_TOKENID. Available environment variables are: "
  const DataDirMissing := "Data directory does not exist or is not directory."
  const ConfigMissing := "config.yml is not present in data directory."
  const ScriptEmpty := "Script content is empty."
  const InputErrorPrefix := "There was an error in input: "
  const ApplicationError := "Application error."

  /**
   * What the command reads from its surroundings: the environment
   * variables (an unset one reads as ""), the container parameters, the
   * `--data` option, the directories and files that exist (a file's value is
   * its decoded YAML) and the `realpath` of the host.
   */
  datatype Environment = Environment(
    tokenId: string, runId: string, serverKeys: seq<string>, envKeys: seq<string>,
    storageApiUrl: string, kernelEnvironment: string,
    dataOption: string, directories: set<string>, files: map<string, Value>,
    realpath: string -> string, ds: string)

  /** The fields `initialize` fills in from the configuration. */
  datatype Settings = Settings(dataDir: string, debug: Value, fileTags: Value, sourceTable: Value,
                               scriptParams: Value, scriptContent: string)

  /** The line the command logs for an exception it catches. */
  function ErrorLine(e: Exception): (line: string)
    ensures e.InvalidArgument? ==> line == InputErrorPrefix + e.message
    ensures !e.InvalidArgument? ==> line == ApplicationError
  {
    match e
    case InvalidArgument(m) => InputErrorPrefix + m
    case _ => ApplicationError
  }

  /** The run id: the variable's value, or '' when it is empty. */
  function RunIdSetting(runId: string): (r: string)
    ensures Empty(Str(runId)) ==> r == ""
    ensures !Empty(Str(runId)) ==> r == runId
  {
    if !Empty(Str(runId)) then runId else ""
  }

  /** A string script is trimmed; a list script becomes its rows, each followed by a line end. */
  function ScriptContentOf(script: Value): string {
    if IsArray(script) then ScriptFromRows(Values(script.entries)) else Trim(ToStr(script))
  }

  /** `config.yml` of the resolved data directory. */
  function ConfigFileName(env: Environment): string {
    env.realpath(env.dataOption) + env.ds + "config.yml"
  }

  /** The checks after the data directory has been found, in the order `initialize` makes them. */
  function SettingsFrom(dataDir: string, config: Value, kernelEnvironment: string): Result<Settings> {
    var script := At(Parameters(config), "script");
    if Empty(SourceTable(config)) then Throw(InvalidArgument(SourceTableMissing))
    else if Empty(script) then Throw(InvalidArgument(ScriptEmpty))
    else if Empty(Str(ScriptContentOf(script))) then Throw(InvalidArgument(ScriptEmpty))
    else Ok(Settings(dataDir, DebugSetting(config, kernelEnvironment), FileTagsSetting(config), SourceTable(config),
                     ArrayDefault(config, "scriptParameters"), ScriptContentOf(script)))
  }

  /** Everything `initialize` checks inside its `try`, first failure first. */
  function Configure(env: Environment): Result<Settings> {
    if env.dataOption !in env.directories then Throw(InvalidArgument(DataDirMissing))
    else if ConfigFileName(env) !in env.files then Throw(InvalidArgument(ConfigMissing))
    else SettingsFrom(env.realpath(env.dataOption), env.files[ConfigFileName(env)], env.kernelEnvironment)
  }

  /**
   * The fields after the checks of `SettingsFrom` have run from `before`:
   * each field is assigned as its check is reached, so a failure leaves the
   * later ones as they were.
   */
  function SettingsReached(before: Settings, config: Value, kernelEnvironment: string): Settings {
    var script := At(Parameters(config), "script");
    var tagged := before.(debug := DebugSetting(config, kernelEnvironment), fileTags := FileTagsSetting(config));
    if Empty(SourceTable(config)) then tagged
    else
      var sourced := tagged.(sourceTable := SourceTable(config), scriptParams := ArrayDefault(config, "scriptParameters"));
      if Empty(script) then sourced else sourced.(scriptContent := ScriptContentOf(script))
  }

  /** The fields after the whole `try` block of `initialize`, from `before`. */
  function ConfigureReached(env: Environment, before: Settings): Settings {
    if env.dataOption !in env.directories then before.(dataDir := env.dataOption)
    else
      var resolved := before.(dataDir := env.realpath(env.dataOption));
      if ConfigFileName(env) !in env.files then resolved
      else SettingsReached(resolved, env.files[ConfigFileName(env)], env.kernelEnvironment)
  }

  /**
   * A configuration that passes leaves exactly its settings, whatever the
   * fields held before; one that fails never changes the fields past the
   * failing check, and the data directory is assigned before any check.
   */
  lemma {:induction false} ConfigureReachedMeaning(env: Environment, before: Settings)
    ensures Configure(env).Ok? ==> ConfigureReached(env, before) == Configure(env).value
    ensures env.dataOption !in env.directories ==>
      ConfigureReached(env, before) == before.(dataDir := env.dataOption)
    ensures env.dataOption in env.directories ==> ConfigureReached(env, before).dataDir == env.realpath(env.dataOption)
    ensures Configure(env) == Throw(InvalidArgument(SourceTableMissing)) ==>
      var r := ConfigureReached(env, before);
      r.sourceTable == before.sourceTable && r.scriptParams == before.scriptParams && r.scriptContent == before.scriptContent
  {
  }

  /**
   * What a configuration that passes guarantees: a source table, a
   * non-empty script, an array of file tags, script parameters that are
   * either the configured non-empty value or the empty array, and the
   * resolved data directory. Every failure is an invalid-argument exception.
   */
  lemma {:induction false} ConfiguredSettings(env: Environment)
    ensures Configure(env).Ok? ==>
      (var s := Configure(env).value;
       var config := env.files[ConfigFileName(env)];
       && !Empty(s.sourceTable) && Truthy(Str(s.scriptContent)) && s.fileTags.Arr?
       && (s.scriptParams == At(Parameters(config), "scriptParameters") || s.scriptParams == Arr([]))
       && s.dataDir == env.realpath(env.dataOption))
    ensures Configure(env).Throw? ==> Configure(env).error.InvalidArgument?
  {
  }

  /** The data directory is checked before the configuration file, which is checked before its contents. */
  lemma {:induction false} ConfigureOrder(env: Environment)
    ensures env.dataOption !in env.directories ==> Configure(env) == Throw(InvalidArgument(DataDirMissing))
    ensures env.dataOption in env.directories && ConfigFileName(env) !in env.files ==>
      Configure(env) == Throw(InvalidArgument(ConfigMissing))
    ensures (env.dataOption in env.directories && ConfigFileName(env) in env.files
             && Empty(SourceTable(env.files[ConfigFileName(env)]))) ==>
      Configure(env) == Throw(InvalidArgument(SourceTableMissing))
  {
  }

  /**
   * A list script that is not empty always passes the second emptiness
   * check; a string script of blanks passes the first one and fails the second.
   */
  lemma {:induction false} ScriptEmptinessChecks(rows: seq<(string, Value)>, blanks: string)
    requires rows != [] && blanks != [] && AllSpace(blanks)
    ensures Truthy(Str(ScriptContentOf(Arr(rows))))
    ensures Truthy(Str(blanks)) && ScriptContentOf(Str(blanks)) == ""
  {
    ScriptFromRowsMeaning(Values(rows));
    TrimMeaning(blanks);
    AllSpaceTrimStart(blanks);
    assert blanks[0] != '0';
  }

  /** `getOutDirectory`: the `out/files` directory of the data directory, with a trailing separator. */
  function OutDirectory(dataDir: string, ds: string): (r: string)
    ensures |r| >= |dataDir| + 3 * |ds| + 8 && r[..|dataDir| + |ds|] == dataDir + ds
    ensures r[|r| - |ds| - 5..] == "files" + ds
  {
    dataDir + ds + "out" + ds + "files" + ds
  }

  /** The manifest flags this command writes: not public, permanent, no notification. */
  const ManifestFlags := Flags(Bool(false), Bool(true), Bool(false))

  class RunCommand {
    var dataDir: string
    var debug: Value
    var fileTags: Value
    var sourceTable: Value
    var scriptParams: Value
    var scriptContent: string
    /** The token and run id the provisioning client is created with. */
    var token: string
    var runId: string

    constructor()
      ensures dataDir == "" && debug == Null && fileTags == Null && sourceTable == Null
      ensures scriptParams == Null && scriptContent == "" && token == "" && runId == ""
    {
      dataDir := "";
      debug := Null;
      fileTags := Null;
      sourceTable := Null;
      scriptParams := Null;
      scriptContent := "";
      token := "";
      runId := "";
    }

    function CurrentSettings(): Settings
      reads this
    {
      Settings(dataDir, debug, fileTags, sourceTable, scriptParams, scriptContent)
    }

    /**
     * `initialize`. Without a token it throws before anything is set up.
     * Otherwise it creates the Storage client (with the run id when one is
     * given), hands it to the event handler, keeps the token and run id for
     * provisioning, and then either fills in the settings or throws the
     * first failing check, having logged it as an input error.
     */
    method Initialize(env: Environment, handler: EventHandler)
      returns (client: StorageClient?, error: Option<Exception>, logged: Option<string>)
      modifies this, handler
      ensures Empty(Str(env.tokenId)) ==>
        client == null && logged == None && handler.storageApiClient == old(handler.storageApiClient)
        && error == Some(InvalidArgument(TokenMissing + Join(env.serverKeys + env.envKeys, ",")))
      ensures !Empty(Str(env.tokenId)) ==>
        client != null && fresh(client) && handler.storageApiClient == client
        && client.token == env.tokenId && client.url == env.storageApiUrl
        // The model routes no log record through the handler, so no event is created here;
        // the source's catch block does log its ERROR line through it.
        && client.events == []
        && client.runId == (if Empty(Str(env.runId)) then None else Some(env.runId))
        && token == env.tokenId && runId == RunIdSetting(env.runId)
      ensures !Empty(Str(env.tokenId)) && Configure(env).Throw? ==>
        error == Some(Configure(env).error) && logged == Some(ErrorLine(Configure(env).error))
      ensures !Empty(Str(env.tokenId)) && Configure(env).Ok? ==>
        error == None && logged == None && CurrentSettings() == Configure(env).value
      ensures Empty(Str(env.tokenId)) ==> unchanged(this)
      ensures !Empty(Str(env.tokenId)) ==> CurrentSettings() == ConfigureReached(env, old(CurrentSettings()))
      ensures handler.appName == old(handler.appName)
    {
      if Empty(Str(env.tokenId)) {
        return null, Some(InvalidArgument(TokenMissing + Join(env.serverKeys + env.envKeys, ","))), None;
      }
      token := env.tokenId;
      client := new StorageClient(token, env.storageApiUrl);
      if !Empty(Str(env.runId)) {
        runId := env.runId;
        client.SetRunId(runId);
      } else {
        runId := "";
      }
      handler.SetStorageApiClient(client);
      error := ReadConfiguration(env);
      logged := if error.Some? then Some(ErrorLine(error.value)) else None;
    }

    /** The `try` block of `initialize`: finds the data directory and reads `config.yml`. */
    method ReadConfiguration(env: Environment) returns (error: Option<Exception>)
      modifies this
      ensures Configure(env).Throw? ==> error == Some(Configure(env).error)
      ensures Configure(env).Ok? ==> error == None && CurrentSettings() == Configure(env).value
      ensures CurrentSettings() == ConfigureReached(env, old(CurrentSettings()))
      ensures token == old(token) && runId == old(runId)
    {
      dataDir := env.dataOption;
      if dataDir !in env.directories {
        return Some(InvalidArgument(DataDirMissing));
      }
      dataDir := env.realpath(dataDir);
      var configFileName := dataDir + env.ds + "config.yml";
      if configFileName !in env.files {
        return Some(InvalidArgument(ConfigMissing));
      }
      error := ReadSettings(env.files[configFileName], env.kernelEnvironment);
    }

    /** Checks the configuration's parameters one by one, keeping each as it passes. */
    method ReadSettings(config: Value, kernelEnvironment: string) returns (error: Option<Exception>)
      modifies this
      ensures SettingsFrom(old(dataDir), config, kernelEnvironment).Throw? ==>
        error == Some(SettingsFrom(old(dataDir), config, kernelEnvironment).error)
      ensures SettingsFrom(old(dataDir), config, kernelEnvironment).Ok? ==>
        error == None && CurrentSettings() == SettingsFrom(old(dataDir), config, kernelEnvironment).value
      ensures CurrentSettings() == SettingsReached(old(CurrentSettings()), config, kernelEnvironment)
      ensures dataDir == old(dataDir) && token == old(token) && runId == old(runId)
    {
      ghost var expected := SettingsFrom(dataDir, config, kernelEnvironment);
      debug := DebugSetting(config, kernelEnvironment);
      fileTags := FileTagsSetting(config);
      if Empty(SourceTable(config)) {
        return Some(InvalidArgument(SourceTableMissing));
      }
      sourceTable := SourceTable(config);
      scriptParams := ArrayDefault(config, "scriptParameters");
      var script := At(Parameters(config), "script");
      if Empty(script) {
        return Some(InvalidArgument(ScriptEmpty));
      }
      scriptContent := ReadScript(script);
      if Empty(Str(scriptContent)) {
        return Some(InvalidArgument(ScriptEmpty));
      }
      error := None;
      assert expected == Ok(CurrentSettings());
    }

    /** The script body: a list script is assembled row by row, a string script trimmed. */
    static method ReadScript(script: Value) returns (content: string)
      ensures content == ScriptContentOf(script)
    {
      content := "";
      if IsArray(script) {
        content := AssembleScript(Values(script.entries));
      } else {
        content := Trim(ToStr(script));
      }
    }

    /**
     * `execute`: writes the script to `script.R` in a fresh working
     * directory, gets the credentials, runs the script and moves the files it
     * registered. It never throws: a failure ends the run with its log line
     * (an input error for missing credentials, an application error for a
     * failed script) and no files moved.
     */
    method Execute(host: Host, wrapperDir: string, rScript: string, dbDriver: string, tempDir: string,
                   uniqueSuffix: string, provisioning: Value, process: ProcessResult, rows: seq<FileRow>)
      returns (workingDir: string, scriptFileName: string, commandLine: Option<string>, logged: Option<string>,
               files: seq<OutputFile>, errorLine: Option<string>)
      requires fileTags.Arr?
      ensures workingDir == tempDir + host.ds + "run-" + uniqueSuffix
      ensures scriptFileName == workingDir + host.ds + "script.R"
      ensures CredentialsFrom(provisioning).None? ==>
        commandLine == None && logged == None && files == [] && errorLine == Some(InputErrorPrefix + CredentialsMissing)
      ensures CredentialsFrom(provisioning).Some? ==>
        var c := CredentialsFrom(provisioning).value;
        commandLine == Some(CommandLine(RWrapper.RunInvocation(host, wrapperDir, c, scriptFileName, rScript, workingDir,
                                                            dbDriver, ToStr(sourceTable), scriptParams, debug),
                                        host.escapeShellArg))
        && logged == Some("Executing command line " + MaskPassword(commandLine.value, c.password))
      ensures CredentialsFrom(provisioning).Some? && process.exitCode != 0 ==>
        files == [] && errorLine == Some(ApplicationError)
      ensures CredentialsFrom(provisioning).Some? && process.exitCode == 0 ==>
        errorLine == None && |files| == |rows|
        && forall i :: 0 <= i < |rows| ==>
             files[i] == OutputFileFor(rows[i], workingDir, host.ds, OutDirectory(dataDir, host.ds), fileTags, ManifestFlags)
    {
      workingDir := tempDir + host.ds + "run-" + uniqueSuffix;
      scriptFileName := workingDir + host.ds + "script.R";
      files := [];
      var credentials := CredentialsFrom(provisioning);
      if credentials.None? {
        commandLine, logged := None, None;
        errorLine := Some(ErrorLine(InvalidArgument(CredentialsMissing)));
        return;
      }
      var line, masked, failure := RWrapper.Run(host, wrapperDir, credentials.value, scriptFileName, rScript, workingDir,
                                           dbDriver, ToStr(sourceTable), scriptParams, debug, process);
      commandLine, logged := Some(line), Some(masked);
      if failure.Some? {
        errorLine := Some(ErrorLine(failure.value));
        return;
      }
      files := OutputFiles(rows, workingDir, host.ds, OutDirectory(dataDir, host.ds), fileTags, ManifestFlags);
      errorLine := None;
    }
  }
}
