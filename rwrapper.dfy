/**
 * `AppBundle\RWrapper\RWrapper`: runs one R script through the R wrapper,
 * with the warehouse credentials the object was constructed with. The
 * constructor only stores the logger and the credentials, so the model
 * passes the credentials to `Run` directly.
 */
module RWrapper {
  import opened Optional
  import opened Php
  import opened ScriptRun

  const RScriptDir := "RScripts"

  const LibDir := "Resources"

  /** `__DIR__/../Resources/{driver}`. */
  function DriverPath(dir: string, ds: string, dbDriver: string): string {
    dir + ds + ".." + ds + LibDir + ds + dbDriver
  }

  /** `__DIR__/../RScripts/wrapper.R`. */
  function WrapperPath(dir: string, ds: string): string {
    dir + ds + ".." + ds + RScriptDir + ds + "wrapper.R"
  }

  /**
   * What `run` puts on the command line: the wrapper, the script and the
   * driver are resolved with `realpath`; the debug value is rendered as PHP
   * renders it in a string (true as "1", false as "").
   */
  function RunInvocation(host: Host, dir: string, credentials: Credentials, scriptFileName: string,
                         rScriptExecutable: string, workDirectory: string, dbDriver: string,
                         sourceTable: string, params: Value, debug: Value): Invocation
  {
    Invocation(
      rScriptExecutable,
      host.realpath(WrapperPath(dir, host.ds)),
      host.realpath(scriptFileName),
      host.realpath(DriverPath(dir, host.ds, dbDriver)),
      ConnectionString(credentials.hostname, credentials.db),
      credentials,
      workDirectory,
      sourceTable,
      ParamsToken(host.jsonEncode(params), host.os, host.escapeShellArg),
      ToStr(debug))
  }

  /**
   * `RWrapper::run`. `dir` is the class's own directory and `process` what
   * running the command line left behind. Returns the command line, the line
   * logged before running it (password masked), and the exception thrown:
   * none for exit code 0, a runtime exception with the composed failure
   * message for any other code.
   */
  method Run(host: Host, dir: string, credentials: Credentials, scriptFileName: string,
             rScriptExecutable: string, workDirectory: string, dbDriver: string,
             sourceTable: string, params: Value, debug: Value, process: ProcessResult)
    returns (commandLine: string, logged: string, error: Option<Exception>)
    ensures commandLine == CommandLine(RunInvocation(host, dir, credentials, scriptFileName, rScriptExecutable,
                                                     workDirectory, dbDriver, sourceTable, params, debug),
                                       host.escapeShellArg)
    ensures logged == "Executing command line " + MaskPassword(commandLine, credentials.password)
    ensures error.None? <==> process.exitCode == 0
    ensures error.Some? ==> error.value == Runtime(FailureMessage(Truthy(debug), process))
  {
    var inv := RunInvocation(host, dir, credentials, scriptFileName, rScriptExecutable,
                             workDirectory, dbDriver, sourceTable, params, debug);
    commandLine := CommandLine(inv, host.escapeShellArg);
    logged := "Executing command line " + MaskPassword(commandLine, credentials.password);
    if process.exitCode != 0 {
      var message := ComposeFailure(Truthy(debug), process);
      error := Some(Runtime(message));
    } else {
      error := None;
    }
  }

  /** The tokens of the command line, in their fixed order. */
  lemma {:induction false} RunArgumentOrder(host: Host, dir: string, credentials: Credentials, scriptFileName: string,
                         rScriptExecutable: string, workDirectory: string, dbDriver: string,
                         sourceTable: string, params: Value, debug: Value)
    ensures var esc := host.escapeShellArg;
      Arguments(RunInvocation(host, dir, credentials, scriptFileName, rScriptExecutable,
                              workDirectory, dbDriver, sourceTable, params, debug), esc) ==
      ["\"" + rScriptExecutable + "\"", "--vanilla",
       host.realpath(WrapperPath(dir, host.ds)), host.realpath(scriptFileName),
       esc(host.realpath(DriverPath(dir, host.ds, dbDriver))),
       esc("jdbc:postgresql://" + credentials.hostname + ":5439/" + credentials.db),
       esc(credentials.user), esc(credentials.password), esc(credentials.schema),
       esc(workDirectory), esc(sourceTable),
       ParamsToken(host.jsonEncode(params), host.os, esc), ToStr(debug)]
  {
    ConnectionStringText(credentials.hostname, credentials.db);
  }
}
