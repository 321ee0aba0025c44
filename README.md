# LGR bundle: a verified model of its decision rules

The bundle runs R scripts ("LuckyGuess" modules) against an Amazon Redshift
warehouse for Keboola Connection. The surrounding glue does I/O: it calls
the provisioning service, starts R as a child process, queries the
`r__file_names` table the script fills, and uploads or moves the files it
lists. Between those calls sit a few rules. They cover:

- how configuration is read and checked;
- how the command line is built;
- how a failed run's message is composed;
- how files are tagged;
- how log records become Storage events.

This project models those rules and proves what they guarantee.

Modules follow the source files:

| module | source file |
|---|---|
| `TableReader` | `TableReader.php` (dotted configuration keys into nested arrays) |
| `MainTransformation` | `MainTransformation.php` (`run` and `getParameters` of the HTTP API) |
| `ScriptRun` | rules shared by `MainTransformation::run` and `RWrapper::run`: credentials, JDBC connection string, parameter quoting, command line, password masking, failure message |
| `RWrapper` | `src/AppBundle/RWrapper/RWrapper.php` |
| `JobConfig` | rules shared by the two `lgr:run` commands: debug, file tags, defaults, script assembly, output manifests |
| `RunCommand` | `src/AppBundle/Command/RunCommand.php`: a class with the command's fields, `Initialize` and `Execute` |
| `LegacyRunCommand` | `Command/RunCommand.php` |
| `EventHandling` | `src/AppBundle/EventHandler/EventHandler.php`: a class with the client field, and the record-to-event function |
| `DefaultController` | `Controller/DefaultController.php` |

Three modules hold shared PHP semantics:

- `Php`: values, `empty()`, truthiness, string conversion, exceptions.
- `Strings`: `trim`, `explode`, `implode`, `str_replace`, `stripos`, `strncasecmp`.
- `OrderedMap`: PHP arrays as insertion-ordered dictionaries.

`empty()` is defined once, in `Php.Empty`. The empty values are null, false, 0, `""`, `"0"` and the empty array.

I/O is passed in as data:

- the exit code, standard output, error output and `debug.log` lines of a child process;
- the provisioning answer;
- table rows;
- which files and directories exist;
- decoded YAML;
- environment variables.

Library functions whose formats the code does not fix are parameters: `escapeshellarg`, `realpath` and `json_encode`. The same holds for `DIRECTORY_SEPARATOR` and `PHP_OS`.

Some details follow the code as written:

- The error output is appended to a failure message when it is truthy (`if ($output2)`). So an error output of `"0"` is dropped, although it is not empty as a string (`ScriptRun.ZeroErrorOutputDropped`).
- In `src/AppBundle/Command/RunCommand.php`, when the configuration does not set `debug`, the debug setting is the kernel environment's name itself. Any name other than `""` and `"0"`, `prod` included, therefore counts as debug mode (`JobConfig.DebugSettingMeaning`).
- `DefaultController::execAction` defaults empty parameters to the string `'{}'`. `json_encode` then encodes that value as a JSON string, not as an object.
- The script-name check of `MainTransformation` (`preg_match('#[a-z0-9_\.-]#i')`) is not anchored. One allowed character anywhere passes it (`MainTransformation.UnanchoredNameCheck`).
- The two `lgr:run` commands disagree on a script given as one string. The newer one trims it and runs it; the older one writes an empty script (`LegacyRunCommand.StringScriptDropped`).
- Password masking is the plain `str_replace`. An empty password, or one containing `*`, can survive it (`ScriptRun.AsteriskPasswordSurvives`). The absence of the password is proved only for non-empty passwords free of `*` (`ScriptRun.MaskedLineOmitsPassword`).

## Model

| member | source | states |
|---|---|---|
| TableReader.ConfigTableId | TableReader.php:26 | when neither name holds a dot, the table id splits at its dots into exactly the stage `sys`, the bucket `c-{component}` and the table |
| TableReader.ReadConfigTable | TableReader.php:24-28 | the id is `sys.c-{component}.{table}`, and the configuration is that table's rows mapped by their `name` and `value` columns and then nested |
| TableReader.KeyValueMap | TableReader.php:65-72 | the loop's map equals the left-to-right fold of the row assignments |
| TableReader.KeyValueMapLastWins | TableReader.php:68-70 | every key maps to the value column of the last row carrying it (later rows overwrite), a key no row carries to nothing |
| TableReader.KeyValueMapDistinct | TableReader.php:65-72 | no key is listed twice |
| TableReader.KeyValueMapEmpty | TableReader.php:67-71 | no rows give the empty map |
| TableReader.Parse | TableReader.php:81-89 | the loop saves the entries in order, as the fold `ParseOf` |
| TableReader.SaveKeyPlaces | TableReader.php:99-110 | saving along the reversed segments puts the value at the path read left to right |
| TableReader.SaveKeyKeepsOthers | TableReader.php:103-106 | every path branching off the saved one is left as it was |
| TableReader.ParseLastEntry | TableReader.php:84-87 | after parsing, the last entry's value sits at `ret[a][b][c]` for its key `a.b.c` |
| TableReader.DotlessKeyAtTopLevel | TableReader.php:101-108 | a key without a dot is stored at the top level as a leaf |
| TableReader.SiblingKeysShareTheirParent | TableReader.php:103-106 | `foo.bar` then `foo.baz` gives `{foo: {bar, baz}}`: the existing `foo` array is not reset |
| MainTransformation.CheckScript | MainTransformation.php:83-86 | no error exactly when the name matches the pattern and `{dir}/RScripts/{script}.R` exists; otherwise the "I cannot find R script" user error naming that path |
| MainTransformation.UnanchoredNameCheck | MainTransformation.php:84 | one allowed character anywhere passes the name check; `""` and `"/ /"` fail it |
| MainTransformation.DebugFlag | MainTransformation.php:121-125 | the flag is 0 or 1, and 1 exactly when debug is requested or the environment is `dev` |
| MainTransformation.SuccessResult | MainTransformation.php:154-157 | one entry per comma-separated piece of the output, each that piece trimmed; no entry holds a comma or starts or ends with whitespace |
| MainTransformation.SuccessResultOfNames | MainTransformation.php:156-157 | an output that is comma-free names joined by commas gives back those names, trimmed |
| MainTransformation.ClassifyRun | MainTransformation.php:153-194 | exit code 0 gives the success result; any other code a user exception with the composed failure message |
| MainTransformation.TagsFor | MainTransformation.php:218-221 | the tags are the row's name, the module and `LuckyGuess`, then each file tag trimmed, in order |
| MainTransformation.UploadOptionsFor | MainTransformation.php:213-222 | each upload is permanent, not public, not sliced, without notification, with those tags |
| MainTransformation.Uploads | MainTransformation.php:211-224 | one upload per `r__file_names` row, in row order, of `{workingDir}/{value}` |
| MainTransformation.Run | MainTransformation.php:72-234 | `RunOutcome`: a bad module name or a missing module file, then missing credentials throw, in that order and before any command line exists; otherwise the command line and its masked log line are made for every exit code, a non-zero exit throws the failure message for the debug flag, and exit code 0 succeeds with that command line and log line, the success result and one upload per row |
| MainTransformation.ParseLineMeaning | MainTransformation.php:277-283 | a line is used exactly when `=>` occurs in it once, giving the trimmed text before and after it |
| MainTransformation.ParametersMeaning | MainTransformation.php:275-292 | for every name, the result holds nothing when no usable line names it, its value when exactly one does (unless it is `packages`), otherwise the list of its values in line order |
| MainTransformation.PackagesAlwaysSeveral | MainTransformation.php:284-288 | `packages` is always a list, even with one value |
| MainTransformation.RepeatedNameBecomesList | MainTransformation.php:284-290 | a name given twice or more becomes the list of all its values |
| MainTransformation.UnusableLineIgnored | MainTransformation.php:277-281 | a line without exactly one `=>` changes nothing |
| MainTransformation.ParametersDistinct | MainTransformation.php:275-292 | every name appears once |
| MainTransformation.GetParameters | MainTransformation.php:237-295 | the module check fails first; a non-zero exit throws the output lines joined by spaces without parsing; otherwise the loop's dictionary is returned |
| ScriptRun.CredentialsFrom | MainTransformation.php:94-99 | credentials exist exactly when `credentials` and its `hostname` are not empty, and then the hostname is not empty |
| ScriptRun.ConnectionStringText | src/AppBundle/RWrapper/RWrapper.php:76-77 | the connection string is `jdbc:postgresql://{hostname}:5439/{db}` |
| ScriptRun.ConnectionStringRoundTrip | src/AppBundle/RWrapper/RWrapper.php:76-77 | hostname and database are recovered from the connection string when the hostname has no colon |
| ScriptRun.IsWindowsMeaning | src/AppBundle/RWrapper/RWrapper.php:80 | the system counts as Windows exactly when its name's first three letters are `win` in any case |
| ScriptRun.UnescapeEscape | src/AppBundle/RWrapper/RWrapper.php:82 | backslash-escaping the quotes is injective: `UnescapeQuotes` inverts `EscapeQuotes` |
| ScriptRun.EscapedQuotesArePreceded | src/AppBundle/RWrapper/RWrapper.php:82 | after escaping, every double quote follows a backslash |
| ScriptRun.ParamsToken | src/AppBundle/RWrapper/RWrapper.php:79-85 | on Windows the token is the JSON with every quote escaped, in double quotes, and `UnescapeQuotes` of its inside is the JSON again; elsewhere it is `escapeshellarg` of the JSON |
| ScriptRun.CommandLine | src/AppBundle/RWrapper/RWrapper.php:88-100 | the command line is the tokens joined by single spaces, with one more space at the end |
| ScriptRun.MaskPassword | src/AppBundle/RWrapper/RWrapper.php:102-104 | an empty password masks nothing; otherwise the line is cut at every occurrence of the password and rejoined with `*****` |
| ScriptRun.MaskedLineOmitsPassword | src/AppBundle/RWrapper/RWrapper.php:102-104 | a non-empty password without `*` does not occur in the masked line |
| ScriptRun.AsteriskPasswordSurvives | src/AppBundle/RWrapper/RWrapper.php:103 | the password `*` still occurs after masking |
| ScriptRun.ComposeFailure | src/AppBundle/RWrapper/RWrapper.php:116-146 | the step-by-step failure branch yields exactly the failure message |
| ScriptRun.HintExactlyWhenRJavaMissing | src/AppBundle/RWrapper/RWrapper.php:135-146 | outside debug mode the JAVA_HOME hint is prefixed exactly when both substrings occur, and otherwise the message is the outputs |
| ScriptRun.FailureKeepsOutput | src/AppBundle/RWrapper/RWrapper.php:124-146 | unless the debug log is used, the message starts with the standard output, possibly behind the hint |
| ScriptRun.FailureEndsWithErrorOutput | src/AppBundle/RWrapper/RWrapper.php:124-146 | unless the debug log is used, a truthy error output ends the message behind `Additional error: ` |
| ScriptRun.DebugFailureMessage | src/AppBundle/RWrapper/RWrapper.php:116-134 | in debug mode the message is the `debug.log` lines joined by spaces when the file exists, otherwise the outputs, never with the JAVA_HOME hint |
| ScriptRun.DebugLogDecides | src/AppBundle/RWrapper/RWrapper.php:116-123 | in debug mode with `debug.log` present, the message depends on the log alone, not on either output |
| ScriptRun.ZeroErrorOutputDropped | src/AppBundle/RWrapper/RWrapper.php:136-139 | an error output of `""` or `"0"` is not appended; `"00"` is |
| ScriptRun.MissingRJavaIgnoresCase | src/AppBundle/RWrapper/RWrapper.php:142-143 | the rJava detection does not depend on letter case |
| RWrapper.Run | src/AppBundle/RWrapper/RWrapper.php:66-150 | the command line from the resolved paths, the masked log line before running, no exception for exit code 0, and one runtime exception with the failure message for any other code |
| RWrapper.RunArgumentOrder | src/AppBundle/RWrapper/RWrapper.php:88-100 | the thirteen tokens in their fixed order: executable, `--vanilla`, wrapper, script, driver, connection, user, password, schema, work directory, source table, parameters, debug |
| JobConfig.DebugSettingMeaning | src/AppBundle/Command/RunCommand.php:171-175 | a configured debug value gives its `boolval`; otherwise debug mode is on exactly when the environment's name is truthy, so `prod` turns it on |
| JobConfig.FileTagsSetting | src/AppBundle/Command/RunCommand.php:178-182 | the file tags are always an array: the configured one when it is an array, otherwise `[]` |
| JobConfig.ArrayDefault | src/AppBundle/Command/RunCommand.php:192-196 | a non-empty parameter is kept as it is, an empty one becomes `[]` |
| JobConfig.AssembleScript | src/AppBundle/Command/RunCommand.php:202-206 | the loop appends every row followed by a line end |
| JobConfig.ScriptFromRowsMeaning | src/AppBundle/Command/RunCommand.php:203-206 | a non-empty list script is its rows joined by line ends plus a final one, and never empty |
| JobConfig.TwoRowScript | Command/RunCommand.php:101-103 | the rows `a`, `b` give `a\nb\n` |
| JobConfig.ManifestTagsMeaning | src/AppBundle/Command/RunCommand.php:288 | `array_merge` of the configured tags and the pair: the configured tags as merged, then the row's name and `LuckyGuess` under the next two integer indexes; a string key keeps the last value the configuration gave it; a configured list just gets the two values appended |
| JobConfig.OutputFiles | src/AppBundle/Command/RunCommand.php:274-294 | one output file per row, in row order: moved from the working directory into the output directory, its manifest beside it |
| JobConfig.ManifestBesideFile | src/AppBundle/Command/RunCommand.php:278-293 | the manifest path is the target plus `.manifest`, the target is the output directory plus the stored name, and the manifest names that file |
| RunCommand.ErrorLine | src/AppBundle/Command/RunCommand.php:296-301 | an invalid-argument exception is logged as `There was an error in input: ` and its message, any other as `Application error.` |
| RunCommand.RunIdSetting | src/AppBundle/Command/RunCommand.php:138-144 | an empty run id becomes `''`, any other is kept |
| RunCommand.ConfiguredSettings | src/AppBundle/Command/RunCommand.php:157-212 | accepted settings have a source table, a non-empty script, array file tags, script parameters that are the configured ones or `[]`, and the resolved data directory; every failure is an invalid-argument exception |
| RunCommand.ConfigureOrder | src/AppBundle/Command/RunCommand.php:157-189 | the data directory is checked first, then `config.yml`, then the source table |
| RunCommand.ScriptEmptinessChecks | src/AppBundle/Command/RunCommand.php:199-212 | a non-empty list script always passes the second check; a blank string script passes the first and is empty after trimming |
| RunCommand.OutDirectory | src/AppBundle/Command/RunCommand.php:310-313 | the output directory lies under `{dataDir}/` and ends in `files/` |
| RunCommand.RunCommand.Initialize | src/AppBundle/Command/RunCommand.php:115-221 | without a token it throws, before any client exists and with the command unchanged; otherwise the new Storage client (with the run id when given) is handed to the event handler, and the configuration's settings are stored or its first failure is thrown and logged, the fields holding what the checks reached (`ConfigureReached`); the handler's application name is kept |
| RunCommand.ConfigureReachedMeaning | src/AppBundle/Command/RunCommand.php:157-212 | a passing configuration leaves exactly its settings whatever the fields held before; a missing data directory changes only the data directory; a missing source table leaves the source table, script parameters and script as they were |
| RunCommand.RunCommand.ReadConfiguration | src/AppBundle/Command/RunCommand.php:157-168 | a missing data directory or `config.yml` throws; otherwise the settings come from the decoded file of the resolved directory; in every case the fields are those `ConfigureReached` gives |
| RunCommand.RunCommand.ReadSettings | src/AppBundle/Command/RunCommand.php:171-212 | the stored settings are those computed from the decoded configuration, or its first failure is returned with the fields the checks reached (`SettingsReached`); data directory, token and run id are kept |
| RunCommand.RunCommand.ReadScript | src/AppBundle/Command/RunCommand.php:202-209 | a list script is assembled row by row, a string script trimmed |
| RunCommand.RunCommand.Execute | src/AppBundle/Command/RunCommand.php:227-302 | never throws: missing credentials end the run with the input-error line, no command line and no files; with credentials the command line and its password-masked log line are made, a failed script ends with `Application error.` and no files, and otherwise every registered file is moved to `out/files` with its manifest (false, true, false) |
| LegacyRunCommand.LegacySettingsFrom | Command/RunCommand.php:55-103 | every failure is a user exception |
| LegacyRunCommand.LegacyChecks | Command/RunCommand.php:69-94 | the source table is checked before the token; accepted settings have both, array file tags, and the configured run id or `''` |
| LegacyRunCommand.StringScriptDropped | Command/RunCommand.php:98-103 | a string script becomes an empty script here, while the newer command keeps it trimmed |
| LegacyRunCommand.Execute | Command/RunCommand.php:45-163 | settings failures, then missing credentials, then the wrapper's failure are thrown in that order; a completed run moves every registered file to `{dataDir}/out/` with its manifest (0, 1, 0) |
| EventHandling.EventHandler.constructor | src/AppBundle/EventHandler/EventHandler.php:22-25 | the application name is `docker-lgr-bundle` and there is no client yet |
| EventHandling.EventHandler.SetStorageApiClient | src/AppBundle/EventHandler/EventHandler.php:27-30 | the client is the one given |
| EventHandling.EventHandler.Handle | src/AppBundle/EventHandler/EventHandler.php:32-82 | without a client or for a DEBUG record nothing is sent and the result is false; otherwise exactly the record's event is created through the client and the result is true |
| EventHandling.EventFor | src/AppBundle/EventHandler/EventHandler.php:38-41 | the event carries the application's name, the client's run id and the level's type |
| EventHandling.EventSeverity | src/AppBundle/EventHandler/EventHandler.php:58-77 | for standard levels: error exactly from ERROR up, warning for NOTICE and WARNING, info for INFO; above ERROR the message is `Application error` with the support description, otherwise the record's message |
| EventHandling.UnknownLevelIsInfo | src/AppBundle/EventHandler/EventHandler.php:73-76 | a level outside Monolog's list gives an info event with the record's message |
| EventHandling.EventCopiesContext | src/AppBundle/EventHandler/EventHandler.php:43-56 | the params hold only `http`, when the record has it; the results hold only the context's `exceptionId` and `job`, each when set |
| DefaultController.ExecRequest | Controller/DefaultController.php:26-33 | an empty `script` throws first, then an empty `source`; a request passes exactly when both are given |
| DefaultController.ParametersOrDefault | Controller/DefaultController.php:34-38 | non-empty parameters are kept, empty ones become the string `'{}'`; so the result is never empty |
| DefaultController.RequestTags | Controller/DefaultController.php:40-44 | the file tags are the array's values exactly when a non-empty array is given, otherwise none |
| DefaultController.AcceptedRequestTrimmed | Controller/DefaultController.php:29-48 | an accepted request carries the trimmed script and source (so no whitespace at either end), the parameters or `'{}'`, the file tags, and debug as the truthiness of `debug` |
| DefaultController.BlankScriptPassesValidation | Controller/DefaultController.php:26-29 | a blank script name passes the emptiness check and comes out as `""` |
| DefaultController.ExecAction | Controller/DefaultController.php:18-50 | validation errors are thrown before any command line exists; an accepted request is run with exactly its validated script, source, parameters, file tags and debug setting, with the whole `RunOutcome` of `run` |
| DefaultController.AfterLastSlashMeaning | Controller/DefaultController.php:66 | the last path component is a slash-free suffix preceded by a slash unless it is the whole path |
| DefaultController.BaseNameOfModule | Controller/DefaultController.php:65-66 | the file `{dir}/{name}.R` lists as `name` |
| DefaultController.ListAction | Controller/DefaultController.php:58-77 | the loop computes the listing of the globbed files, stopping at the first `getParameters` that throws |
| DefaultController.ListingAbortPersists | Controller/DefaultController.php:65-72 | once a file's parameters throw, the whole listing throws that error |
| DefaultController.ListingMeaning | Controller/DefaultController.php:64-73 | a listing holds exactly the non-reserved base names (not `wrapper`, `redshift`, `RStudioRunner`, `wrapperParams`), each with its own name and its module's parameters |

## Left out

- Child processes, the network, the database and the file system are not modelled. The model takes their results as inputs: exit code, outputs, `debug.log` lines, provisioning answer, table rows, existing files and directories.
- `json_encode`, `Yaml::parse`/`Yaml::dump`, `escapeshellarg` and `realpath` are uninterpreted functions or decoded inputs; their formats are not specified.
- Logging is not modelled. The exceptions are:
  - the masked command line;
  - the lines the commands log for errors they catch;
  - the event the handler makes of a record.

  The records that `RunCommand` logs do not pass through the modelled `EventHandler`.
- `TableReader::readTable` is a Storage API call and is taken as a function from table id to rows.
- TableReader.SaveKey: extending a key that already holds a string uses PHP string offsets. The model returns `None` there and says nothing about that case.
- MainTransformation.GetParameters: the `wrapperParams.R` command line is not modelled; the lines `exec` returns are an input.
- MainTransformation.Run: the update that stores each upload's file id back into `r__file_names` is not modelled, and neither is the database connection.
- RunCommand.RunCommand.Initialize: the provisioning client is represented only by the token and run id it receives. The ERROR line logged on a configuration failure is returned, not sent through the handler, so the new client's event list stays empty in the model.
- RunCommand.RunCommand.Execute: the working directory name is `run-` followed by the `uniqid` suffix, which is an input. The render of `$this->debug`, a bool or the environment's name, follows `Php.ToStr`.
- LegacyRunCommand.Execute: the `RWrapper` class this command calls is not part of this model (its argument order differs from `src/AppBundle/RWrapper/RWrapper.php`), so its failure is an input. The `RScripts` directory constant of that class is an input too. The script file written before a later failure is not reported.
- EventHandling: `Keboola\StorageApi\Client` is represented only by its token, URL, run id and the events created through it.
- DefaultController.BaseName: `basename` is modelled for `/` separators and paths without a trailing slash, which is what `glob` returns for `*.R`.
- `trim()` of an array follows PHP 7, which warns and returns null; the model reads that null as `""` (`Php.TrimText`). Under PHP 8 it throws a TypeError instead, and for `script` that would happen before the `source` check; this is not modelled. A file tag that is an array gives a null tag, modelled as `""`.
- JobConfig.ManifestTags: integer keys are those written in canonical decimal; PHP's integer bounds and keys set from floats or booleans are not modelled.
- ScriptRun.ParamsToken: the Windows argument parser that receives the token is not modelled, only that escaping is undone by `UnescapeQuotes`. Backslashes inside the JSON are not doubled there (RWrapper.php line 82), so how a backslash right before a quote reaches the script depends on that parser.
- Floating-point values in configuration are not modelled; the value type holds null, booleans, integers, strings and arrays.
- `src/AppBundle/Tests/bootstrap.php` only defines test constants and is not part of this model.
