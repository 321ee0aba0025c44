/**
 * Running an R script as a child process, as both `RWrapper::run` and
 * `MainTransformation::run` do it: the warehouse credentials the scripts
 * get, the JDBC connection string, the quoting of the JSON parameters, the
 * command line, the password masking applied before the command line is
 * logged, and the message composed when the script exits with a non-zero
 * code.
 */
module ScriptRun {
  import opened Optional
  import opened Strings
  import opened Php

  /** Network port of the Amazon Redshift warehouse. */
  const RedshiftDbPort := 5439

  const JdbcPrefix := "jdbc:postgresql://"

  /** The two substrings that together report an R installation that cannot load rJava. */
  const SharedObjectNeedle: string := "unable to load shared object"
  const RJavaNeedle: string := "rJava"

  /** What replaces the password in the logged command line. */
  const PasswordMask := "*****"

  const AdditionalError: string := "Additional error: "

  const CredentialsMissing := "I cannot get credentials for Redshift database."

  /** The tag every file the scripts produce is labelled with. */
  const LuckyGuessTag := "LuckyGuess"

  const JavaHomeHint: string := "Cannot load Java JRE, verify that JAVA_HOME path is correct. Stack: "

  /**
   * What the PHP runtime supplies and the model takes as given: the
   * directory separator, the operating system's name (`PHP_OS`), and the
   * library functions `escapeshellarg`, `realpath` and `json_encode`, left
   * uninterpreted.
   */
  datatype Host = Host(
    ds: string,
    os: string,
    escapeShellArg: string -> string,
    realpath: string -> string,
    jsonEncode: Value -> string)

  /* ---------------------------------------------------------------- */
  /* Credentials                                                       */
  /* ---------------------------------------------------------------- */

  /** The warehouse credentials, as the strings interpolated into the command line. */
  datatype Credentials = Credentials(hostname: string, db: string, user: string, password: string, schema: string)

  /**
   * The answer of the provisioning service, checked the way every caller
   * checks it: no credentials when `credentials` or its `hostname` is
   * empty; otherwise each field rendered as a string (a missing one as "").
   */
  function CredentialsFrom(response: Value): (r: Option<Credentials>)
    ensures r.Some? <==> !Empty(At(response, "credentials")) && !Empty(At(At(response, "credentials"), "hostname"))
    ensures r.Some? ==> r.value.hostname != ""
  {
    var c := At(response, "credentials");
    if Empty(c) || Empty(At(c, "hostname")) then None
    else
      NonEmptyRendersNonEmpty(At(c, "hostname"));
      Some(Credentials(ToStr(At(c, "hostname")), ToStr(At(c, "db")), ToStr(At(c, "user")),
                       ToStr(At(c, "password")), ToStr(At(c, "schema"))))
  }

  /** `"jdbc:postgresql://{host}:5439/{db}"`. */
  function ConnectionString(hostname: string, db: string): string {
    JdbcPrefix + hostname + ":" + IntToString(RedshiftDbPort) + "/" + db
  }

  /** The connection string spelled out, with the port rendered in decimal. */
  lemma {:induction false} ConnectionStringText(hostname: string, db: string)
    ensures ConnectionString(hostname, db) == "jdbc:postgresql://" + hostname + ":5439/" + db
  {
    assert IntToString(RedshiftDbPort) == "5439";
    assert ":" + "5439" + "/" == ":5439/";
  }

  /** Reads host and database back out of a connection string. */
  function ParseConnectionString(s: string): Option<(string, string)> {
    var n := |JdbcPrefix|;
    if |s| < n || s[..n] != JdbcPrefix then None
    else
      var rest := s[n..];
      match Find(rest, ":5439/")
      case None => None
      case Some(i) => Some((rest[..i], rest[i + 6..]))
  }

  /** A host name without a colon and any database name are recovered from the connection string. */
  lemma {:induction false} ConnectionStringRoundTrip(hostname: string, db: string)
    requires !Contains(hostname, ":")
    ensures ParseConnectionString(ConnectionString(hostname, db)) == Some((hostname, db))
  {
    ConnectionStringText(hostname, db);
    ParseSpelledConnectionString(hostname, db);
  }

  lemma {:induction false} ParseSpelledConnectionString(hostname: string, db: string)
    requires !Contains(hostname, ":")
    ensures ParseConnectionString("jdbc:postgresql://" + hostname + ":5439/" + db) == Some((hostname, db))
  {
    var rest := hostname + ":5439/" + db;
    var s := JdbcPrefix + rest;
    assert "jdbc:postgresql://" + hostname + ":5439/" + db == s;
    PrefixOfConcat(JdbcPrefix, rest);
    WithoutChar(hostname, ':');
    FindAfterPrefix(hostname, ":5439/", db);
  }

  /* ---------------------------------------------------------------- */
  /* Parameters token                                                  */
  /* ---------------------------------------------------------------- */

  /** `strncasecmp($a, $b, $n) == 0`: the first `n` characters agree up to ASCII case. */
  predicate CaseInsensitivePrefixEqual(a: string, b: string, n: nat) {
    var la := if |a| < n then |a| else n;
    var lb := if |b| < n then |b| else n;
    Lower(a[..la]) == Lower(b[..lb])
  }

  /** `strncasecmp(PHP_OS, 'WIN', 3) == 0`. */
  predicate IsWindows(os: string) {
    CaseInsensitivePrefixEqual(os, "WIN", 3)
  }

  /** Windows is recognised by the first three letters of the system name, whatever their case. */
  lemma {:induction false} IsWindowsMeaning(os: string)
    ensures IsWindows(os) <==> |os| >= 3 && Lower(os[..3]) == "win"
  {
    assert Lower("WIN") == "win";
    if |os| < 3 {
      assert |Lower(os[..|os|])| != |Lower("WIN")|;
    }
  }

  /** `str_replace('"', '\"', $json)`. */
  function EscapeQuotes(s: string): string {
    StrReplace(s, "\"", "\\\"")
  }

  /** Turns every `\"` back into `"`; the inverse of `EscapeQuotes`. */
  function UnescapeQuotes(s: string): string
    decreases |s|
  {
    if |s| >= 2 && s[0] == '\\' && s[1] == '"' then "\"" + UnescapeQuotes(s[2..])
    else if s == [] then []
    else [s[0]] + UnescapeQuotes(s[1..])
  }

  lemma {:induction false} EscapeQuotesHead(s: string)
    ensures s == [] ==> EscapeQuotes(s) == []
    ensures s != [] && s[0] == '"' ==> EscapeQuotes(s) == "\\\"" + EscapeQuotes(s[1..])
    ensures s != [] && s[0] != '"' ==> EscapeQuotes(s) == [s[0]] + EscapeQuotes(s[1..])
  {
    if s != [] {
      assert OccursAt(s, "\"", 0) <==> s[0] == '"' by {
        assert s[0..1] == [s[0]];
      }
    }
  }

  /** `EscapeQuotes` loses nothing: `UnescapeQuotes` inverts it, so no two texts escape alike. */
  lemma {:induction false} UnescapeEscape(s: string)
    ensures UnescapeQuotes(EscapeQuotes(s)) == s
    decreases |s|
  {
    EscapeQuotesHead(s);
    if s != [] {
      var t := s[1..];
      UnescapeEscape(t);
      EscapeQuotesHead(t);
      var e := EscapeQuotes(t);
      if s[0] == '"' {
        assert ("\\\"" + e)[2..] == e;
      } else {
        assert e != [] ==> e[0] != '"';
        assert ([s[0]] + e)[1..] == e;
      }
      assert s == [s[0]] + t;
    }
  }

  /** Every double quote of the escaped text follows a backslash. */
  lemma {:induction false} EscapedQuotesArePreceded(s: string)
    ensures var e := EscapeQuotes(s);
      forall i :: 0 <= i < |e| && e[i] == '"' ==> i >= 1 && e[i - 1] == '\\'
    decreases |s|
  {
    EscapeQuotesHead(s);
    if s != [] {
      EscapedQuotesArePreceded(s[1..]);
      EscapeQuotesHead(s[1..]);
    }
  }

  /**
   * The token carrying the JSON parameters: on Windows the text in double
   * quotes with its own double quotes backslash-escaped, elsewhere
   * `escapeshellarg` of it.
   */
  function ParamsToken(json: string, os: string, escapeShellArg: string -> string): (r: string)
    ensures IsWindows(os) ==> |r| >= 2 && r[0] == '"' && r[|r| - 1] == '"' && UnescapeQuotes(r[1..|r| - 1]) == json
    ensures IsWindows(os) ==> forall i :: 1 <= i < |r| - 1 && r[i] == '"' ==> r[i - 1] == '\\'
    ensures !IsWindows(os) ==> r == escapeShellArg(json)
  {
    if IsWindows(os) then
      var e := EscapeQuotes(json);
      UnescapeEscape(json);
      EscapedQuotesArePreceded(json);
      var r := "\"" + e + "\"";
      assert r[1..|r| - 1] == e;
      assert forall i :: 1 <= i < |r| - 1 ==> r[i] == e[i - 1];
      r
    else escapeShellArg(json)
  }

  /* ---------------------------------------------------------------- */
  /* Command line                                                      */
  /* ---------------------------------------------------------------- */

  /** What goes on the command line, each part as the caller resolved it. */
  datatype Invocation = Invocation(
    rScript: string,         // the Rscript executable, put in double quotes
    wrapper: string,         // the R wrapper being executed
    script: string,          // the R module the wrapper runs
    dbDriver: string,        // the JDBC driver library
    connection: string,      // the JDBC connection string
    credentials: Credentials,
    workDirectory: string,
    sourceTable: string,
    params: string,          // the parameters token, already quoted
    debug: string)           // the debug flag as text

  /** The command line's tokens, in order. */
  function Arguments(inv: Invocation, escapeShellArg: string -> string): seq<string> {
    ["\"" + inv.rScript + "\"", "--vanilla", inv.wrapper, inv.script,
     escapeShellArg(inv.dbDriver), escapeShellArg(inv.connection),
     escapeShellArg(inv.credentials.user), escapeShellArg(inv.credentials.password),
     escapeShellArg(inv.credentials.schema), escapeShellArg(inv.workDirectory),
     escapeShellArg(inv.sourceTable), inv.params, inv.debug]
  }

  /** The command line: every token followed by one space, that is the tokens joined by spaces plus a final one. */
  function CommandLine(inv: Invocation, escapeShellArg: string -> string): (r: string)
    ensures r == Join(Arguments(inv, escapeShellArg), " ") + " "
  {
    var a := Arguments(inv, escapeShellArg);
    JoinTerminated(a, " ");
    Terminated(a, " ")
  }

  /* ---------------------------------------------------------------- */
  /* Password masking                                                  */
  /* ---------------------------------------------------------------- */

  /** Every character of `s` differs from `c`. */
  predicate Avoids(s: string, c: char) {
    forall i :: 0 <= i < |s| ==> s[i] != c
  }

  /**
   * `str_replace($password, '*****', $commandLine)`: the command line cut at
   * every occurrence of the password, found left to right, and joined again
   * with the mask. An empty password masks nothing.
   */
  function MaskPassword(commandLine: string, password: string): (r: string)
    ensures password == "" ==> r == commandLine
    ensures password != "" ==> r == Join(Explode(commandLine, password), PasswordMask)
  {
    MaskingSplits(commandLine, password);
    StrReplace(commandLine, password, PasswordMask)
  }

  lemma {:induction false} MaskingSplits(commandLine: string, password: string)
    ensures password != "" ==> StrReplace(commandLine, password, PasswordMask) == Join(Explode(commandLine, password), PasswordMask)
  {
    if password != "" {
      StrReplaceIsExplodeJoin(commandLine, password, PasswordMask);
    }
  }

  /**
   * What the masking achieves, and no more: a non-empty password free of
   * asterisks no longer occurs in the masked line. (An empty password, or one
   * with an asterisk, can survive the masking.)
   */
  lemma {:induction false} MaskedLineOmitsPassword(commandLine: string, password: string)
    requires password != "" && Avoids(password, '*')
    ensures !Contains(MaskPassword(commandLine, password), password)
  {
    ExplodeMeaning(commandLine, password);
    JoinHides(Explode(commandLine, password), password);
  }

  /** A password containing an asterisk can survive: `*` masked is `*****`, which contains `*`. */
  lemma {:induction false} AsteriskPasswordSurvives()
    ensures Contains(MaskPassword("*", "*"), "*")
  {
    assert MaskPassword("*", "*") == PasswordMask by {
      assert OccursAt("*", "*", 0);
      assert StrReplace("", "*", PasswordMask) == "";
    }
    assert OccursAt(PasswordMask, "*", 0);
  }

  /** Pieces free of `p`, joined by asterisks, do not contain `p` when `p` has no asterisk. */
  lemma {:induction false} JoinHides(pieces: seq<string>, p: string)
    requires p != "" && Avoids(p, '*')
    requires forall k :: 0 <= k < |pieces| ==> !Contains(pieces[k], p)
    ensures !Contains(Join(pieces, PasswordMask), p)
    decreases |pieces|
  {
    if |pieces| == 0 {
      assert !OccursAt("", p, 0);
    } else if |pieces| > 1 {
      JoinHides(pieces[1..], p);
      NoStraddle(pieces[0], PasswordMask, Join(pieces[1..], PasswordMask), p);
    }
  }

  /** An occurrence of `p` in `a + m + b` lies in `a`, in `b`, or overlaps `m`. */
  lemma {:induction false} NoStraddle(a: string, m: string, b: string, p: string)
    requires p != "" && Avoids(p, '*') && |m| >= 1 && forall i :: 0 <= i < |m| ==> m[i] == '*'
    requires !Contains(a, p) && !Contains(b, p)
    ensures !Contains(a + m + b, p)
  {
    var s := a + m + b;
    forall j | 0 <= j <= |s| ensures !OccursAt(s, p, j) {
      if OccursAt(s, p, j) {
        if j + |p| <= |a| {
          assert s[j..j + |p|] == a[j..j + |p|];
          assert OccursAt(a, p, j);
        } else if j >= |a| + |m| {
          var i := j - |a| - |m|;
          assert s[j..] == b[i..];
          assert s[j..j + |p|] == b[i..i + |p|];
          assert OccursAt(b, p, i);
        } else {
          MaskHit(a, m, b, p, j);
        }
      }
    }
  }

  lemma {:induction false} MaskHit(a: string, m: string, b: string, p: string, j: nat)
    requires p != "" && |m| >= 1 && forall i :: 0 <= i < |m| ==> m[i] == '*'
    requires OccursAt(a + m + b, p, j) && |a| < j + |p| && j < |a| + |m|
    ensures exists i :: 0 <= i < |p| && p[i] == '*'
  {
    var s := a + m + b;
    var k := if j < |a| then |a| else j;
    assert s[k] == m[k - |a|];
    assert p[k - j] == s[j..j + |p|][k - j];
  }

  /** A row of the `r__file_names` table the script fills: a file's name and the file it was written to. */
  datatype FileRow = FileRow(name: string, value: string)

  /* ---------------------------------------------------------------- */
  /* Failure message                                                   */
  /* ---------------------------------------------------------------- */

  /**
   * What the child process left behind: its exit code, its standard output
   * and error output, and the lines of `debug.log` in the working directory
   * (each with its line end), or None when that file does not exist.
   */
  datatype ProcessResult = ProcessResult(exitCode: int, stdout: string, stderr: string, debugLog: Option<seq<string>>)

  /** Standard output, followed by the error output when that is truthy. */
  function WithErrorOutput(stdout: string, stderr: string): string {
    if Truthy(Str(stderr)) then stdout + AdditionalError + stderr else stdout
  }

  /** Both substrings of the missing-rJava failure occur, ignoring case. */
  predicate MissingRJava(s: string) {
    ContainsIgnoreCase(s, SharedObjectNeedle) && ContainsIgnoreCase(s, RJavaNeedle)
  }

  /**
   * The message of the exception thrown on a non-zero exit: in debug mode
   * the `debug.log` lines joined by spaces when that file exists, otherwise
   * the outputs; without debug mode the outputs, prefixed by the JAVA_HOME
   * hint when they report that rJava could not be loaded.
   */
  function FailureMessage(debug: bool, run: ProcessResult): string {
    var output := WithErrorOutput(run.stdout, run.stderr);
    if debug then
      match run.debugLog
      case Some(lines) => Join(lines, " ")
      case None => output
    else if MissingRJava(output) then JavaHomeHint + output
    else output
  }

  /**
   * In debug mode the message is the `debug.log` lines joined by spaces when
   * that file exists, otherwise the outputs, with no JAVA_HOME hint even
   * when the outputs report the missing rJava library.
   */
  lemma {:induction false} DebugFailureMessage(run: ProcessResult)
    ensures run.debugLog.None? ==> FailureMessage(true, run) == WithErrorOutput(run.stdout, run.stderr)
    ensures run.debugLog.Some? ==> FailureMessage(true, run) == Join(run.debugLog.value, " ")
  {
  }

  /** The failure branch, step by step as the source reassigns `$output` and `$ret`. */
  method ComposeFailure(debug: bool, run: ProcessResult) returns (ret: string)
    ensures ret == FailureMessage(debug, run)
  {
    var output := run.stdout;
    if debug {
      if run.debugLog.Some? {
        ret := Join(run.debugLog.value, " ");
      } else {
        if Truthy(Str(run.stderr)) {
          output := output + AdditionalError + run.stderr;
        }
        ret := output;
      }
    } else {
      if Truthy(Str(run.stderr)) {
        output := output + AdditionalError + run.stderr;
      }
      ret := output;
      if MissingRJava(ret) {
        ret := JavaHomeHint + ret;
      }
    }
  }

  /** Outside debug mode the hint is prefixed exactly when both substrings occur. */
  lemma {:induction false} HintExactlyWhenRJavaMissing(run: ProcessResult)
    ensures var output := WithErrorOutput(run.stdout, run.stderr);
      (FailureMessage(false, run) == JavaHomeHint + output <==> MissingRJava(output))
      && (!MissingRJava(output) ==> FailureMessage(false, run) == output)
  {
    var output := WithErrorOutput(run.stdout, run.stderr);
    assert |JavaHomeHint + output| > |output|;
  }

  /** Unless the debug log is used, the message is the standard output, possibly behind the hint. */
  lemma {:induction false} FailureKeepsOutput(debug: bool, run: ProcessResult)
    requires !debug || run.debugLog.None?
    ensures var m := FailureMessage(debug, run);
      run.stdout <= m || (JavaHomeHint <= m && run.stdout <= m[|JavaHomeHint|..])
  {
    FailureShape(debug, run);
    var output := WithErrorOutput(run.stdout, run.stderr);
    var m := FailureMessage(debug, run);
    if Truthy(Str(run.stderr)) {
      Assoc(run.stdout, AdditionalError, run.stderr);
      PrefixOfConcat(run.stdout, AdditionalError + run.stderr);
    }
    assert run.stdout <= output;
    if m != output {
      PrefixOfConcat(JavaHomeHint, output);
      assert m[|JavaHomeHint|..] == output;
    }
  }

  lemma {:induction false} PrefixOfConcat(a: string, b: string)
    ensures a <= a + b && (a + b)[|a|..] == b
  {
  }

  /** Unless the debug log is used, a truthy error output ends the message, behind its marker. */
  lemma {:induction false} FailureEndsWithErrorOutput(debug: bool, run: ProcessResult)
    requires !debug || run.debugLog.None?
    requires Truthy(Str(run.stderr))
    ensures var m := FailureMessage(debug, run);
      var tail := AdditionalError + run.stderr;
      |tail| <= |m| && m[|m| - |tail|..] == tail
  {
    FailureShape(debug, run);
    var tail := AdditionalError + run.stderr;
    Assoc(run.stdout, AdditionalError, run.stderr);
    assert WithErrorOutput(run.stdout, run.stderr) == run.stdout + tail;
    SuffixOfEither(FailureMessage(debug, run), JavaHomeHint, run.stdout, AdditionalError + run.stderr);
  }

  /** Unless the debug log is used, the message is the outputs, possibly behind the hint. */
  lemma {:induction false} FailureShape(debug: bool, run: ProcessResult)
    requires !debug || run.debugLog.None?
    ensures var m := FailureMessage(debug, run);
      var output := WithErrorOutput(run.stdout, run.stderr);
      m == output || m == JavaHomeHint + output
  {
  }

  lemma {:induction false} Assoc(x: string, y: string, z: string)
    ensures x + y + z == x + (y + z)
  {
  }

  lemma {:induction false} SuffixOfEither(m: string, h: string, x: string, tail: string)
    requires m == x + tail || m == h + (x + tail)
    ensures |tail| <= |m| && m[|m| - |tail|..] == tail
  {
    if m == x + tail {
      assert m[|x|..] == tail;
    } else {
      assert m[|h| + |x|..] == tail;
    }
  }

  /** With the debug log present, the message is the log alone: neither output matters. */
  lemma {:induction false} DebugLogDecides(run: ProcessResult, other: ProcessResult)
    requires run.debugLog.Some? && other.debugLog == run.debugLog
    ensures FailureMessage(true, run) == FailureMessage(true, other)
  {
  }

  /** An error output of "0" is falsy in PHP and is not appended. */
  lemma {:induction false} ZeroErrorOutputDropped(stdout: string)
    ensures WithErrorOutput(stdout, "0") == stdout
    ensures WithErrorOutput(stdout, "") == stdout
    ensures WithErrorOutput(stdout, "00") == stdout + AdditionalError + "00"
  {
  }

  /** The rJava detection ignores case: lower-casing the output does not change it. */
  lemma {:induction false} MissingRJavaIgnoresCase(s: string)
    ensures MissingRJava(Lower(s)) <==> MissingRJava(s)
  {
    SearchIgnoresCase(s, SharedObjectNeedle);
    SearchIgnoresCase(s, RJavaNeedle);
  }

  lemma {:induction false} SearchIgnoresCase(s: string, needle: string)
    ensures ContainsIgnoreCase(Lower(s), needle) == ContainsIgnoreCase(s, needle)
  {
    LowerIdempotent(s);
  }
}
