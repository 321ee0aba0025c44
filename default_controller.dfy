/**
 * `DefaultController`: the HTTP API. `execAction` validates the request and
 * runs one R module through `MainTransformation`; `listAction` lists the
 * modules with the parameters each one declares.
 */
module DefaultController {
  import opened Optional
  import opened Strings
  import opened OrderedMap
  import opened Php
  import opened ScriptRun
  import opened MainTransformation

  const ScriptMissing := "You need to provide value for parameter 'script' in request."
  const SourceMissing := "You need to provide value for parameter 'source' in request."
  const DefaultParameters := "{}"

  /** The arguments `execAction` hands to `MainTransformation::run`. */
  datatype Request = Request(script: string, source: string, parameters: Value, fileTags: seq<Value>, debug: bool)

  /**
   * The validation of `execAction`: `script`, then `source`, must not be
   * empty, and both are trimmed (an array trims to nothing, as in PHP 7);
   * empty parameters become the string "{}";
   * file tags are kept only when they are a non-empty array; debug is the
   * truthiness of `debug`.
   */
  function ExecRequest(params: Value): (r: Result<Request>)
    ensures Empty(At(params, "script")) ==> r == Throw(UserError(ScriptMissing))
    ensures !Empty(At(params, "script")) && Empty(At(params, "source")) ==> r == Throw(UserError(SourceMissing))
    ensures r.Ok? <==> !Empty(At(params, "script")) && !Empty(At(params, "source"))
  {
    var script := At(params, "script");
    var source := At(params, "source");
    var parameters := At(params, "parameters");
    var fileTags := At(params, "fileTags");
    if Empty(script) then Throw(UserError(ScriptMissing))
    else if Empty(source) then Throw(UserError(SourceMissing))
    else Ok(Request(TrimText(script), TrimText(source), ParametersOrDefault(parameters),
                    RequestTags(fileTags), Truthy(At(params, "debug"))))
  }

  /** The requested parameters, or the string "{}" when they are empty. */
  function ParametersOrDefault(parameters: Value): (r: Value)
    ensures !Empty(r)
    ensures !Empty(parameters) ==> r == parameters
    ensures Empty(parameters) ==> r == Str(DefaultParameters)
  {
    if Empty(parameters) then Str(DefaultParameters) else parameters
  }

  /** The requested file tags: the array's values when they are a non-empty array, otherwise none. */
  function RequestTags(fileTags: Value): (r: seq<Value>)
    ensures r != [] <==> IsArray(fileTags) && !Empty(fileTags)
    ensures r != [] ==> r == Values(fileTags.entries)
  {
    if Empty(fileTags) || !IsArray(fileTags) then [] else Values(fileTags.entries)
  }

  /**
   * What an accepted request hands to `run`: the script and the source
   * trimmed, so without surrounding blanks; the parameters or "{}"; the
   * file tags; and whether `debug` is truthy.
   */
  lemma {:induction false} AcceptedRequestTrimmed(params: Value)
    requires ExecRequest(params).Ok?
    ensures var q := ExecRequest(params).value;
      && q.script == TrimText(At(params, "script")) && q.source == TrimText(At(params, "source"))
      && Trimmed(q.script) && Trimmed(q.source)
      && q.parameters == ParametersOrDefault(At(params, "parameters"))
      && q.fileTags == RequestTags(At(params, "fileTags"))
      && q.debug == Truthy(At(params, "debug"))
  {
    TrimIsTrimmed(ToStr(At(params, "script")));
    TrimIsTrimmed(ToStr(At(params, "source")));
    TrimIsTrimmed("");
  }

  /**
   * A script name made only of blanks passes the emptiness check and comes
   * out empty: `run` then meets it as the name "".
   */
  lemma {:induction false} BlankScriptPassesValidation(params: Value)
    requires At(params, "script") == Str(" ") && !Empty(At(params, "source"))
    ensures ExecRequest(params).Ok? && ExecRequest(params).value.script == ""
  {
    AllSpaceTrimStart(" ");
  }

  /**
   * `execAction`: a request that fails validation throws its error;
   * otherwise the request is run, and its response is what `run` returns.
   */
  method ExecAction(host: Host, dir: string, fileExists: string -> bool, rScript: string, dbDriver: string,
                    environment: string, params: Value, provisioning: Value, workingDir: string,
                    process: ProcessResult, rows: seq<FileRow>)
    returns (r: Result<RunResponse>, commandLine: Option<string>, logged: Option<string>)
    ensures ExecRequest(params).Throw? ==> r == Throw(ExecRequest(params).error) && commandLine == None && logged == None
    ensures ExecRequest(params).Ok? ==>
      var q := ExecRequest(params).value;
      RunOutcome(host, dir, fileExists, rScript, dbDriver, environment, q.script, q.source, q.parameters,
                 q.fileTags, q.debug, provisioning, workingDir, process, rows, r, commandLine, logged)
  {
    var request := ExecRequest(params);
    if request.Throw? {
      return Throw(request.error), None, None;
    }
    var q := request.value;
    r, commandLine, logged := Run(host, dir, fileExists, rScript, dbDriver, environment, q.script, q.source, q.parameters,
             q.fileTags, q.debug, provisioning, workingDir, process, rows);
  }

  /* ---------------------------------------------------------------- */
  /* listAction                                                        */
  /* ---------------------------------------------------------------- */

  /** The scripts in the module directory that are not modules. */
  const Reserved: set<string> := {"wrapper", "redshift", "RStudioRunner", "wrapperParams"}

  /** The last component of a path: everything after its last `/`. */
  function AfterLastSlash(path: string): string {
    if path == [] then []
    else if path[|path| - 1] == '/' then []
    else AfterLastSlash(path[..|path| - 1]) + [path[|path| - 1]]
  }

  /** The last component is a suffix of the path without a slash, preceded by a slash unless it is the whole path. */
  lemma {:induction false} AfterLastSlashMeaning(path: string)
    ensures var r := AfterLastSlash(path);
      && |r| <= |path| && r == path[|path| - |r|..]
      && (forall i :: 0 <= i < |r| ==> r[i] != '/')
      && (|r| < |path| ==> path[|path| - |r| - 1] == '/')
    decreases |path|
  {
    if path != [] && path[|path| - 1] != '/' {
      var init := path[..|path| - 1];
      var c := path[|path| - 1];
      AfterLastSlashMeaning(init);
      var r0 := AfterLastSlash(init);
      var r := r0 + [c];
      assert AfterLastSlash(path) == r;
      SuffixThroughLast(path, |r0|);
      forall i | 0 <= i < |r| ensures r[i] != '/' {
        if i < |r0| { assert r[i] == r0[i]; }
      }
      if |r| < |path| {
        assert path[|path| - |r| - 1] == init[|init| - |r0| - 1];
      }
    }
  }

  /** A suffix of a non-empty string is the suffix of its initial part followed by its last character. */
  lemma {:induction false} SuffixThroughLast(s: string, n: nat)
    requires n < |s|
    ensures s[|s| - n - 1..] == s[..|s| - 1][|s| - 1 - n..] + [s[|s| - 1]]
  {
  }

  /** `basename($path, ".R")`: the last component, without `.R` unless that is all of it. */
  function BaseName(path: string): string {
    var c := AfterLastSlash(path);
    if |c| > 2 && c[|c| - 2..] == ".R" then c[..|c| - 2] else c
  }

  /** A slash followed by a text without slashes leaves that text as the last component. */
  lemma {:induction false} AfterSlash(prefix: string, tail: string)
    requires forall i :: 0 <= i < |tail| ==> tail[i] != '/'
    ensures AfterLastSlash(prefix + "/" + tail) == tail
    decreases |tail|
  {
    var path := prefix + "/" + tail;
    if tail != [] {
      assert path[..|path| - 1] == prefix + "/" + tail[..|tail| - 1];
      AfterSlash(prefix, tail[..|tail| - 1]);
      assert tail[..|tail| - 1] + [tail[|tail| - 1]] == tail;
    }
  }

  /** A module file `{dir}/{name}.R` lists as `name`. */
  lemma {:induction false} BaseNameOfModule(dir: string, name: string)
    requires name != [] && forall i :: 0 <= i < |name| ==> name[i] != '/'
    ensures BaseName(dir + "/" + name + ".R") == name
  {
    var tail := name + ".R";
    assert dir + "/" + name + ".R" == dir + "/" + tail;
    assert forall i :: 0 <= i < |tail| ==> tail[i] != '/' by {
      assert forall i :: |name| <= i < |tail| ==> tail[i] == ".R"[i - |name|];
    }
    AfterSlash(dir, tail);
    assert tail[|tail| - 2..] == ".R";
    assert tail[..|tail| - 2] == name;
  }

  /** One entry of the listing. */
  datatype Module = Module(name: string, parameters: Dict<Parameter>)

  /**
   * The listing of the files `globbed` found, in order: reserved names are
   * skipped, every other file is entered under its base name, and the first
   * `getParameters` that throws aborts the listing. `exec` is the output of
   * asking a module for its parameters.
   */
  function Listing(globbed: seq<string>, moduleDir: string, ds: string, fileExists: string -> bool,
                   exec: string -> ExecResult): Result<Dict<Module>>
    decreases |globbed|
  {
    if globbed == [] then Ok([])
    else
      var previous := Listing(globbed[..|globbed| - 1], moduleDir, ds, fileExists, exec);
      var name := BaseName(globbed[|globbed| - 1]);
      if previous.Throw? then previous
      else if name in Reserved then previous
      else
        var parameters := ParametersResult(moduleDir, ds, fileExists, name, exec(name));
        if parameters.Throw? then Throw(parameters.error)
        else Ok(Put(previous.value, name, Module(name, parameters.value)))
  }

  /** Once a prefix of the files aborts the listing, the whole listing aborts the same way. */
  lemma {:induction false} ListingAbortPersists(globbed: seq<string>, n: nat, moduleDir: string, ds: string,
                                                fileExists: string -> bool, exec: string -> ExecResult)
    requires n <= |globbed|
    requires Listing(globbed[..n], moduleDir, ds, fileExists, exec).Throw?
    ensures Listing(globbed, moduleDir, ds, fileExists, exec) == Listing(globbed[..n], moduleDir, ds, fileExists, exec)
    decreases |globbed| - n
  {
    if n < |globbed| {
      assert globbed[..n + 1][..n] == globbed[..n];
      ListingAbortPersists(globbed, n + 1, moduleDir, ds, fileExists, exec);
    } else {
      assert globbed[..n] == globbed;
    }
  }

  /** `listAction`: the `foreach` over the globbed files. */
  method ListAction(globbed: seq<string>, moduleDir: string, ds: string, fileExists: string -> bool,
                    exec: string -> ExecResult)
    returns (r: Result<Dict<Module>>)
    ensures r == Listing(globbed, moduleDir, ds, fileExists, exec)
  {
    var data: Dict<Module> := [];
    for i := 0 to |globbed|
      invariant Listing(globbed[..i], moduleDir, ds, fileExists, exec) == Ok(data)
    {
      assert globbed[..i + 1][..i] == globbed[..i];
      assert globbed[..i + 1][i] == globbed[i];
      var fileName := BaseName(globbed[i]);
      if fileName !in Reserved {
        var parameters := GetParameters(moduleDir, ds, fileExists, fileName, exec(fileName));
        if parameters.Throw? {
          ListingAbortPersists(globbed, i + 1, moduleDir, ds, fileExists, exec);
          return Throw(parameters.error);
        }
        data := Put(data, fileName, Module(fileName, parameters.value));
      }
    }
    assert globbed[..|globbed|] == globbed;
    r := Ok(data);
  }

  /** A file is listed when it is not reserved. */
  predicate Listed(globbed: seq<string>, k: string) {
    k !in Reserved && exists i :: 0 <= i < |globbed| && BaseName(globbed[i]) == k
  }

  /**
   * A listing that succeeds holds exactly the non-reserved base names of
   * the globbed files, each under its own name with the parameters its
   * module declares.
   */
  lemma {:induction false} ListingMeaning(globbed: seq<string>, moduleDir: string, ds: string, fileExists: string -> bool,
                                          exec: string -> ExecResult, k: string)
    requires Listing(globbed, moduleDir, ds, fileExists, exec).Ok?
    ensures var data := Listing(globbed, moduleDir, ds, fileExists, exec).value;
      (k in Keys(data) <==> Listed(globbed, k))
      && (Get(data, k).Some? ==>
            && ParametersResult(moduleDir, ds, fileExists, k, exec(k)).Ok?
            && Get(data, k) == Some(Module(k, ParametersResult(moduleDir, ds, fileExists, k, exec(k)).value)))
    decreases |globbed|
  {
    if globbed != [] {
      var init := globbed[..|globbed| - 1];
      var name := BaseName(globbed[|globbed| - 1]);
      ListingMeaning(init, moduleDir, ds, fileExists, exec, k);
      ListedStep(globbed, k);
      var previous := Listing(init, moduleDir, ds, fileExists, exec).value;
      if name !in Reserved {
        var parameters := ParametersResult(moduleDir, ds, fileExists, name, exec(name));
        assert Listing(globbed, moduleDir, ds, fileExists, exec).value == Put(previous, name, Module(name, parameters.value));
      }
    }
  }

  /** The files listed after one more file: those listed before, and that file's name unless it is reserved. */
  lemma {:induction false} ListedStep(globbed: seq<string>, k: string)
    requires globbed != []
    ensures var name := BaseName(globbed[|globbed| - 1]);
      Listed(globbed, k) <==> Listed(globbed[..|globbed| - 1], k) || (k !in Reserved && name == k)
  {
    var init := globbed[..|globbed| - 1];
    assert forall i :: 0 <= i < |init| ==> init[i] == globbed[i];
    if Listed(globbed, k) && !Listed(init, k) {
      var i :| 0 <= i < |globbed| && BaseName(globbed[i]) == k;
      assert i == |globbed| - 1;
    }
  }
}
