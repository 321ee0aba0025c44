/**
 * The configuration rules both `lgr:run` commands (Command/RunCommand.php
 * and src/AppBundle/Command/RunCommand.php) apply to the decoded
 * `config.yml`, and the output-file manifests both write.
 */
module JobConfig {
  import opened Strings
  import opened Php
  import opened ScriptRun
  import opened OrderedMap

  const SourceTableMissing := "Source table must be provided in configuration."

  /** `$config['parameters']`. */
  function Parameters(config: Value): Value {
    At(config, "parameters")
  }

  /**
   * The debug setting: `boolval(parameters.debug)` when that is set,
   * otherwise the kernel environment's name itself, a string.
   */
  function DebugSetting(config: Value, environment: string): Value {
    var d := At(Parameters(config), "debug");
    if d != Null then Bool(Truthy(d)) else Str(environment)
  }

  /**
   * Debug mode is on exactly when the configured value is truthy; without
   * one it follows the environment's name, so any name other than "" and
   * "0" (`prod` included) turns it on.
   */
  lemma {:induction false} DebugSettingMeaning(config: Value, environment: string)
    ensures IsSet(Parameters(config), "debug") ==>
      DebugSetting(config, environment) == Bool(Truthy(At(Parameters(config), "debug")))
    ensures !IsSet(Parameters(config), "debug") ==>
      (Truthy(DebugSetting(config, environment)) <==> environment != "" && environment != "0")
    ensures !IsSet(Parameters(config), "debug") ==> Truthy(DebugSetting(config, "prod"))
  {
  }

  /** `config.fileTags` when it is an array, otherwise the empty array; always an array. */
  function FileTagsSetting(config: Value): (r: Value)
    ensures r.Arr?
    ensures IsArray(At(config, "fileTags")) ==> r == At(config, "fileTags")
    ensures !IsArray(At(config, "fileTags")) ==> r == Arr([])
  {
    var t := At(config, "fileTags");
    if IsSet(config, "fileTags") && IsArray(t) then t else Arr([])
  }

  /** A parameter that defaults to the empty array when it is empty. */
  function ArrayDefault(config: Value, key: string): (r: Value)
    ensures !Empty(r) ==> r == At(Parameters(config), key)
    ensures Empty(At(Parameters(config), key)) ==> r == Arr([])
    ensures !Empty(At(Parameters(config), key)) ==> r == At(Parameters(config), key)
  {
    var v := At(Parameters(config), key);
    if !Empty(v) then v else Arr([])
  }

  /** `parameters.sourceTable`, which must not be empty. */
  function SourceTable(config: Value): Value {
    At(Parameters(config), "sourceTable")
  }

  /* ---------------------------------------------------------------- */
  /* Script body                                                       */
  /* ---------------------------------------------------------------- */

  /** The rows of a list script as text. */
  function RowTexts(rows: seq<Value>): (r: seq<string>)
    ensures |r| == |rows| && forall i :: 0 <= i < |rows| ==> r[i] == ToStr(rows[i])
  {
    seq(|rows|, i requires 0 <= i < |rows| => ToStr(rows[i]))
  }

  /** A list script: every row followed by a line end. */
  function ScriptFromRows(rows: seq<Value>): string {
    Terminated(RowTexts(rows), "\n")
  }

  /** The `foreach` that appends `$row . "\n"` for every row. */
  method AssembleScript(rows: seq<Value>) returns (content: string)
    ensures content == ScriptFromRows(rows)
  {
    content := "";
    for i := 0 to |rows|
      invariant content == ScriptFromRows(rows[..i])
    {
      TerminatedSnoc(RowTexts(rows[..i]), ToStr(rows[i]), "\n");
      assert RowTexts(rows[..i + 1]) == RowTexts(rows[..i]) + [ToStr(rows[i])];
      content := content + ToStr(rows[i]) + "\n";
    }
    assert rows[..|rows|] == rows;
  }

  /** Terminating one more piece appends it and its terminator. */
  lemma {:induction false} TerminatedSnoc(pieces: seq<string>, p: string, t: string)
    ensures Terminated(pieces + [p], t) == Terminated(pieces, t) + p + t
    decreases |pieces|
  {
    if pieces == [] {
      assert [p][1..] == [];
    } else {
      assert (pieces + [p])[1..] == pieces[1..] + [p];
      TerminatedSnoc(pieces[1..], p, t);
    }
  }

  /**
   * A list script is its rows joined by line ends, with one more at the end;
   * so a non-empty list never yields an empty script.
   */
  lemma {:induction false} ScriptFromRowsMeaning(rows: seq<Value>)
    requires rows != []
    ensures ScriptFromRows(rows) == Join(RowTexts(rows), "\n") + "\n"
    ensures Truthy(Str(ScriptFromRows(rows)))
  {
    JoinTerminated(RowTexts(rows), "\n");
    var s := ScriptFromRows(rows);
    assert s[|s| - 1] == '\n';
  }

  /** The two-row example: `[a, b]` becomes "a\nb\n". */
  lemma {:induction false} TwoRowScript(a: string, b: string)
    ensures ScriptFromRows([Str(a), Str(b)]) == a + "\n" + b + "\n"
  {
    var texts := RowTexts([Str(a), Str(b)]);
    assert texts == [a, b];
    assert texts[1..] == [b];
    assert texts[1..][1..] == [];
    calc {
      Terminated(texts, "\n");
      a + "\n" + Terminated([b], "\n");
      { assert [b][1..] == []; }
      a + "\n" + (b + "\n" + "");
    }
  }

  /* ---------------------------------------------------------------- */
  /* Output files                                                      */
  /* ---------------------------------------------------------------- */

  /** A file manifest: the stored name, three flags and the tags (a PHP array). */
  datatype Manifest = Manifest(name: string, isPublic: Value, isPermanent: Value, notify: Value, tags: Value)

  /** The flags as one command writes them (booleans in one, integers in the other). */
  datatype Flags = Flags(isPublic: Value, isPermanent: Value, notify: Value)

  /** `array_merge($fileTags, [$row['name'], 'LuckyGuess'])`. */
  function ManifestTags(fileTags: Value, rowName: string): (tags: Value)
    requires fileTags.Arr?
    ensures tags.Arr?
  {
    Arr(ArrayMerge(fileTags.entries, TagPair(rowName)))
  }

  /**
   * The manifest's tags are the configured tags as `array_merge` leaves them,
   * then the row's name and `LuckyGuess` under the next two integer indexes.
   * A configured list simply gets the two appended; a configured string key
   * keeps the value the configuration gave it last.
   */
  lemma {:induction false} ManifestTagsMeaning(fileTags: Value, rowName: string)
    requires fileTags.Arr?
    ensures var a := fileTags.entries; var m := IntKeyCount(a);
      ManifestTags(fileTags, rowName).entries
        == ArrayMerge(a, []) + [(NatToString(m), Str(rowName)), (NatToString(m + 1), Str(LuckyGuessTag))]
    ensures forall k :: !IsIntKey(k) ==> Get(ManifestTags(fileTags, rowName).entries, k) == LastGet(fileTags.entries, k)
    ensures (forall i :: 0 <= i < |fileTags.entries| ==> IsIntKey(fileTags.entries[i].0)) ==>
      ManifestTags(fileTags, rowName) == List(Values(fileTags.entries) + [Str(rowName), Str(LuckyGuessTag)])
  {
    ManifestTagsAppended(fileTags, rowName);
    forall k | !IsIntKey(k)
      ensures Get(ManifestTags(fileTags, rowName).entries, k) == LastGet(fileTags.entries, k)
    {
      ManifestTagsStringKey(fileTags, rowName, k);
    }
    if forall i :: 0 <= i < |fileTags.entries| ==> IsIntKey(fileTags.entries[i].0) {
      ManifestTagsOfList(fileTags, rowName);
    }
  }

  /** The pair `array_merge` appends, as list entries from index 0. */
  function TagPair(rowName: string): seq<(string, Value)> {
    List([Str(rowName), Str(LuckyGuessTag)]).entries
  }

  lemma {:induction false} TagPairMeaning(rowName: string)
    ensures TagPair(rowName) == Indexed([Str(rowName), Str(LuckyGuessTag)], 0)
    ensures Values(TagPair(rowName)) == [Str(rowName), Str(LuckyGuessTag)]
    ensures forall i :: 0 <= i < |TagPair(rowName)| ==> IsIntKey(TagPair(rowName)[i].0)
  {
    IndexedValues([Str(rowName), Str(LuckyGuessTag)], 0);
  }

  lemma {:induction false} ManifestTagsAppended(fileTags: Value, rowName: string)
    requires fileTags.Arr?
    ensures var a := fileTags.entries; var m := IntKeyCount(a);
      ManifestTags(fileTags, rowName).entries
        == ArrayMerge(a, []) + [(NatToString(m), Str(rowName)), (NatToString(m + 1), Str(LuckyGuessTag))]
  {
    var a := fileTags.entries;
    var items := [Str(rowName), Str(LuckyGuessTag)];
    var tail := TagPair(rowName);
    TagPairMeaning(rowName);
    var st := MergeInto(([], 0), a);
    MergeIntoSplit(([], 0), a, tail);
    MergeIntoList(st, tail);
    MergeIntoCount(([], 0), a);
    var m := IntKeyCount(a);
    IndexedStep(items, m);
    IndexedStep(items[1..], m + 1);
    assert items[1..][1..] == [];
    assert Indexed(items, m) == [(NatToString(m), Str(rowName)), (NatToString(m + 1), Str(LuckyGuessTag))];
    assert a + [] == a;
  }

  lemma {:induction false} ManifestTagsStringKey(fileTags: Value, rowName: string, k: string)
    requires fileTags.Arr? && !IsIntKey(k)
    ensures Get(ManifestTags(fileTags, rowName).entries, k) == LastGet(fileTags.entries, k)
  {
    var a := fileTags.entries;
    TagPairMeaning(rowName);
    MergeIntoStringKey(([], 0), a + TagPair(rowName), k);
    LastGetPastList(a, TagPair(rowName), k);
  }

  lemma {:induction false} ManifestTagsOfList(fileTags: Value, rowName: string)
    requires fileTags.Arr? && forall i :: 0 <= i < |fileTags.entries| ==> IsIntKey(fileTags.entries[i].0)
    ensures ManifestTags(fileTags, rowName) == List(Values(fileTags.entries) + [Str(rowName), Str(LuckyGuessTag)])
  {
    var a := fileTags.entries;
    var tail := TagPair(rowName);
    TagPairMeaning(rowName);
    var whole := a + tail;
    forall i | 0 <= i < |whole| ensures IsIntKey(whole[i].0) {
      if i >= |a| { assert whole[i] == tail[i - |a|]; }
    }
    MergeIntoList(([], 0), whole);
    assert Values(whole) == Values(a) + [Str(rowName), Str(LuckyGuessTag)];
    assert [] + Indexed(Values(whole), 0) == Indexed(Values(whole), 0);
  }

  /** A file the script produced: moved from the working directory to the output directory, with its manifest beside it. */
  datatype OutputFile = OutputFile(source: string, target: string, manifestPath: string, manifest: Manifest)

  function OutputFileFor(row: FileRow, workingDir: string, ds: string, outDir: string, fileTags: Value, flags: Flags): OutputFile
    requires fileTags.Arr?
  {
    OutputFile(workingDir + ds + row.value, outDir + row.value, outDir + row.value + ".manifest",
               Manifest(row.value, flags.isPublic, flags.isPermanent, flags.notify, ManifestTags(fileTags, row.name)))
  }

  /** The `while ($row = $stmt->fetch())` loop: one output file per row, in row order. */
  method OutputFiles(rows: seq<FileRow>, workingDir: string, ds: string, outDir: string, fileTags: Value, flags: Flags)
    returns (files: seq<OutputFile>)
    requires fileTags.Arr?
    ensures |files| == |rows|
    ensures forall i :: 0 <= i < |rows| ==> files[i] == OutputFileFor(rows[i], workingDir, ds, outDir, fileTags, flags)
  {
    files := [];
    var i := 0;
    while i < |rows|
      invariant 0 <= i <= |rows|
      invariant |files| == i
      invariant forall j :: 0 <= j < i ==> files[j] == OutputFileFor(rows[j], workingDir, ds, outDir, fileTags, flags)
    {
      var row := rows[i];
      var target := outDir + row.value;
      var manifest := Manifest(row.value, flags.isPublic, flags.isPermanent, flags.notify, ManifestTags(fileTags, row.name));
      files := files + [OutputFile(workingDir + ds + row.value, target, target + ".manifest", manifest)];
      i := i + 1;
    }
  }

  /** Every manifest sits next to its file, under the file's name plus `.manifest`, and names it by its stored name. */
  lemma {:induction false} ManifestBesideFile(row: FileRow, workingDir: string, ds: string, outDir: string, fileTags: Value, flags: Flags)
    requires fileTags.Arr?
    ensures var f := OutputFileFor(row, workingDir, ds, outDir, fileTags, flags);
      f.manifestPath == f.target + ".manifest" && f.manifest.name == row.value
      && outDir <= f.target && f.target[|outDir|..] == row.value
  {
  }
}
