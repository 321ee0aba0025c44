/**
 * TableReader: reads a component's key/value configuration table and turns
 * dotted keys (`foo.bar`) into a nested configuration.
 */
module TableReader {
  import opened Optional
  import opened Strings
  import opened OrderedMap

  /** One exported CSV row: column name to cell text. */
  type Row = map<string, string>

  /** A cell as PHP reads it: a missing column reads as null (`None`). */
  type Cell = Option<string>

  /** The nested PHP array that `parse` builds; a leaf is a cell. */
  datatype Tree = Leaf(cell: Cell) | Node(children: map<string, Tree>)

  /** The table that `readConfigTable` reads: stage `sys`, bucket `c-<component>`. */
  function ConfigTableId(componentName: string, tableName: string): (id: string)
    ensures !Contains(componentName, ".") && !Contains(tableName, ".") ==>
      Explode(id, ".") == ["sys", "c-" + componentName, tableName]
  {
    TableIdParts(componentName, tableName);
    "sys.c-" + componentName + "." + tableName
  }

  lemma {:induction false} TableIdParts(componentName: string, tableName: string)
    ensures !Contains(componentName, ".") && !Contains(tableName, ".") ==>
      Explode("sys.c-" + componentName + "." + tableName, ".") == ["sys", "c-" + componentName, tableName]
  {
    if Contains(componentName, ".") || Contains(tableName, ".") { return; }
    var bucket := "c-" + componentName;
    WithoutChar("sys", '.');
    BucketHasNoDot(componentName);
    IdSpelling(componentName, tableName);
    ExplodeThree("sys", bucket, tableName, '.');
  }

  lemma {:induction false} BucketHasNoDot(componentName: string)
    requires !Contains(componentName, ".")
    ensures !Contains("c-" + componentName, ".")
  {
    var bucket := "c-" + componentName;
    WithoutChar(componentName, '.');
    forall i | 0 <= i < |bucket| ensures bucket[i] != '.' {
      if i >= 2 { assert bucket[i] == componentName[i - 2]; }
    }
    WithoutChar(bucket, '.');
  }

  lemma {:induction false} IdSpelling(componentName: string, tableName: string)
    ensures "sys.c-" + componentName + "." + tableName == "sys" + ['.'] + ("c-" + componentName) + ['.'] + tableName
  {
  }

  /** `$row[$keyName]` used as an array key: a missing column is null, and a null key is "". */
  function KeyOf(row: Row, keyName: string): string {
    if keyName in row then row[keyName] else ""
  }

  function CellOf(row: Row, valueName: string): Cell {
    if valueName in row then Some(row[valueName]) else None
  }

  /** What `keyValueMap` computes: the rows folded left to right by assignment. */
  function KeyValueMapOf(data: seq<Row>, keyName: string, valueName: string): Dict<Cell> {
    if data == [] then []
    else
      var last := data[|data| - 1];
      Put(KeyValueMapOf(data[..|data| - 1], keyName, valueName), KeyOf(last, keyName), CellOf(last, valueName))
  }

  /** The value column of the last row whose key column is `k`. */
  function LastValue(data: seq<Row>, keyName: string, valueName: string, k: string): Option<Cell> {
    if data == [] then None
    else if KeyOf(data[|data| - 1], keyName) == k then Some(CellOf(data[|data| - 1], valueName))
    else LastValue(data[..|data| - 1], keyName, valueName, k)
  }

  method KeyValueMap(data: seq<Row>, keyName: string, valueName: string) returns (m: Dict<Cell>)
    ensures m == KeyValueMapOf(data, keyName, valueName)
  {
    m := [];
    for i := 0 to |data|
      invariant m == KeyValueMapOf(data[..i], keyName, valueName)
    {
      assert data[..i + 1][..i] == data[..i];
      m := Put(m, KeyOf(data[i], keyName), CellOf(data[i], valueName));
    }
    assert data[..|data|] == data;
  }

  /** Each key maps to the value of the last row carrying it: later rows overwrite earlier ones. */
  lemma {:induction false} KeyValueMapLastWins(data: seq<Row>, keyName: string, valueName: string, k: string)
    ensures Get(KeyValueMapOf(data, keyName, valueName), k) == LastValue(data, keyName, valueName, k)
    decreases |data|
  {
    if data != [] {
      KeyValueMapLastWins(data[..|data| - 1], keyName, valueName, k);
    }
  }

  /** The map has one entry per distinct key, so no key is listed twice. */
  lemma {:induction false} KeyValueMapDistinct(data: seq<Row>, keyName: string, valueName: string)
    ensures Distinct(Keys(KeyValueMapOf(data, keyName, valueName)))
    decreases |data|
  {
    if data != [] {
      var prev := data[..|data| - 1];
      KeyValueMapDistinct(prev, keyName, valueName);
      var last := data[|data| - 1];
      PutKeepsDistinct(KeyValueMapOf(prev, keyName, valueName), KeyOf(last, keyName), CellOf(last, valueName));
    }
  }

  /** An empty table gives an empty map. */
  lemma {:induction false} KeyValueMapEmpty(keyName: string, valueName: string)
    ensures KeyValueMapOf([], keyName, valueName) == []
  {
  }

  /** `isset($data[$key])` on an array: present and not null. */
  predicate IsSet(children: map<string, Tree>, key: string) {
    key in children && children[key] != Leaf(None)
  }

  /**
   * `saveKey(&$data, $keys, $value)`: `keys` is a stack whose top (its last
   * element) is the next path segment. An exhausted stack replaces the
   * target by the value; otherwise the segment is created as an empty array
   * when not set and the rest is saved inside it. Extending a string value
   * would use PHP string offsets, which the model does not cover: `None`.
   */
  function SaveKey(data: Tree, keys: seq<string>, value: Cell): Option<Tree>
    decreases |keys|
  {
    if keys == [] then Some(Leaf(value))
    else if data.Leaf? && data.cell.Some? then None
    else
      var key := keys[|keys| - 1];
      var ch := if data.Node? then data.children else map[];  // null becomes an array on assignment
      var child := if IsSet(ch, key) then ch[key] else Node(map[]);
      match SaveKey(child, keys[..|keys| - 1], value)
      case None => None
      case Some(c) => Some(Node(ch[key := c]))
  }

  function Reverse(s: seq<string>): (r: seq<string>)
    ensures |r| == |s|
  {
    if s == [] then [] else Reverse(s[1..]) + [s[0]]
  }

  /** Following a path of keys from the root, as `$ret[a][b][c]` does. */
  function Lookup(t: Tree, path: seq<string>): Option<Tree> {
    if path == [] then Some(t)
    else if t.Node? && path[0] in t.children then Lookup(t.children[path[0]], path[1..])
    else None
  }

  /** Saving along `reverse(path)` puts the value at `path`, whose segments are consumed from the left. */
  lemma {:induction false} SaveKeyPlaces(t: Tree, path: seq<string>, value: Cell)
    requires SaveKey(t, Reverse(path), value).Some?
    ensures Lookup(SaveKey(t, Reverse(path), value).value, path) == Some(Leaf(value))
    decreases |path|
  {
    if path != [] {
      var keys := Reverse(path);
      assert keys[|keys| - 1] == path[0] && keys[..|keys| - 1] == Reverse(path[1..]);
      var ch := if t.Node? then t.children else map[];
      var child := if IsSet(ch, path[0]) then ch[path[0]] else Node(map[]);
      SaveKeyPlaces(child, path[1..], value);
    }
  }

  /** The array `saveKey` descends into under `key`: the one set there, or a fresh empty one. */
  function ChildAt(t: Tree, key: string): Tree {
    var ch := if t.Node? then t.children else map[];
    if IsSet(ch, key) then ch[key] else Node(map[])
  }

  /** One level of `saveKey` along `reverse(path)`: the rest is saved inside the first segment's array. */
  lemma {:induction false} SaveKeyUnfold(t: Tree, path: seq<string>, value: Cell)
    requires path != [] && SaveKey(t, Reverse(path), value).Some?
    ensures SaveKey(ChildAt(t, path[0]), Reverse(path[1..]), value).Some?
    ensures var ch := if t.Node? then t.children else map[];
      SaveKey(t, Reverse(path), value).value == Node(ch[path[0] := SaveKey(ChildAt(t, path[0]), Reverse(path[1..]), value).value])
  {
    var keys := Reverse(path);
    assert keys[|keys| - 1] == path[0] && keys[..|keys| - 1] == Reverse(path[1..]);
  }

  /** A path of two or more segments is looked up inside the array `saveKey` would descend into. */
  lemma {:induction false} LookupThroughChild(t: Tree, other: seq<string>)
    requires |other| >= 2
    ensures Lookup(t, other) == Lookup(ChildAt(t, other[0]), other[1..])
  {
  }

  /** Two paths sharing their first `i > 0` segments share the first one, and their tails share `i - 1`. */
  lemma {:induction false} CommonPrefixTail(path: seq<string>, other: seq<string>, i: nat)
    requires 0 < i <= |path| && i <= |other| && path[..i] == other[..i]
    ensures path[0] == other[0] && path[1..][..i - 1] == other[1..][..i - 1]
  {
    assert path[0] == path[..i][0] && other[0] == other[..i][0];
    assert path[1..][..i - 1] == path[..i][1..] && other[1..][..i - 1] == other[..i][1..];
  }

  /** Saving one path leaves every path that branches off it elsewhere untouched. */
  lemma {:induction false} SaveKeyKeepsOthers(t: Tree, path: seq<string>, other: seq<string>, value: Cell, i: nat)
    requires SaveKey(t, Reverse(path), value).Some?
    requires i < |path| && i < |other| && path[..i] == other[..i] && path[i] != other[i]
    ensures Lookup(SaveKey(t, Reverse(path), value).value, other) == Lookup(t, other)
    decreases i
  {
    SaveKeyUnfold(t, path, value);
    if i > 0 {
      CommonPrefixTail(path, other, i);
      SaveKeyKeepsOthers(ChildAt(t, path[0]), path[1..], other[1..], value, i - 1);
      KeepsOthersBelow(t, path, other, value);
    } else {
      KeepsOthersBeside(t, path, other, value);
    }
  }

  /** A path through the same first segment is kept when it is kept inside that segment's array. */
  lemma {:induction false} KeepsOthersBelow(t: Tree, path: seq<string>, other: seq<string>, value: Cell)
    requires path != [] && |other| >= 2 && other[0] == path[0]
    requires SaveKey(t, Reverse(path), value).Some?
    requires SaveKey(ChildAt(t, path[0]), Reverse(path[1..]), value).Some?
    requires Lookup(SaveKey(ChildAt(t, path[0]), Reverse(path[1..]), value).value, other[1..])
          == Lookup(ChildAt(t, path[0]), other[1..])
    ensures Lookup(SaveKey(t, Reverse(path), value).value, other) == Lookup(t, other)
  {
    SaveKeyUnfold(t, path, value);
    LookupThroughChild(t, other);
    var ch := if t.Node? then t.children else map[];
    var c := SaveKey(ChildAt(t, path[0]), Reverse(path[1..]), value).value;
    assert Lookup(Node(ch[path[0] := c]), other) == Lookup(c, other[1..]);
  }

  /** A path through another first segment is untouched. */
  lemma {:induction false} KeepsOthersBeside(t: Tree, path: seq<string>, other: seq<string>, value: Cell)
    requires path != [] && other != [] && other[0] != path[0]
    requires SaveKey(t, Reverse(path), value).Some?
    ensures Lookup(SaveKey(t, Reverse(path), value).value, other) == Lookup(t, other)
  {
    SaveKeyUnfold(t, path, value);
  }

  /** What `parse` computes: the entries saved one after another, in order. */
  function ParseOf(data: Dict<Cell>): Option<Tree> {
    if data == [] then Some(Node(map[]))
    else
      var last := data[|data| - 1];
      match ParseOf(data[..|data| - 1])
      case None => None
      case Some(t) => SaveKey(t, Reverse(Explode(last.0, ".")), last.1)
  }

  method Parse(data: Dict<Cell>) returns (r: Option<Tree>)
    ensures r == ParseOf(data)
  {
    var ret := Node(map[]);
    for i := 0 to |data|
      invariant ParseOf(data[..i]) == Some(ret)
    {
      assert data[..i + 1][..i] == data[..i];
      var newKey := Reverse(Explode(data[i].0, "."));
      var saved := SaveKey(ret, newKey, data[i].1);
      if saved.None? {
        assert ParseOf(data[..i + 1]) == None;
        ParseStaysUnmodelled(data, i + 1);
        return None;
      }
      ret := saved.value;
    }
    assert data[..|data|] == data;
    return Some(ret);
  }

  lemma {:induction false} ParseStaysUnmodelled(data: Dict<Cell>, n: nat)
    requires n <= |data| && ParseOf(data[..n]) == None
    ensures ParseOf(data) == None
    decreases |data| - n
  {
    if n < |data| {
      assert data[..n + 1][..n] == data[..n];
      ParseStaysUnmodelled(data, n + 1);
    } else {
      assert data[..n] == data;
    }
  }

  /** After parsing, the last entry's value sits at the path its dotted key spells. */
  lemma {:induction false} ParseLastEntry(data: Dict<Cell>)
    requires data != [] && ParseOf(data).Some?
    ensures Lookup(ParseOf(data).value, Explode(data[|data| - 1].0, ".")) == Some(Leaf(data[|data| - 1].1))
  {
    var last := data[|data| - 1];
    SaveKeyPlaces(ParseOf(data[..|data| - 1]).value, Explode(last.0, "."), last.1);
  }

  /** A key without a dot is stored at the top level as a leaf, overwriting whatever was there. */
  lemma {:induction false} DotlessKeyAtTopLevel(t: Tree, key: string, value: Cell)
    requires t.Node? && !Contains(key, ".")
    ensures SaveKey(t, Reverse(Explode(key, ".")), value) == Some(Node(t.children[key := Leaf(value)]))
  {
    assert Explode(key, ".") == [key];
    assert Reverse([key]) == [key];
  }

  /** Inserting `foo.baz` after `foo.bar`: the existing `foo` array is reused, so `foo.bar` survives. */
  lemma {:induction false} SiblingKeysShareTheirParent(parent: string, first: string, second: string, a: Cell, b: Cell)
    requires !Contains(parent, ".") && !Contains(first, ".") && !Contains(second, ".")
    requires first != second
    ensures ParseOf([(parent + "." + first, a), (parent + "." + second, b)]) ==
      Some(Node(map[parent := Node(map[first := Leaf(a), second := Leaf(b)])]))
  {
    TwoSegments(parent, first);
    TwoSegments(parent, second);
    var d := [(parent + "." + first, a), (parent + "." + second, b)];
    assert d[..1] == [(parent + "." + first, a)] && d[..1][..0] == [];
    var one := Node(map[first := Leaf(a)]);
    assert SaveKey(Node(map[]), [first], a) == Some(one);
    assert SaveKey(Node(map[]), [first, parent], a) == Some(Node(map[parent := one]));
    assert ParseOf(d[..1]) == Some(Node(map[parent := one]));
    var both := Node(map[first := Leaf(a), second := Leaf(b)]);
    assert SaveKey(one, [second], b) == Some(both) by {
      assert [second][..0] == [];
      assert !IsSet(one.children, second);
    }
    assert [second, parent][..1] == [second];
    assert IsSet(map[parent := one], parent);
    assert map[parent := one][parent := both] == map[parent := both];
    assert SaveKey(Node(map[parent := one]), [second, parent], b) == Some(Node(map[parent := both]));
  }

  lemma {:induction false} TwoSegments(x: string, y: string)
    requires !Contains(x, ".") && !Contains(y, ".")
    ensures Reverse(Explode(x + "." + y, ".")) == [y, x]
  {
    WithoutChar(y, '.');
    ExplodeCons(x, '.', y);
    assert x + "." + y == x + ['.'] + y;
    assert Reverse([x, y]) == [y, x];
  }

  /** `readConfigTable`: the rows of `sys.c-<component>.<table>`, mapped by `name`/`value` and nested. */
  method ReadConfigTable(componentName: string, tableName: string, readTable: string -> seq<Row>)
    returns (tableId: string, config: Option<Tree>)
    ensures tableId == "sys.c-" + componentName + "." + tableName
    ensures config == ParseOf(KeyValueMapOf(readTable(tableId), "name", "value"))
  {
    tableId := ConfigTableId(componentName, tableName);
    var m := KeyValueMap(readTable(tableId), "name", "value");
    config := Parse(m);
  }
}
