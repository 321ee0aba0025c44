/**
 * The PHP string functions the core depends on, written out: `trim`,
 * `explode`, `implode`, `str_replace`, `stripos` (ASCII case folding) and
 * substring search.
 */
module Strings {
  import opened Optional

  /** The characters PHP's `trim()` strips by default: " \t\n\r\0\x0B". */
  predicate IsSpace(c: char) {
    c == ' ' || c == '\t' || c == '\n' || c == '\r' || c as int == 0 || c as int == 11
  }

  predicate AllSpace(s: string) {
    forall i :: 0 <= i < |s| ==> IsSpace(s[i])
  }

  /** `ltrim`: drops leading whitespace. */
  function TrimStart(s: string): (r: string)
    ensures |r| <= |s|
  {
    if s != [] && IsSpace(s[0]) then TrimStart(s[1..]) else s
  }

  /** `rtrim`: drops trailing whitespace. */
  function TrimEnd(s: string): (r: string)
    ensures |r| <= |s|
  {
    if s != [] && IsSpace(s[|s| - 1]) then TrimEnd(s[..|s| - 1]) else s
  }

  /** `trim`: strips whitespace at both ends. */
  function Trim(s: string): string {
    TrimEnd(TrimStart(s))
  }

  /** No whitespace at either end. */
  predicate Trimmed(s: string) {
    s == [] || (!IsSpace(s[0]) && !IsSpace(s[|s| - 1]))
  }

  /** What `ltrim` keeps: the suffix after the leading whitespace, which does not start with whitespace. */
  lemma {:induction false} TrimStartMeaning(s: string)
    ensures var r := TrimStart(s);
      && r == s[|s| - |r|..]
      && (forall i :: 0 <= i < |s| - |r| ==> IsSpace(s[i]))
      && (r == [] || !IsSpace(r[0]))
    decreases |s|
  {
    if s != [] && IsSpace(s[0]) {
      TrimStartMeaning(s[1..]);
      var r := TrimStart(s);
      assert s[1..][|s| - 1 - |r|..] == s[|s| - |r|..];
    }
  }

  /** What `rtrim` keeps: the prefix before the trailing whitespace, which does not end with whitespace. */
  lemma {:induction false} TrimEndMeaning(s: string)
    ensures var r := TrimEnd(s);
      && r == s[..|r|]
      && (forall i :: |r| <= i < |s| ==> IsSpace(s[i]))
      && (r == [] || !IsSpace(r[|r| - 1]))
    decreases |s|
  {
    if s != [] && IsSpace(s[|s| - 1]) {
      TrimEndMeaning(s[..|s| - 1]);
      var r := TrimEnd(s);
      assert s[..|s| - 1][..|r|] == s[..|r|];
    }
  }

  /**
   * What trimming keeps: a slice of `s` between two all-whitespace ends,
   * neither starting nor ending with whitespace.
   */
  lemma {:induction false} TrimMeaning(s: string)
    ensures var r := Trim(s); var lead := |s| - |TrimStart(s)|;
      && lead + |r| <= |s| && r == s[lead..lead + |r|]
      && (forall i :: 0 <= i < lead ==> IsSpace(s[i]))
      && (forall i :: lead + |r| <= i < |s| ==> IsSpace(s[i]))
      && Trimmed(r)
  {
    var t := TrimStart(s);
    var r := TrimEnd(t);
    var lead := |s| - |t|;
    TrimStartMeaning(s);
    TrimEndMeaning(t);
    PrefixOfSuffix(s, lead, |r|);
    forall i | lead + |r| <= i < |s| ensures IsSpace(s[i]) {
      assert s[i] == t[i - lead];
    }
  }

  lemma {:induction false} PrefixOfSuffix(s: string, k: nat, n: nat)
    requires k + n <= |s|
    ensures s[k..][..n] == s[k..k + n]
  {
  }

  /** Whatever `trim` returns has no whitespace at either end. */
  lemma {:induction false} TrimIsTrimmed(s: string)
    ensures Trimmed(Trim(s))
  {
    TrimMeaning(s);
  }

  /** Trimming is characterised by its two properties: whatever is cut is whitespace, and what is kept has no whitespace at either end. */
  lemma {:induction false} TrimUnique(a: string, m: string, b: string)
    requires AllSpace(a) && AllSpace(b)
    requires m == [] || (!IsSpace(m[0]) && !IsSpace(m[|m| - 1]))
    ensures Trim(a + m + b) == m
  {
    var s := a + m + b;
    assert s == a + (m + b);
    if m == [] {
      assert m + b == b;
      TrimStartDrops(a, b);
      AllSpaceTrimStart(b);
      assert TrimStart(s) == [];
    } else {
      TrimStartDrops(a, m + b);
      assert TrimStart(m + b) == m + b;
      TrimEndDrops(m, b);
    }
  }

  lemma {:induction false} AllSpaceTrimStart(s: string)
    requires AllSpace(s)
    ensures TrimStart(s) == []
    decreases |s|
  {
    if s != [] {
      assert AllSpace(s[1..]) by {
        forall i | 0 <= i < |s| - 1 ensures IsSpace(s[1..][i]) {
          assert s[1..][i] == s[i + 1];
        }
      }
      AllSpaceTrimStart(s[1..]);
    }
  }

  lemma {:induction false} TrimStartDrops(a: string, t: string)
    requires AllSpace(a)
    requires t == [] || !IsSpace(t[0]) || AllSpace(t)
    ensures TrimStart(a + t) == TrimStart(t)
    decreases |a|
  {
    if a == [] {
      assert a + t == t;
    } else {
      assert (a + t)[1..] == a[1..] + t;
      TrimStartDrops(a[1..], t);
    }
  }

  lemma {:induction false} TrimEndDrops(m: string, b: string)
    requires AllSpace(b)
    requires m == [] || !IsSpace(m[|m| - 1])
    ensures TrimEnd(m + b) == m
    decreases |b|
  {
    if b == [] {
      assert m + b == m;
    } else {
      assert (m + b)[..|m + b| - 1] == m + b[..|b| - 1];
      TrimEndDrops(m, b[..|b| - 1]);
    }
  }

  /** Trimming twice is trimming once. */
  lemma {:induction false} TrimIdempotent(s: string)
    ensures Trim(Trim(s)) == Trim(s)
  {
    var r := Trim(s);
    TrimMeaning(s);
    assert [] + r + [] == r;
    TrimUnique([], r, []);
  }

  /** ASCII lower-casing of one character (PHP's locale-independent `strtolower`). */
  function LowerChar(c: char): char {
    if 'A' <= c <= 'Z' then (c as int + 32) as char else c
  }

  function Lower(s: string): (r: string)
    ensures |r| == |s|
    ensures forall i :: 0 <= i < |s| ==> r[i] == LowerChar(s[i])
  {
    if s == [] then [] else [LowerChar(s[0])] + Lower(s[1..])
  }

  /** Lower-casing twice is lower-casing once. */
  lemma {:induction false} LowerIdempotent(s: string)
    ensures Lower(Lower(s)) == Lower(s)
  {
    assert forall i :: 0 <= i < |s| ==> LowerChar(LowerChar(s[i])) == LowerChar(s[i]);
  }

  /** `t` occurs in `s` starting at index `i`. */
  predicate OccursAt(s: string, t: string, i: nat) {
    i + |t| <= |s| && s[i..i + |t|] == t
  }

  /** The index of the leftmost occurrence of `t` in `s` (`strpos`). */
  function Find(s: string, t: string): (r: Option<nat>)
    ensures r.Some? ==> OccursAt(s, t, r.value) && forall j :: 0 <= j < r.value ==> !OccursAt(s, t, j)
    ensures r.None? ==> forall j :: 0 <= j <= |s| ==> !OccursAt(s, t, j)
    decreases |s|
  {
    if OccursAt(s, t, 0) then Some(0)
    else if s == [] then None
    else
      var r := Find(s[1..], t);
      ShiftOccurrence(s, t);
      match r
      case None => None
      case Some(j) => Some(j + 1)
  }

  lemma {:induction false} ShiftOccurrence(s: string, t: string)
    requires s != []
    ensures forall j: nat :: 1 <= j ==> (OccursAt(s, t, j) <==> OccursAt(s[1..], t, j - 1))
  {
    forall j: nat | 1 <= j ensures OccursAt(s, t, j) <==> OccursAt(s[1..], t, j - 1) {
      if j + |t| <= |s| {
        assert s[1..][j - 1..j - 1 + |t|] == s[j..j + |t|];
      }
    }
  }

  /** The leftmost occurrence is the only occurrence with none before it. */
  lemma {:induction false} FindLeftmost(s: string, t: string, i: nat)
    requires OccursAt(s, t, i)
    requires forall j :: 0 <= j < i ==> !OccursAt(s, t, j)
    ensures Find(s, t) == Some(i)
  {
  }

  /** When no character of `h` starts `t`, the leftmost `t` in `h + t + d` is the one right after `h`. */
  lemma {:induction false} FindAfterPrefix(h: string, t: string, d: string)
    requires t != [] && forall i :: 0 <= i < |h| ==> h[i] != t[0]
    ensures Find(h + t + d, t) == Some(|h|)
    ensures (h + t + d)[..|h|] == h && (h + t + d)[|h| + |t|..] == d
  {
    var s := h + t + d;
    forall j | 0 <= j < |h| ensures !OccursAt(s, t, j) {
      if j + |t| <= |s| {
        assert s[j..j + |t|][0] == s[j] == h[j];
      }
    }
    assert s[|h|..|h| + |t|] == t;
    FindLeftmost(s, t, |h|);
  }

  /** `strpos($s, $t) !== false`. */
  predicate Contains(s: string, t: string) {
    Find(s, t).Some?
  }

  /** `stripos($s, $t) !== false`, with ASCII case folding. */
  predicate ContainsIgnoreCase(s: string, t: string) {
    Contains(Lower(s), Lower(t))
  }

  /** `implode($sep, $pieces)`. */
  function Join(pieces: seq<string>, sep: string): string {
    if |pieces| == 0 then ""
    else if |pieces| == 1 then pieces[0]
    else pieces[0] + sep + Join(pieces[1..], sep)
  }

  /** Each piece followed by `t`, as a loop appending `piece . t` builds it. */
  function Terminated(pieces: seq<string>, t: string): string {
    if pieces == [] then "" else pieces[0] + t + Terminated(pieces[1..], t)
  }

  /** Terminating every piece is joining the pieces and terminating the last one. */
  lemma {:induction false} JoinTerminated(pieces: seq<string>, t: string)
    requires pieces != []
    ensures Join(pieces, t) + t == Terminated(pieces, t)
  {
    if |pieces| > 1 {
      JoinTerminated(pieces[1..], t);
    }
  }

  /** `explode($sep, $s)`: splits at every occurrence of `sep`, scanning left to right; there is always at least one piece. */
  function Explode(s: string, sep: string): (r: seq<string>)
    requires sep != ""
    ensures |r| >= 1
    decreases |s|
  {
    match Find(s, sep)
    case None => [s]
    case Some(i) => [s[..i]] + Explode(s[i + |sep|..], sep)
  }

  /** One step of the split: the piece before the leftmost separator, then the split of the rest. */
  lemma {:induction false} ExplodeAt(s: string, sep: string, i: nat)
    requires sep != "" && Find(s, sep) == Some(i)
    ensures Explode(s, sep) == [s[..i]] + Explode(s[i + |sep|..], sep)
  {
  }

  /** Joining the pieces with `sep` gives back `s`, and no piece contains `sep`. */
  lemma {:induction false} ExplodeMeaning(s: string, sep: string)
    requires sep != ""
    ensures Join(Explode(s, sep), sep) == s
    ensures forall k :: 0 <= k < |Explode(s, sep)| ==> !Contains(Explode(s, sep)[k], sep)
    decreases |s|
  {
    match Find(s, sep)
    case None =>
    case Some(i) =>
      var rest := s[i + |sep|..];
      var e := Explode(rest, sep);
      ExplodeMeaning(rest, sep);
      PrefixBeforeFirst(s, sep, i);
      ExplodeAt(s, sep, i);
      JoinCons(s[..i], e, sep);
      SplitAround(s, sep, i);
      var ex := Explode(s, sep);
      forall k | 0 <= k < |ex| ensures !Contains(ex[k], sep) {
        if k > 0 {
          assert ex[k] == e[k - 1];
        }
      }
  }

  /** An occurrence cuts `s` into the part before it, the separator and the part after it. */
  lemma {:induction false} SplitAround(s: string, sep: string, i: nat)
    requires OccursAt(s, sep, i)
    ensures s == s[..i] + sep + s[i + |sep|..]
  {
    assert s == s[..i] + s[i..i + |sep|] + s[i + |sep|..];
  }

  lemma {:induction false} PrefixBeforeFirst(s: string, sep: string, i: nat)
    requires sep != ""
    requires Find(s, sep) == Some(i)
    ensures !Contains(s[..i], sep)
  {
    var p := s[..i];
    forall j | 0 <= j <= |p| && OccursAt(p, sep, j) ensures j < i && OccursAt(s, sep, j) {
      SliceOfPrefix(s, i, j, |sep|);
    }
  }

  lemma {:induction false} SliceOfPrefix(s: string, i: nat, j: nat, n: nat)
    requires j + n <= i <= |s|
    ensures s[..i][j..j + n] == s[j..j + n]
  {
  }

  /** Splitting a line at its first separator: the piece count is two exactly when the separator occurs once more never. */
  lemma {:induction false} ExplodeTwo(s: string, sep: string)
    requires sep != ""
    ensures |Explode(s, sep)| == 2 <==>
      (Find(s, sep).Some? && !Contains(s[Find(s, sep).value + |sep|..], sep))
    ensures |Explode(s, sep)| == 2 ==>
      var i := Find(s, sep).value;
      Explode(s, sep) == [s[..i], s[i + |sep|..]]
  {
    match Find(s, sep)
    case None =>
      ExplodeNone(s, sep);
      assert |Explode(s, sep)| == 1;
    case Some(i) =>
      ExplodeTwoAt(s, sep, i);
      var rest := s[Find(s, sep).value + |sep|..];
      assert rest == s[i + |sep|..];
      assert |Explode(s, sep)| == 2 <==> !Contains(rest, sep);
  }

  lemma {:induction false} ExplodeTwoAt(s: string, sep: string, i: nat)
    requires sep != "" && Find(s, sep) == Some(i)
    ensures |Explode(s, sep)| == 2 <==> !Contains(s[i + |sep|..], sep)
    ensures |Explode(s, sep)| == 2 ==> Explode(s, sep) == [s[..i], s[i + |sep|..]]
  {
    match Find(s[i + |sep|..], sep)
    case None =>
      ExplodeOnce(s, sep, i);
    case Some(j) =>
      ExplodeTwice(s, sep, i, j);
  }

  lemma {:induction false} ExplodeOnce(s: string, sep: string, i: nat)
    requires sep != "" && Find(s, sep) == Some(i) && Find(s[i + |sep|..], sep).None?
    ensures Explode(s, sep) == [s[..i], s[i + |sep|..]]
  {
    ExplodeAt(s, sep, i);
    ExplodeNone(s[i + |sep|..], sep);
  }

  lemma {:induction false} ExplodeTwice(s: string, sep: string, i: nat, j: nat)
    requires sep != "" && Find(s, sep) == Some(i) && Find(s[i + |sep|..], sep) == Some(j)
    ensures |Explode(s, sep)| >= 3
  {
    var rest := s[i + |sep|..];
    ExplodeAt(s, sep, i);
    ExplodeAt(rest, sep, j);
    assert |Explode(rest, sep)| >= 2;
  }

  lemma {:induction false} ExplodeNone(s: string, sep: string)
    requires sep != "" && Find(s, sep).None?
    ensures Explode(s, sep) == [s]
  {
  }

  /** Splitting at a separator that the first part does not contain peels that part off. */
  lemma {:induction false} ExplodeCons(a: string, c: char, b: string)
    requires !Contains(a, [c])
    ensures Explode(a + [c] + b, [c]) == [a] + Explode(b, [c])
  {
    var s := a + [c] + b;
    assert OccursAt(s, [c], |a|);
    forall j | 0 <= j < |a| ensures !OccursAt(s, [c], j) {
      if OccursAt(s, [c], j) {
        assert a[j..j + 1] == s[j..j + 1];
        assert OccursAt(a, [c], j);
      }
    }
    FindLeftmost(s, [c], |a|);
    assert s[..|a|] == a;
    assert s[|a| + 1..] == b;
  }

  /** Three pieces joined at a one-character separator none of them contains split back into those three. */
  lemma {:induction false} ExplodeThree(a: string, b: string, d: string, c: char)
    requires !Contains(a, [c]) && !Contains(b, [c]) && !Contains(d, [c])
    ensures Explode(a + [c] + b + [c] + d, [c]) == [a, b, d]
  {
    var rest := b + [c] + d;
    assert a + [c] + b + [c] + d == a + [c] + rest;
    ExplodeCons(a, c, rest);
    ExplodeCons(b, c, d);
    WithoutChar(d, c);
  }

  /** Splitting what was joined at a one-character separator gives back the pieces, when none contains it. */
  lemma {:induction false} ExplodeJoin(pieces: seq<string>, c: char)
    requires pieces != []
    requires forall k :: 0 <= k < |pieces| ==> !Contains(pieces[k], [c])
    ensures Explode(Join(pieces, [c]), [c]) == pieces
  {
    if |pieces| == 1 {
      WithoutChar(pieces[0], c);
    } else {
      ExplodeJoin(pieces[1..], c);
      ExplodeCons(pieces[0], c, Join(pieces[1..], [c]));
      assert pieces == [pieces[0]] + pieces[1..];
    }
  }

  /** A string has no occurrence of a one-character separator exactly when none of its characters is it. */
  lemma {:induction false} WithoutChar(s: string, c: char)
    ensures !Contains(s, [c]) <==> forall i :: 0 <= i < |s| ==> s[i] != c
    ensures !Contains(s, [c]) ==> Explode(s, [c]) == [s]
  {
    forall i | 0 <= i < |s| ensures OccursAt(s, [c], i) <==> s[i] == c {
      assert s[i..i + 1] == [s[i]];
    }
  }

  /** Trimming cannot bring in a character the string did not have. */
  lemma {:induction false} TrimKeepsAbsence(s: string, c: char)
    requires !Contains(s, [c])
    ensures !Contains(Trim(s), [c])
  {
    WithoutChar(s, c);
    TrimMeaning(s);
    var r := Trim(s);
    var lead := |s| - |TrimStart(s)|;
    assert forall i :: 0 <= i < |r| ==> r[i] == s[lead + i];
    WithoutChar(r, c);
  }

  /**
   * `str_replace($search, $rep, $s)` for one search string: each occurrence,
   * found scanning left to right, is replaced; an empty search string leaves
   * `s` unchanged.
   */
  function StrReplace(s: string, search: string, rep: string): string
    decreases |s|
  {
    if search == "" then s
    else if OccursAt(s, search, 0) then rep + StrReplace(s[|search|..], search, rep)
    else if s == "" then ""
    else [s[0]] + StrReplace(s[1..], search, rep)
  }

  /** Replacing is splitting at every occurrence and joining with the replacement. */
  lemma {:induction false} StrReplaceIsExplodeJoin(s: string, search: string, rep: string)
    requires search != ""
    ensures StrReplace(s, search, rep) == Join(Explode(s, search), rep)
    decreases |s|
  {
    if OccursAt(s, search, 0) {
      StrReplaceIsExplodeJoin(s[|search|..], search, rep);
      ReplaceAtOccurrence(s, search, rep);
    } else if s == "" {
      ExplodeNone(s, search);
    } else {
      StrReplaceIsExplodeJoin(s[1..], search, rep);
      ReplaceAtCharacter(s, search, rep);
    }
  }

  /** The step of `StrReplaceIsExplodeJoin` where an occurrence starts the string. */
  lemma {:induction false} ReplaceAtOccurrence(s: string, search: string, rep: string)
    requires search != "" && OccursAt(s, search, 0)
    requires StrReplace(s[|search|..], search, rep) == Join(Explode(s[|search|..], search), rep)
    ensures StrReplace(s, search, rep) == Join(Explode(s, search), rep)
  {
    var rest := s[|search|..];
    FindLeftmost(s, search, 0);
    ExplodeAt(s, search, 0);
    assert s[..0] == "";
    JoinCons("", Explode(rest, search), rep);
    assert "" + rep == rep;
  }

  /** The step of `StrReplaceIsExplodeJoin` where the first character is kept. */
  lemma {:induction false} ReplaceAtCharacter(s: string, search: string, rep: string)
    requires search != "" && s != "" && !OccursAt(s, search, 0)
    requires StrReplace(s[1..], search, rep) == Join(Explode(s[1..], search), rep)
    ensures StrReplace(s, search, rep) == Join(Explode(s, search), rep)
  {
    ExplodeHead(s, search);
    var e := Explode(s[1..], search);
    JoinHead([s[0]], e[0], e[1..], rep);
    assert e == [e[0]] + e[1..];
  }

  lemma {:induction false} JoinCons(p: string, t: seq<string>, sep: string)
    requires t != []
    ensures Join([p] + t, sep) == p + sep + Join(t, sep)
  {
    assert ([p] + t)[1..] == t;
  }

  lemma {:induction false} JoinHead(a: string, p: string, t: seq<string>, sep: string)
    ensures Join([a + p] + t, sep) == a + Join([p] + t, sep)
  {
    assert ([a + p] + t)[1..] == t;
    assert ([p] + t)[1..] == t;
  }

  /** When no occurrence starts at the first character, the first piece simply grows by that character. */
  lemma {:induction false} ExplodeHead(s: string, sep: string)
    requires sep != "" && s != [] && !OccursAt(s, sep, 0)
    ensures var e := Explode(s[1..], sep);
      Explode(s, sep) == [[s[0]] + e[0]] + e[1..]
  {
    match Find(s[1..], sep)
    case None => ExplodeHeadNone(s, sep);
    case Some(j) => ExplodeHeadSome(s, sep, j);
  }

  lemma {:induction false} ExplodeHeadNone(s: string, sep: string)
    requires sep != "" && s != [] && !OccursAt(s, sep, 0)
    requires Find(s[1..], sep).None?
    ensures Explode(s, sep) == [[s[0]] + s[1..]] && Explode(s[1..], sep) == [s[1..]]
  {
    assert Find(s, sep).None?;
    assert [s[0]] + s[1..] == s;
  }

  lemma {:induction false} ExplodeHeadSome(s: string, sep: string, j: nat)
    requires sep != "" && s != [] && !OccursAt(s, sep, 0)
    requires Find(s[1..], sep) == Some(j)
    ensures var e := Explode(s[1..], sep);
      Explode(s, sep) == [[s[0]] + e[0]] + e[1..]
  {
    var t := s[1..];
    FindStep(s, sep, j);
    ExplodeAt(t, sep, j);
    ExplodeAtShifted(s, sep, j);
    HeadSlice(s, j);
    GlueHead(Explode(s, sep), Explode(t, sep), s[0], t[..j], Explode(t[j + |sep|..], sep));
  }

  lemma {:induction false} HeadSlice(s: string, j: nat)
    requires j + 1 <= |s|
    ensures s[..j + 1] == [s[0]] + s[1..][..j]
  {
  }

  lemma {:induction false} FindStep(s: string, sep: string, j: nat)
    requires s != [] && !OccursAt(s, sep, 0) && Find(s[1..], sep) == Some(j)
    ensures Find(s, sep) == Some(j + 1)
  {
  }

  lemma {:induction false} GlueHead(ex: seq<string>, e: seq<string>, c: char, p: string, rest: seq<string>)
    requires ex == [[c] + p] + rest && e == [p] + rest
    ensures ex == [[c] + e[0]] + e[1..]
  {
    assert e[1..] == rest;
  }

  /** `ExplodeAt` for an occurrence past the first character, with the rest spelled through `s[1..]`. */
  lemma {:induction false} ExplodeAtShifted(s: string, sep: string, j: nat)
    requires sep != "" && s != [] && Find(s, sep) == Some(j + 1)
    ensures Explode(s, sep) == [s[..j + 1]] + Explode(s[1..][j + |sep|..], sep)
  {
    ExplodeAt(s, sep, j + 1);
    assert s[1..][j + |sep|..] == s[j + 1 + |sep|..];
  }
}
