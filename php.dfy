/**
 * PHP values as the configuration decoders (YAML, JSON) hand them to the
 * bundle, together with the handful of language rules the code relies on:
 * `empty()`, truthiness, `isset()` on nested array lookups, `is_array()`,
 * string conversion, and the exceptions the code throws.
 */
module Php {
  import opened Optional
  import opened OrderedMap
  import opened Strings

  /**
   * A PHP value. Arrays keep their insertion order; integer keys are stored
   * in their decimal form, so a YAML list `[a, b]` is `Arr([("0", a), ("1", b)])`.
   * Floats and objects are not modelled.
   */
  datatype Value =
    | Null
    | Bool(b: bool)
    | Int(i: int)
    | Str(s: string)
    | Arr(entries: seq<(string, Value)>)

  /** The exceptions thrown by the core, each with its message. */
  datatype Exception =
    | InvalidArgument(message: string)   // \InvalidArgumentException
    | UserError(message: string)         // Keboola\Syrup\Exception\UserException
    | Runtime(message: string)           // \RuntimeException

  /** The result of an operation that may throw. */
  datatype Result<+T> = Ok(value: T) | Throw(error: Exception)

  /**
   * PHP's `empty()`: null, false, 0, "", "0" and the empty array are empty,
   * everything else is not. This is the single definition the model uses.
   */
  predicate Empty(v: Value) {
    match v
    case Null => true
    case Bool(b) => !b
    case Int(i) => i == 0
    case Str(s) => s == "" || s == "0"
    case Arr(es) => es == []
  }

  /** Truthiness in a condition (and `boolval`): exactly the values that are not empty. */
  predicate Truthy(v: Value) {
    !Empty(v)
  }

  /**
   * `$v[$k]` as read inside `isset()`/`empty()` or after such a check: the
   * stored value, or null when `v` is not an array or has no key `k`. (All
   * keys the core reads are non-numeric, so string offsets never apply.)
   */
  function At(v: Value, k: string): Value {
    match v
    case Arr(es) => (match Get(es, k) case Some(x) => x case None => Null)
    case _ => Null
  }

  /** `isset($v[$k])`: the key is present and its value is not null. */
  predicate IsSet(v: Value, k: string) {
    At(v, k) != Null
  }

  /** `is_array($v)`. */
  predicate IsArray(v: Value) {
    v.Arr?
  }

  /** The values of an array in iteration order, as `foreach ($v as $x)` visits them. */
  function Values(es: seq<(string, Value)>): (r: seq<Value>)
    ensures |r| == |es|
    ensures forall i :: 0 <= i < |es| ==> r[i] == es[i].1
  {
    if es == [] then [] else [es[0].1] + Values(es[1..])
  }

  /** A PHP list: integer keys 0, 1, ... in order. */
  function List(items: seq<Value>): (r: Value)
    ensures r.Arr? && Values(r.entries) == items
  {
    IndexedValues(items, 0);
    Arr(Indexed(items, 0))
  }

  /** The entries of a list whose first index is `from`. */
  function Indexed(items: seq<Value>, from: nat): (es: seq<(string, Value)>)
    ensures |es| == |items|
    decreases |items|
  {
    if items == [] then [] else [(NatToString(from), items[0])] + Indexed(items[1..], from + 1)
  }

  /** A list's values are the items it was built from, and its keys are integer keys. */
  lemma {:induction false} IndexedValues(items: seq<Value>, from: nat)
    ensures Values(Indexed(items, from)) == items
    ensures forall i :: 0 <= i < |items| ==> IsIntKey(Indexed(items, from)[i].0)
    decreases |items|
  {
    if items != [] {
      var es := Indexed(items, from);
      IndexedStep(items, from);
      IndexedValues(items[1..], from + 1);
      ValuesStep(es);
      assert es[1..] == Indexed(items[1..], from + 1);
      NatToStringIsIntKey(from);
      forall i | 0 <= i < |items| ensures IsIntKey(es[i].0) {
        if i > 0 { assert es[i] == Indexed(items[1..], from + 1)[i - 1]; }
      }
    }
  }

  /** Decimal digits of a natural number, most significant first. */
  function NatToString(n: nat): (r: string)
    ensures |r| >= 1
    ensures forall i :: 0 <= i < |r| ==> '0' <= r[i] <= '9'
    decreases n
  {
    var d := [(('0' as int) + n % 10) as char];
    if n < 10 then d else NatToString(n / 10) + d
  }

  /** PHP's decimal rendering of an integer. */
  function IntToString(i: int): string {
    if i < 0 then "-" + NatToString(-i) else NatToString(i)
  }

  /**
   * PHP's conversion of a value to string, as `.` and `trim()` apply it:
   * null and false become "", true becomes "1", an array becomes "Array".
   */
  function ToStr(v: Value): string {
    match v
    case Null => ""
    case Bool(b) => if b then "1" else ""
    case Int(i) => IntToString(i)
    case Str(s) => s
    case Arr(_) => "Array"
  }

  /** A value that is not empty never renders as the empty string. */
  lemma {:induction false} NonEmptyRendersNonEmpty(v: Value)
    requires !Empty(v)
    ensures ToStr(v) != ""
  {
  }

  /**
   * `trim($v)` as PHP 7 evaluates it: an array is refused with a warning and
   * gives null, which every later string use reads as ""; any other value is
   * converted to a string and trimmed.
   */
  function TrimText(v: Value): (r: string)
    ensures IsArray(v) ==> r == ""
    ensures !IsArray(v) ==> r == Trim(ToStr(v))
  {
    if IsArray(v) then "" else Trim(ToStr(v))
  }

  /* ---------------------------------------------------------------- */
  /* array_merge                                                       */
  /* ---------------------------------------------------------------- */

  /** A natural number in canonical decimal: digits only, no leading zero. */
  predicate IsNatText(k: string) {
    |k| >= 1 && (forall i :: 0 <= i < |k| ==> '0' <= k[i] <= '9') && (k[0] != '0' || |k| == 1)
  }

  /** A key PHP stores as an integer: a canonical decimal, possibly negative (but not `-0`). */
  predicate IsIntKey(k: string) {
    IsNatText(k) || (|k| >= 2 && k[0] == '-' && IsNatText(k[1..]) && k[1..] != "0")
  }

  /** The keys `NatToString` produces are integer keys. */
  lemma {:induction false} NatToStringIsIntKey(n: nat)
    ensures IsNatText(NatToString(n)) && IsIntKey(NatToString(n))
    decreases n
  {
    if n >= 10 {
      NatToStringIsIntKey(n / 10);
      var h := NatToString(n / 10);
      assert h[0] != '0' by {
        if h[0] == '0' { NatToStringOfZeroStart(n / 10); }
      }
      assert (h + [(('0' as int) + n % 10) as char])[0] == h[0];
    }
  }

  /** Only zero renders with a leading `0`. */
  lemma {:induction false} NatToStringOfZeroStart(n: nat)
    requires NatToString(n)[0] == '0'
    ensures n == 0
    decreases n
  {
    if n >= 10 {
      var h := NatToString(n / 10);
      assert NatToString(n)[0] == h[0];
      NatToStringOfZeroStart(n / 10);
    }
  }

  /** How many keys of `es` are integer keys. */
  function IntKeyCount(es: seq<(string, Value)>): nat
    decreases |es|
  {
    if es == [] then 0 else (if IsIntKey(es[0].0) then 1 else 0) + IntKeyCount(es[1..])
  }

  /**
   * `array_merge($a, $b)`: the entries of `a`, then those of `b`, in order.
   * An integer key is renumbered to the next index from 0; a string key keeps
   * the place it first had and holds the last value given to it.
   */
  function ArrayMerge(a: seq<(string, Value)>, b: seq<(string, Value)>): seq<(string, Value)> {
    MergeInto(([], 0), a + b).0
  }

  /** The merge state: the array built so far and the next integer index. */
  type MergeState = (seq<(string, Value)>, nat)

  /** One entry of the merge loop. */
  function MergeStep(st: MergeState, e: (string, Value)): MergeState {
    if IsIntKey(e.0) then (st.0 + [(NatToString(st.1), e.1)], st.1 + 1)
    else (Put(st.0, e.0, e.1), st.1)
  }

  /** The merge loop over `es`, from state `st`. */
  function MergeInto(st: MergeState, es: seq<(string, Value)>): MergeState
    decreases |es|
  {
    if es == [] then st else MergeInto(MergeStep(st, es[0]), es[1..])
  }

  /** The last value `es` gives to key `k`, if any. */
  function LastGet(es: seq<(string, Value)>, k: string): Option<Value>
    decreases |es|
  {
    if es == [] then None
    else match LastGet(es[1..], k)
      case Some(v) => Some(v)
      case None => if es[0].0 == k then Some(es[0].1) else None
  }

  /** Appending an entry under another key leaves a lookup unchanged. */
  lemma {:induction false} GetAppendOther(m: seq<(string, Value)>, e: (string, Value), k: string)
    requires e.0 != k
    ensures Get(m + [e], k) == Get(m, k)
    decreases |m|
  {
    if m != [] {
      assert (m + [e])[1..] == m[1..] + [e];
      GetAppendOther(m[1..], e, k);
    } else {
      assert ([] + [e])[1..] == [];
    }
  }

  lemma {:induction false} MergeIntoStep(st: MergeState, es: seq<(string, Value)>)
    requires es != []
    ensures MergeInto(st, es) == MergeInto(MergeStep(st, es[0]), es[1..])
  {
  }

  /** A merge step changes a string key `k` only when the entry is under `k`. */
  lemma {:induction false} MergeStepStringKey(st: MergeState, e: (string, Value), k: string)
    requires !IsIntKey(k)
    ensures Get(MergeStep(st, e).0, k) == if e.0 == k then Some(e.1) else Get(st.0, k)
  {
    if IsIntKey(e.0) {
      NatToStringIsIntKey(st.1);
      GetAppendOther(st.0, (NatToString(st.1), e.1), k);
    }
  }

  /** After merging, a string key holds the last value the merged entries gave it, or else what it held before. */
  lemma {:induction false} MergeIntoStringKey(st: MergeState, es: seq<(string, Value)>, k: string)
    requires !IsIntKey(k)
    ensures Get(MergeInto(st, es).0, k) == if LastGet(es, k).Some? then LastGet(es, k) else Get(st.0, k)
    decreases |es|
  {
    if es != [] {
      MergeIntoStep(st, es);
      MergeStepStringKey(st, es[0], k);
      MergeIntoStringKey(MergeStep(st, es[0]), es[1..], k);
    }
  }

  /** The merge loop counts one index per integer key. */
  lemma {:induction false} MergeIntoCount(st: MergeState, es: seq<(string, Value)>)
    ensures MergeInto(st, es).1 == st.1 + IntKeyCount(es)
    decreases |es|
  {
    if es != [] {
      MergeIntoStep(st, es);
      MergeIntoCount(MergeStep(st, es[0]), es[1..]);
    }
  }

  lemma {:induction false} IndexedStep(s: seq<Value>, n: nat)
    requires s != []
    ensures Indexed(s, n) == [(NatToString(n), s[0])] + Indexed(s[1..], n + 1)
  {
  }

  lemma {:induction false} ValuesStep(es: seq<(string, Value)>)
    requires es != []
    ensures Values(es) == [es[0].1] + Values(es[1..])
  {
  }

  /** Merging a list (integer keys only) appends its values under the next indexes. */
  lemma {:induction false} MergeIntoList(st: MergeState, es: seq<(string, Value)>)
    requires forall i :: 0 <= i < |es| ==> IsIntKey(es[i].0)
    ensures MergeInto(st, es) == (st.0 + Indexed(Values(es), st.1), st.1 + |es|)
    decreases |es|
  {
    if es == [] {
      assert Indexed(Values(es), st.1) == [];
      assert st.0 + [] == st.0;
    } else {
      var x := (NatToString(st.1), es[0].1);
      var rest := es[1..];
      assert IsIntKey(es[0].0);
      forall i | 0 <= i < |rest| ensures IsIntKey(rest[i].0) {
        assert rest[i] == es[i + 1];
      }
      MergeIntoStep(st, es);
      assert MergeStep(st, es[0]) == (st.0 + [x], st.1 + 1);
      MergeIntoList((st.0 + [x], st.1 + 1), rest);
      ValuesStep(es);
      var vs := Values(es);
      IndexedStep(vs, st.1);
      assert vs[1..] == Values(rest);
      assert st.0 + [x] + Indexed(Values(rest), st.1 + 1) == st.0 + ([x] + Indexed(Values(rest), st.1 + 1));
    }
  }

  /** Merging `a + b` is merging `a`, then `b`. */
  lemma {:induction false} MergeIntoSplit(st: MergeState, a: seq<(string, Value)>, b: seq<(string, Value)>)
    ensures MergeInto(st, a + b) == MergeInto(MergeInto(st, a), b)
    decreases |a|
  {
    if a == [] {
      assert a + b == b;
    } else {
      var ab := a + b;
      assert ab[0] == a[0] && ab[1..] == a[1..] + b;
      MergeIntoStep(st, ab);
      MergeIntoStep(st, a);
      MergeIntoSplit(MergeStep(st, a[0]), a[1..], b);
    }
  }

  /** A later list contributes no string key. */
  lemma {:induction false} LastGetPastList(a: seq<(string, Value)>, b: seq<(string, Value)>, k: string)
    requires !IsIntKey(k) && forall i :: 0 <= i < |b| ==> IsIntKey(b[i].0)
    ensures LastGet(a + b, k) == LastGet(a, k)
    decreases |a|
  {
    if a == [] {
      assert a + b == b;
      LastGetOfList(b, k);
    } else {
      assert (a + b)[0] == a[0] && (a + b)[1..] == a[1..] + b;
      LastGetPastList(a[1..], b, k);
    }
  }

  lemma {:induction false} LastGetOfList(b: seq<(string, Value)>, k: string)
    requires !IsIntKey(k) && forall i :: 0 <= i < |b| ==> IsIntKey(b[i].0)
    ensures LastGet(b, k) == None
    decreases |b|
  {
    if b != [] {
      assert forall i :: 0 <= i < |b[1..]| ==> IsIntKey(b[1..][i].0) by {
        forall i | 0 <= i < |b[1..]| ensures IsIntKey(b[1..][i].0) { assert b[1..][i] == b[i + 1]; }
      }
      LastGetOfList(b[1..], k);
      assert b[0].0 != k;
    }
  }

  /** Indexing a concatenation continues the numbering. */
  lemma {:induction false} IndexedAppend(s: seq<Value>, t: seq<Value>, n: nat)
    ensures Indexed(s + t, n) == Indexed(s, n) + Indexed(t, n + |s|)
    decreases |s|
  {
    if s == [] {
      assert s + t == t;
    } else {
      IndexedAppend(s[1..], t, n + 1);
      IndexedAppendStep(s, t, n);
    }
  }

  lemma {:induction false} IndexedAppendStep(s: seq<Value>, t: seq<Value>, n: nat)
    requires s != []
    requires Indexed(s[1..] + t, n + 1) == Indexed(s[1..], n + 1) + Indexed(t, n + |s|)
    ensures Indexed(s + t, n) == Indexed(s, n) + Indexed(t, n + |s|)
  {
    var st := s + t;
    var x := (NatToString(n), s[0]);
    var a := Indexed(s[1..], n + 1);
    var b := Indexed(t, n + |s|);
    assert st[0] == s[0] && st[1..] == s[1..] + t;
    IndexedStep(st, n);
    assert Indexed(st, n) == [x] + (a + b);
    IndexedStep(s, n);
    assert Indexed(s, n) == [x] + a;
    assert [x] + (a + b) == ([x] + a) + b;
  }
}
