/**
  Values produced by the YAML loader and the few Python operations the style
  engine applies to them: truthiness, `in`, subscription, iteration, `str()`
  and the dictionary copy-and-update of `merge_two_dicts`.

  A Python dict is an association list (`Dict`), so that its insertion order,
  which decides the order of the generated command line, is kept.
*/
module Yaml {
  import opened Wrappers

  datatype Value =
    | Null
    | Bool(b: bool)
    | Int(i: int)
    | Str(s: string)
    | List(items: seq<Value>)
    | Map(entries: seq<(string, Value)>)

  type Dict = seq<(string, Value)>

  /** The Python exceptions the modelled code can raise. */
  datatype PyError =
    | TypeError
    | KeyError
    | IndexError
    | AssertionError
    | YamlError      // any failure of reading, rendering or parsing a file other than a YAML ScannerError
    | NonStringName  // a style name that is not a string (see README, "Left out")

  /** Python's `bool(v)`. */
  predicate Truthy(v: Value) {
    match v
    case Null => false
    case Bool(b) => b
    case Int(i) => i != 0
    case Str(s) => s != ""
    case List(xs) => xs != []
    case Map(m) => m != []
  }

  /** Lists and dicts cannot be dictionary keys. */
  predicate Hashable(v: Value) {
    !v.List? && !v.Map?
  }

  // ---------------------------------------------------------------------------
  // Dictionaries

  function Keys(d: Dict): seq<string> {
    if d == [] then [] else [d[0].0] + Keys(d[1..])
  }

  lemma KeysLength(d: Dict)
    ensures |Keys(d)| == |d|
    ensures forall i :: 0 <= i < |d| ==> Keys(d)[i] == d[i].0
  {
    if d != [] {
      KeysLength(d[1..]);
    }
  }

  predicate Distinct(ks: seq<string>) {
    forall i, j :: 0 <= i < j < |ks| ==> ks[i] != ks[j]
  }

  /** A dict as Python has it: no key twice. */
  predicate IsDict(d: Dict) {
    Distinct(Keys(d))
  }

  /** `d.get(k)`. */
  function Lookup(d: Dict, k: string): (r: Option<Value>)
    ensures r.Some? <==> k in Keys(d)
  {
    if d == [] then None
    else if d[0].0 == k then Some(d[0].1)
    else Lookup(d[1..], k)
  }

  /** `d[k] = v`: an existing key keeps its place, a new key goes last. */
  function SetItem(d: Dict, k: string, v: Value): (r: Dict)
    ensures Keys(r) == if k in Keys(d) then Keys(d) else Keys(d) + [k]
    ensures forall j :: Lookup(r, j) == if j == k then Some(v) else Lookup(d, j)
  {
    if d == [] then [(k, v)]
    else if d[0].0 == k then [(k, v)] + d[1..]
    else [d[0]] + SetItem(d[1..], k, v)
  }

  /** `merge_two_dicts(x, y)`: a copy of `x` updated with `y`, entry by entry. */
  function Merge(x: Dict, y: Dict): Dict
    decreases |y|
  {
    if y == [] then x else Merge(SetItem(x, y[0].0, y[0].1), y[1..])
  }

  /** The keys of `ys` that are not in `xs`, in the order of `ys`. */
  function KeysNotIn(ys: seq<string>, xs: seq<string>): seq<string> {
    if ys == [] then []
    else if ys[0] in xs then KeysNotIn(ys[1..], xs)
    else [ys[0]] + KeysNotIn(ys[1..], xs)
  }

  /** A dict without its first entry is a dict that lacks the first key. */
  lemma DictTail(y: Dict)
    requires IsDict(y) && y != []
    ensures Keys(y) == [y[0].0] + Keys(y[1..])
    ensures IsDict(y[1..]) && y[0].0 !in Keys(y[1..])
  {
    var ks, ts := Keys(y), Keys(y[1..]);
    assert ks == [y[0].0] + ts;
    forall i, j | 0 <= i < j < |ts| ensures ts[i] != ts[j] {
      assert ts[i] == ks[i + 1] && ts[j] == ks[j + 1];
    }
    forall j | 0 <= j < |ts| ensures ts[j] != y[0].0 {
      assert ts[j] == ks[j + 1] && ks[0] == y[0].0;
    }
  }

  /** After the merge the second dict wins on every key it has; the first supplies the rest. */
  lemma {:induction false} MergeLookup(x: Dict, y: Dict, k: string)
    requires IsDict(y)
    ensures Lookup(Merge(x, y), k) == if k in Keys(y) then Lookup(y, k) else Lookup(x, k)
    decreases |y|
  {
    if y != [] {
      DictTail(y);
      MergeLookup(SetItem(x, y[0].0, y[0].1), y[1..], k);
    }
  }

  lemma KeysNotInAppend(ys: seq<string>, xs: seq<string>, a: string)
    requires a !in ys
    ensures KeysNotIn(ys, xs + [a]) == KeysNotIn(ys, xs)
  {
    if ys != [] {
      assert (ys[0] in xs + [a]) == (ys[0] in xs);
      KeysNotInAppend(ys[1..], xs, a);
    }
  }

  /** The merged dict keeps the first dict's key order and appends the second's new keys in their order. */
  lemma {:induction false} MergeKeys(x: Dict, y: Dict)
    requires IsDict(y)
    ensures Keys(Merge(x, y)) == Keys(x) + KeysNotIn(Keys(y), Keys(x))
    decreases |y|
  {
    if y != [] {
      var k, ys := y[0].0, Keys(y[1..]);
      var x' := SetItem(x, k, y[0].1);
      DictTail(y);
      MergeKeys(x', y[1..]);
      MergeKeysStep(Keys(x), k, ys, Keys(x'), Keys(Merge(x', y[1..])));
    }
  }

  /** The key lists of one merge step: `k` is appended unless present, and then skipped. */
  lemma MergeKeysStep(kx: seq<string>, k: string, ys: seq<string>, kx': seq<string>, merged: seq<string>)
    requires k !in ys
    requires kx' == if k in kx then kx else kx + [k]
    requires merged == kx' + KeysNotIn(ys, kx')
    ensures merged == kx + KeysNotIn([k] + ys, kx)
  {
    KeysNotInCons(k, ys, kx);
    if k in kx {
      assert merged == kx + KeysNotIn(ys, kx);
    } else {
      MergeKeysNewKey(kx, k, ys, merged);
    }
  }

  lemma MergeKeysNewKey(kx: seq<string>, k: string, ys: seq<string>, merged: seq<string>)
    requires k !in ys && merged == (kx + [k]) + KeysNotIn(ys, kx + [k])
    ensures merged == kx + ([k] + KeysNotIn(ys, kx))
  {
    KeysNotInAppend(ys, kx, k);
  }

  lemma KeysNotInCons(k: string, ys: seq<string>, xs: seq<string>)
    ensures KeysNotIn([k] + ys, xs) == if k in xs then KeysNotIn(ys, xs) else [k] + KeysNotIn(ys, xs)
  {
    assert ([k] + ys)[0] == k && ([k] + ys)[1..] == ys;
  }

  /** Merging never introduces a duplicate key. */
  lemma {:induction false} MergeIsDict(x: Dict, y: Dict)
    requires IsDict(x)
    ensures IsDict(Merge(x, y))
    decreases |y|
  {
    if y != [] {
      var x' := SetItem(x, y[0].0, y[0].1);
      assert IsDict(x') by {
        if y[0].0 !in Keys(x) {
          var ks := Keys(x) + [y[0].0];
          forall i, j | 0 <= i < j < |ks| ensures ks[i] != ks[j] {
            if j == |ks| - 1 {
              assert ks[i] in Keys(x);
            } else {
              assert ks[i] == Keys(x)[i] && ks[j] == Keys(x)[j];
            }
          }
        }
      }
      MergeIsDict(x', y[1..]);
    }
  }

  /** A copy of the empty dict updated with `y` is `y` itself. */
  lemma {:induction false} MergeIntoEmpty(y: Dict)
    requires IsDict(y)
    ensures Merge([], y) == y
  {
    MergeFromPrefix(y, 0);
  }

  lemma {:induction false} MergeFromPrefix(y: Dict, n: nat)
    requires IsDict(y) && n <= |y|
    ensures Merge(y[..n], y[n..]) == y
    decreases |y| - n
  {
    if n < |y| {
      KeysLength(y);
      KeysLength(y[..n]);
      forall i | 0 <= i < n ensures Keys(y[..n])[i] != y[n].0 {
        assert Keys(y)[i] == y[i].0;
      }
      SetItemNewKey(y[..n], y[n].0, y[n].1);
      assert y[..n] + [y[n]] == y[..n + 1];
      assert y[n..][1..] == y[n + 1..];
      MergeFromPrefix(y, n + 1);
    } else {
      assert y[..n] == y;
    }
  }

  lemma {:induction false} SetItemNewKey(d: Dict, k: string, v: Value)
    requires k !in Keys(d)
    ensures SetItem(d, k, v) == d + [(k, v)]
  {
    if d != [] {
      SetItemNewKey(d[1..], k, v);
    }
  }

  // ---------------------------------------------------------------------------
  // Python's `in`, subscription and iteration on parsed values

  function IsPrefix(p: string, s: string): bool {
    |p| <= |s| && s[..|p|] == p
  }

  /** Python's `p in s` on strings. */
  function IsSubstring(p: string, s: string): bool {
    IsPrefix(p, s) || (s != [] && IsSubstring(p, s[1..]))
  }

  /** `key in container`. */
  function Contains(container: Value, key: Value): Result<bool, PyError> {
    match container
    case Map(m) =>
      if !Hashable(key) then Failure(TypeError) else Success(key.Str? && key.s in Keys(m))
    case List(xs) => Success(key in xs)
    case Str(s) => if key.Str? then Success(IsSubstring(key.s, s)) else Failure(TypeError)
    case _ => Failure(TypeError)
  }

  /** The position a Python sequence subscription `xs[key]` reads, for a sequence of length `n`. */
  function Position(key: Value, n: nat): (r: Result<nat, PyError>)
    ensures r.Success? ==> r.value < n
    ensures !key.Int? && !key.Bool? ==> r == Failure(TypeError)
    ensures key.Int? && 0 <= key.i < n ==> r == Success(key.i)
    ensures key.Int? && -(n as int) <= key.i < 0 ==> r == Success(key.i + n)
    ensures key.Int? && !(-(n as int) <= key.i < n) ==> r == Failure(IndexError)
    ensures key.Bool? ==> r == if key.b then (if 1 < n then Success(1) else Failure(IndexError))
                               else (if 0 < n then Success(0) else Failure(IndexError))
  {
    match key
    case Int(i) => IntPosition(i, n)
    case Bool(b) => IntPosition(if b then 1 else 0, n)
    case _ => Failure(TypeError)
  }

  /** A negative index counts from the end. */
  function IntPosition(i: int, n: nat): (r: Result<nat, PyError>)
    ensures r.Success? ==> r.value < n && (r.value == i || r.value == i + n)
    ensures r.Success? <==> -(n as int) <= i < n
    ensures r.Failure? ==> r.error == IndexError
  {
    if 0 <= i < n then Success(i)
    else if -(n as int) <= i < 0 then Success(i + n)
    else Failure(IndexError)
  }

  /** `container[key]`. */
  function Index(container: Value, key: Value): Result<Value, PyError> {
    match container
    case Map(m) =>
      if !Hashable(key) then Failure(TypeError)
      else if key.Str? && key.s in Keys(m) then Success(Lookup(m, key.s).value)
      else Failure(KeyError)
    case List(xs) =>
      var p :- Position(key, |xs|);
      Success(xs[p])
    case Str(s) =>
      var p :- Position(key, |s|);
      Success(Str([s[p]]))
    case _ => Failure(TypeError)
  }

  /** `for x in v`: a dict yields its keys, a list its items, a string its characters. */
  function Iterate(v: Value): Result<seq<Value>, PyError> {
    match v
    case Map(m) => Success(seq(|m|, i requires 0 <= i < |m| => Str(m[i].0)))
    case List(xs) => Success(xs)
    case Str(s) => Success(seq(|s|, i requires 0 <= i < |s| => Str([s[i]])))
    case _ => Failure(TypeError)
  }

  // ---------------------------------------------------------------------------
  // `'%s' % v`

  function Digit(d: nat): char
    requires d < 10
  {
    "0123456789"[d]
  }

  function NatToString(n: nat): string {
    if n < 10 then [Digit(n)] else NatToString(n / 10) + [Digit(n % 10)]
  }

  function IntToString(i: int): string {
    if i < 0 then "-" + NatToString(-i) else NatToString(i)
  }

  function Join(parts: seq<string>): string {
    if |parts| == 0 then ""
    else if |parts| == 1 then parts[0]
    else parts[0] + ", " + Join(parts[1..])
  }

  /** `repr(v)`; strings are quoted with `'` and not escaped. */
  function Repr(v: Value): string {
    match v
    case Null => "None"
    case Bool(b) => if b then "True" else "False"
    case Int(i) => IntToString(i)
    case Str(s) => "'" + s + "'"
    case List(xs) => "[" + Join(seq(|xs|, i requires 0 <= i < |xs| => Repr(xs[i]))) + "]"
    case Map(m) => "{" + Join(seq(|m|, i requires 0 <= i < |m| => "'" + m[i].0 + "': " + Repr(m[i].1))) + "}"
  }

  /** `str(v)`, what `'%s' % v` inserts. */
  function Render(v: Value): string {
    if v.Str? then v.s else Repr(v)
  }
}
