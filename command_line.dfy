/**
  The pieces of panache's command-line handling that belong to the style
  engine: parsing `--style-var key:value` arguments and accumulating them
  into the template variables, and turning resolved parameters into pandoc
  arguments.
*/
module CommandLine {
  import opened Wrappers
  import opened Yaml
  import opened Resolution
  import opened StyleRecord

  /** The exit code of the `PanacheException` raised for a malformed style variable. */
  const InvalidStyleVarCode := 104

  /** The `PanacheException` for a malformed `--style-var` argument: the argument and the exit code. */
  datatype StyleVarError = InvalidStyleVar(entry: string, code: int)

  // ---------------------------------------------------------------------------
  // `^([a-z_]+):(.*)$`

  predicate IsKeyChar(c: char) {
    ('a' <= c <= 'z') || c == '_'
  }

  /** What `[a-z_]+` accepts. */
  predicate ValidKey(k: string) {
    k != [] && forall i :: 0 <= i < |k| ==> IsKeyChar(k[i])
  }

  /** The length of the longest prefix of key characters. */
  function KeyPrefixLength(s: string): (n: nat)
    ensures n <= |s|
    ensures forall i :: 0 <= i < n ==> IsKeyChar(s[i])
    ensures n < |s| ==> !IsKeyChar(s[n])
  {
    if s == [] || !IsKeyChar(s[0]) then 0 else 1 + KeyPrefixLength(s[1..])
  }

  /**
    The two groups of the match, or `None` when the pattern does not match.
    `.` stops at a newline and `$` also matches before a final newline, so
    the value is the rest of the string, without one trailing newline, and
    holds no other newline.
  */
  function ParseStyleVar(s: string): Option<(string, string)> {
    var n := KeyPrefixLength(s);
    if n == 0 || n == |s| || s[n] != ':' then None
    else
      var rest := s[n + 1..];
      if '\n' !in rest then Some((s[..n], rest))
      else if rest[|rest| - 1] == '\n' && '\n' !in rest[..|rest| - 1] then Some((s[..n], rest[..|rest| - 1]))
      else None
  }

  lemma {:induction false} KeyPrefixOfFormatted(k: string, tail: string)
    requires forall i :: 0 <= i < |k| ==> IsKeyChar(k[i])
    requires tail != [] && tail[0] == ':'
    ensures KeyPrefixLength(k + tail) == |k|
  {
    if k == [] {
      assert k + tail == tail;
    } else {
      assert (k + tail)[1..] == k[1..] + tail;
      assert (k + tail)[0] == k[0];
      KeyPrefixOfFormatted(k[1..], tail);
    }
  }

  /** `key:value`, with or without a final newline, parses back to its key and value. */
  lemma ParseFormatted(k: string, v: string)
    requires ValidKey(k) && '\n' !in v
    ensures ParseStyleVar(k + ":" + v) == Some((k, v))
    ensures ParseStyleVar(k + ":" + v + "\n") == Some((k, v))
  {
    var s1, s2 := k + ":" + v, k + ":" + v + "\n";
    assert s1 == k + (":" + v) && s2 == k + (":" + v + "\n");
    KeyPrefixOfFormatted(k, ":" + v);
    KeyPrefixOfFormatted(k, ":" + v + "\n");
    assert s1[..|k|] == k && s1[|k|] == ':' && s1[|k| + 1..] == v;
    assert s2[..|k|] == k && s2[|k|] == ':' && s2[|k| + 1..] == v + "\n";
    var rest := v + "\n";
    assert rest[..|rest| - 1] == v;
  }

  /** Whatever parses is `key:value` with a valid key and a one-line value, possibly followed by a newline. */
  lemma ParseSound(s: string)
    requires ParseStyleVar(s).Some?
    ensures var k, v := ParseStyleVar(s).value.0, ParseStyleVar(s).value.1;
      && ValidKey(k) && '\n' !in v
      && (s == k + ":" + v || s == k + ":" + v + "\n")
  {
    var n := KeyPrefixLength(s);
    assert 0 < n < |s| && s[n] == ':';
    var rest := s[n + 1..];
    KeyPrefixValid(s, n);
    if '\n' in rest {
      var v := rest[..|rest| - 1];
      assert ParseStyleVar(s) == Some((s[..n], v));
      ColonForm(s, n, v, "\n");
    } else {
      assert ParseStyleVar(s) == Some((s[..n], rest));
      ColonForm(s, n, rest, "");
      assert rest + "" == rest;
    }
  }

  /** A string cut at its colon is the key, the colon and what follows. */
  lemma ColonForm(s: string, n: nat, v: string, suffix: string)
    requires n < |s| && s[n] == ':' && s[n + 1..] == v + suffix
    ensures s == s[..n] + ":" + v + suffix
  {
    assert s == s[..n] + [s[n]] + s[n + 1..];
  }

  lemma KeyPrefixValid(s: string, n: nat)
    requires n == KeyPrefixLength(s) && n > 0
    ensures ValidKey(s[..n])
  {
    forall i | 0 <= i < n ensures IsKeyChar(s[..n][i]) {
      assert s[..n][i] == s[i];
    }
  }

  // ---------------------------------------------------------------------------
  // Accumulating the style variables given on the command line

  /**
    What a repeated key does to an entry that is already a list:
    `src/panache.py` appends to the stored list; `panache/panache.py`
    appends to a copy that is thrown away, so the stored list is unchanged.
  */
  datatype ListAppend = AppendInPlace | AppendToCopy

  /** One iteration of the loop: a new key gets the string, a repeated key turns or extends the entry into a list. */
  function AddStyleVar(vars: Dict, key: string, value: string, mode: ListAppend): Dict {
    match Lookup(vars, key)
    case None => SetItem(vars, key, Str(value))
    case Some(prev) =>
      if prev.List? then
        if mode == AppendInPlace then SetItem(vars, key, List(prev.items + [Str(value)])) else vars
      else SetItem(vars, key, List([prev, Str(value)]))
  }

  /** The loop over `options.style_vars`; a malformed entry aborts it, with that entry. */
  function StyleVarsSpec(vars: Dict, given: seq<string>, mode: ListAppend): Result<Dict, StyleVarError>
    decreases |given|
  {
    if given == [] then Success(vars)
    else
      match ParseStyleVar(given[0])
      case None => Failure(InvalidStyleVar(given[0], InvalidStyleVarCode))
      case Some((k, v)) => StyleVarsSpec(AddStyleVar(vars, k, v, mode), given[1..], mode)
  }

  /** The style-variable loop of `parse_cmdline`. */
  method AddStyleVars(vars: Dict, given: seq<string>, mode: ListAppend) returns (r: Result<Dict, StyleVarError>)
    ensures r == StyleVarsSpec(vars, given, mode)
  {
    var styleVars := vars;
    var i := 0;
    while i < |given|
      invariant 0 <= i <= |given|
      invariant StyleVarsSpec(styleVars, given[i..], mode) == StyleVarsSpec(vars, given, mode)
    {
      assert given[i..][1..] == given[i + 1..];
      var parsed := ParseStyleVar(given[i]);
      if parsed.None? {
        return Failure(InvalidStyleVar(given[i], InvalidStyleVarCode));
      }
      var (key, value) := parsed.value;
      styleVars := AddStyleVar(styleVars, key, value, mode);
      i := i + 1;
    }
    return Success(styleVars);
  }

  predicate AllValid(given: seq<string>) {
    forall i :: 0 <= i < |given| ==> ParseStyleVar(given[i]).Some?
  }

  /** The loop fails exactly when some entry is malformed, and then reports the first malformed entry with code 104. */
  lemma {:induction false} StyleVarsFailure(vars: Dict, given: seq<string>, mode: ListAppend)
    ensures StyleVarsSpec(vars, given, mode).Success? <==> AllValid(given)
    ensures StyleVarsSpec(vars, given, mode).Failure? ==>
      exists i :: 0 <= i < |given| && StyleVarsSpec(vars, given, mode).error == InvalidStyleVar(given[i], 104)
                && ParseStyleVar(given[i]).None? && AllValid(given[..i])
    decreases |given|
  {
    if given != [] {
      match ParseStyleVar(given[0]) {
        case None =>
          assert given[..0] == [];
        case Some((k, v)) =>
          var next := AddStyleVar(vars, k, v, mode);
          StyleVarsFailure(next, given[1..], mode);
          assert AllValid(given) <==> AllValid(given[1..]) by {
            forall i | 0 <= i < |given[1..]| ensures given[1..][i] == given[i + 1] {
            }
          }
          if StyleVarsSpec(next, given[1..], mode).Failure? {
            var i :| 0 <= i < |given[1..]| && StyleVarsSpec(next, given[1..], mode).error == InvalidStyleVar(given[1..][i], 104)
                     && ParseStyleVar(given[1..][i]).None? && AllValid(given[1..][..i]);
            FirstInvalidShift(given, i);
          }
      }
    }
  }

  /** A first malformed entry of the tail is, one place further on, the first of the whole list. */
  lemma FirstInvalidShift(given: seq<string>, i: int)
    requires given != [] && ParseStyleVar(given[0]).Some?
    requires 0 <= i < |given| - 1 && AllValid(given[1..][..i])
    ensures given[i + 1] == given[1..][i] && AllValid(given[..i + 1])
  {
    var pre := given[..i + 1];
    assert pre[1..] == given[1..][..i];
    forall j | 0 <= j < |pre| ensures ParseStyleVar(pre[j]).Some? {
      if j > 0 {
        assert pre[j] == given[1..][..i][j - 1];
      }
    }
  }

  /** With no malformed entry the loop never fails. */
  lemma ValidSucceeds(vars: Dict, given: seq<string>, mode: ListAppend)
    requires AllValid(given)
    ensures StyleVarsSpec(vars, given, mode).Success?
  {
    StyleVarsFailure(vars, given, mode);
  }

  /** The values given for `key`, in command-line order. */
  function ValuesFor(given: seq<string>, key: string): seq<Value>
    requires AllValid(given)
  {
    if given == [] then []
    else
      assert forall i :: 0 <= i < |given[1..]| ==> given[1..][i] == given[i + 1];
      var rest := ValuesFor(given[1..], key);
      var (k, v) := ParseStyleVar(given[0]).value;
      if k == key then [Str(v)] + rest else rest
  }

  lemma ValidTail(given: seq<string>)
    requires AllValid(given) && given != []
    ensures AllValid(given[1..])
  {
    assert forall i :: 0 <= i < |given[1..]| ==> given[1..][i] == given[i + 1];
  }

  /** A key no entry names keeps its entry, present or not. */
  lemma {:induction false} StyleVarsUntouched(vars: Dict, given: seq<string>, key: string, mode: ListAppend)
    requires AllValid(given) && ValuesFor(given, key) == []
    ensures StyleVarsSpec(vars, given, mode).Success?
    ensures Lookup(StyleVarsSpec(vars, given, mode).value, key) == Lookup(vars, key)
    decreases |given|
  {
    ValidSucceeds(vars, given, mode);
    if given != [] {
      ValidTail(given);
      var (k, v) := ParseStyleVar(given[0]).value;
      StyleVarsUntouched(AddStyleVar(vars, k, v, mode), given[1..], key, mode);
    }
  }

  /** One turn of the loop, seen from the entry of `key`. */
  lemma StyleVarsStep(vars: Dict, given: seq<string>, key: string, mode: ListAppend)
    requires AllValid(given) && given != []
    ensures AllValid(given[1..])
    ensures var (k, v) := ParseStyleVar(given[0]).value;
      && StyleVarsSpec(vars, given, mode) == StyleVarsSpec(AddStyleVar(vars, k, v, mode), given[1..], mode)
      && ValuesFor(given, key) == (if k == key then [Str(v)] else []) + ValuesFor(given[1..], key)
      && Lookup(AddStyleVar(vars, k, v, mode), key) == if k != key then Lookup(vars, key) else
           match Lookup(vars, key)
           case None => Some(Str(v))
           case Some(prev) =>
             if !prev.List? then Some(List([prev, Str(v)]))
             else if mode == AppendInPlace then Some(List(prev.items + [Str(v)]))
             else Some(prev)
  {
    ValidTail(given);
  }

  /**
    An entry that is already a list: `src/panache.py` appends every value
    given for it, in order; in `panache/panache.py` it never changes.
  */
  lemma {:induction false} StyleVarsOnList(vars: Dict, given: seq<string>, key: string, mode: ListAppend, xs: seq<Value>)
    requires AllValid(given) && Lookup(vars, key) == Some(List(xs))
    ensures StyleVarsSpec(vars, given, mode).Success?
    ensures Lookup(StyleVarsSpec(vars, given, mode).value, key)
         == Some(List(if mode == AppendInPlace then xs + ValuesFor(given, key) else xs))
    decreases |given|
  {
    if given == [] {
      assert xs + [] == xs;
    } else {
      StyleVarsStep(vars, given, key, mode);
      var p := ParseStyleVar(given[0]).value;
      var k, v := p.0, p.1;
      var rest := ValuesFor(given[1..], key);
      var next := AddStyleVar(vars, k, v, mode);
      var xs' := if k == key && mode == AppendInPlace then xs + [Str(v)] else xs;
      ListEntryStep(vars, k, v, key, mode, xs);
      StyleVarsOnList(next, given[1..], key, mode, xs');
      ListThenMore(xs, xs', v, k == key, mode, rest, ValuesFor(given, key),
                   Lookup(StyleVarsSpec(next, given[1..], mode).value, key));
    }
  }

  /** The list entry after the rest of the loop, in terms of all values given. */
  lemma ListThenMore(xs: seq<Value>, xs': seq<Value>, v: string, hit: bool, mode: ListAppend,
                     rest: seq<Value>, vals: seq<Value>, entry: Option<Value>)
    requires vals == (if hit then [Str(v)] else []) + rest
    requires xs' == if hit && mode == AppendInPlace then xs + [Str(v)] else xs
    requires entry == Some(List(if mode == AppendInPlace then xs' + rest else xs'))
    ensures entry == Some(List(if mode == AppendInPlace then xs + vals else xs))
  {
    if mode == AppendInPlace {
      if hit {
        assert xs' + rest == xs + vals by {
          assert vals == [Str(v)] + rest && xs' == xs + [Str(v)];
        }
      } else {
        assert vals == rest && xs' == xs;
      }
    }
  }

  /** One turn of the loop on an entry that is already a list. */
  lemma ListEntryStep(vars: Dict, k: string, v: string, key: string, mode: ListAppend, xs: seq<Value>)
    requires Lookup(vars, key) == Some(List(xs))
    ensures Lookup(AddStyleVar(vars, k, v, mode), key)
         == Some(List(if k == key && mode == AppendInPlace then xs + [Str(v)] else xs))
  {
  }

  /**
    An entry holding a single value `x`, given more values: `src/panache.py`
    makes it the list of `x` and all of them; `panache/panache.py` the list
    of `x` and the first of them only.
  */
  lemma {:induction false} StyleVarsOnScalar(vars: Dict, given: seq<string>, key: string, mode: ListAppend)
    requires AllValid(given) && ValuesFor(given, key) != []
    requires Lookup(vars, key).Some? && !Lookup(vars, key).value.List?
    ensures StyleVarsSpec(vars, given, mode).Success?
    ensures var x, vals := Lookup(vars, key).value, ValuesFor(given, key);
      Lookup(StyleVarsSpec(vars, given, mode).value, key)
        == Some(List(if mode == AppendInPlace then [x] + vals else [x, vals[0]]))
    decreases |given|
  {
    StyleVarsStep(vars, given, key, mode);
    var p := ParseStyleVar(given[0]).value;
    var k, v := p.0, p.1;
    var next := AddStyleVar(vars, k, v, mode);
    var x := Lookup(vars, key).value;
    if k == key {
      StyleVarsOnList(next, given[1..], key, mode, [x, Str(v)]);
      ScalarThenList(x, v, ValuesFor(given[1..], key), ValuesFor(given, key), mode,
                     Lookup(StyleVarsSpec(next, given[1..], mode).value, key));
    } else {
      StyleVarsOnScalar(next, given[1..], key, mode);
    }
  }

  /** The entry once the scalar has become the list `[x, v]`, in terms of all values given. */
  lemma ScalarThenList(x: Value, v: string, rest: seq<Value>, vals: seq<Value>, mode: ListAppend, entry: Option<Value>)
    requires vals == [Str(v)] + rest
    requires entry == Some(List(if mode == AppendInPlace then [x, Str(v)] + rest else [x, Str(v)]))
    ensures entry == Some(List(if mode == AppendInPlace then [x] + vals else [x, vals[0]]))
  {
    assert [x, Str(v)] + rest == [x] + vals;
  }

  /**
    A key not yet present: one value is stored as a string; several become
    the list of all of them in `src/panache.py`, of the first two in
    `panache/panache.py`.
  */
  lemma {:induction false} StyleVarsOnAbsent(vars: Dict, given: seq<string>, key: string, mode: ListAppend)
    requires AllValid(given) && ValuesFor(given, key) != []
    requires Lookup(vars, key).None?
    ensures StyleVarsSpec(vars, given, mode).Success?
    ensures var vals := ValuesFor(given, key);
      Lookup(StyleVarsSpec(vars, given, mode).value, key)
        == if |vals| == 1 then Some(vals[0])
           else Some(List(if mode == AppendInPlace then vals else vals[..2]))
    decreases |given|
  {
    ValidSucceeds(vars, given, mode);
    ValidTail(given);
    var (k, v) := ParseStyleVar(given[0]).value;
    var next := AddStyleVar(vars, k, v, mode);
    var rest := ValuesFor(given[1..], key);
    if k == key {
      if rest == [] {
        StyleVarsUntouched(next, given[1..], key, mode);
      } else {
        StyleVarsOnScalar(next, given[1..], key, mode);
        assert ValuesFor(given, key) == [Str(v)] + rest;
        assert ValuesFor(given, key)[..2] == [Str(v), rest[0]];
      }
    } else {
      StyleVarsOnAbsent(next, given[1..], key, mode);
    }
  }

  // ---------------------------------------------------------------------------
  // Pandoc arguments from resolved parameters

  /** The argument for one option: a true flag is `--key`, a false flag nothing, any other value `--key=value`. */
  function OptionArg(key: string, value: Value): seq<string> {
    if value.Bool? then (if value.b then ["--" + key] else [])
    else ["--" + key + "=" + Render(value)]
  }

  /** The option arguments, in the order of the resolved `commandline` dict. */
  function OptionArgs(d: Dict): seq<string> {
    if d == [] then [] else OptionArg(d[0].0, d[0].1) + OptionArgs(d[1..])
  }

  function FilterArg(f: Value): string {
    "--filter=" + Render(f)
  }

  /** The filter arguments, in the order of the resolved filter list. */
  function FilterArgs(filters: seq<Value>): (r: seq<string>)
    ensures |r| == |filters| && forall i :: 0 <= i < |filters| ==> r[i] == FilterArg(filters[i])
  {
    if filters == [] then [] else [FilterArg(filters[0])] + FilterArgs(filters[1..])
  }

  /** The loop of `compile_command_line` over the resolved options. */
  method AppendOptionArgs(command: seq<string>, d: Dict) returns (r: seq<string>)
    ensures r == command + OptionArgs(d)
  {
    r := command;
    var i := 0;
    while i < |d|
      invariant 0 <= i <= |d|
      invariant r + OptionArgs(d[i..]) == command + OptionArgs(d)
    {
      assert d[i..][1..] == d[i + 1..];
      var arg := OptionArg(d[i].0, d[i].1);
      assert OptionArgs(d[i..]) == arg + OptionArgs(d[i + 1..]);
      r := r + arg;
      i := i + 1;
    }
    assert d[|d|..] == [];
  }

  /** The loop of `compile_command_line` over the resolved filters. */
  method AppendFilterArgs(command: seq<string>, filters: seq<Value>) returns (r: seq<string>)
    ensures r == command + FilterArgs(filters)
  {
    r := command;
    for j := 0 to |filters|
      invariant r == command + FilterArgs(filters[..j])
    {
      assert filters[..j + 1] == filters[..j] + [filters[j]];
      FilterArgsAppend(filters[..j], filters[j]);
      r := r + [FilterArg(filters[j])];
    }
    assert filters[..|filters|] == filters;
  }

  lemma FilterArgsAppend(fs: seq<Value>, f: Value)
    ensures FilterArgs(fs + [f]) == FilterArgs(fs) + [FilterArg(f)]
  {
  }

  predicate NoEquals(k: string) {
    '=' !in k
  }

  lemma DashDashInjective(a: string, b: string, r: string)
    ensures "--" + a == "--" + b ==> a == b
    ensures "--" + a == "--" + b + "=" + r ==> !NoEquals(a)
  {
    if "--" + a == "--" + b {
      assert a == ("--" + a)[2..];
    }
    if "--" + a == "--" + b + "=" + r {
      assert a == ("--" + a)[2..] == b + "=" + r;
      assert a[|b|] == '=';
    }
  }

  /**
    For option names without `=`: the bare flag `--key` is on the command
    line exactly when the resolved option is `true`.
  */
  lemma {:induction false} FlagIffTrue(d: Dict, key: string)
    requires IsDict(d) && NoEquals(key)
    ensures ("--" + key in OptionArgs(d)) <==> Lookup(d, key) == Some(Bool(true))
  {
    if d != [] {
      DictTail(d);
      var (k0, v0) := d[0];
      FlagIffTrue(d[1..], key);
      DashDashInjective(key, k0, Render(v0));
      assert OptionArgs(d) == OptionArg(k0, v0) + OptionArgs(d[1..]);
      if k0 == key {
        assert Lookup(d[1..], key).None?;
      }
    }
  }

  /** A non-boolean option appears as `--key=value`, its value rendered with `str()`. */
  lemma {:induction false} ValuedOptionPresent(d: Dict, key: string)
    requires Lookup(d, key).Some? && !Lookup(d, key).value.Bool?
    ensures "--" + key + "=" + Render(Lookup(d, key).value) in OptionArgs(d)
  {
    if d[0].0 != key {
      ValuedOptionPresent(d[1..], key);
    }
  }

  // ---------------------------------------------------------------------------
  // Choosing the style

  /** The options the style engine reads; an option that was not given is the empty string. */
  datatype Options = Options(output: string, medium: string, style: string)

  /**
    The medium-to-style lookup in the document's `styles_` mapping: `None`
    when any of the guards fails, the mapped value otherwise, or the
    exception raised on the way.
  */
  function MediumStyle(options: Options, inputYaml: Value): Result<Option<Value>, PyError> {
    if !Truthy(inputYaml) || options.medium == "" then Success(None)
    else
      var hasStyles :- Contains(inputYaml, Str(STYLES));
      if !hasStyles then Success(None)
      else
        var table :- Index(inputYaml, Str(STYLES));
        var hasMedium :- Contains(table, Str(options.medium));
        if !hasMedium then Success(None)
        else
          var style :- Index(table, Str(options.medium));
          Success(Some(style))
  }

  /** A document whose `styles_` mapping names the medium yields the mapped style. */
  lemma MediumStyleMapped(options: Options, doc: Dict, table: Dict)
    requires options.medium != "" && Lookup(doc, STYLES) == Some(Map(table))
    requires options.medium in Keys(table)
    ensures MediumStyle(options, Map(doc)) == Success(Some(Lookup(table, options.medium).value))
  {
  }

  /** A document without `styles_`, or whose mapping does not name the medium, yields nothing. */
  lemma MediumStyleUnmapped(options: Options, doc: Dict)
    requires Lookup(doc, STYLES).None? || (Lookup(doc, STYLES).Some? && Lookup(doc, STYLES).value.Map?
                                           && options.medium !in Keys(Lookup(doc, STYLES).value.entries))
    ensures MediumStyle(options, Map(doc)) == Success(None)
  {
  }
}
