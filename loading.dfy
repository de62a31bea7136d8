/**
  Loading the style files of a directory into a registry, as `load` does in
  the three registries, and Python's `sorted` on the globbed paths.

  Reading a file, rendering it as a mustache template and parsing the YAML
  are outside the model: each globbed file comes with the outcome of parsing
  its rendered text. What is modelled is how the outcome is used: the walk
  over the `styledef_` section, the first-definition-wins rule, and what
  happens on each exception, which is where the variants differ.
*/
module Loading {
  import opened Wrappers
  import opened Yaml
  import opened StyleRecord

  /** What `yaml.safe_load` / `yaml.load` made of a file's (rendered) text. */
  datatype ParseOutcome = Parsed(data: Value) | ScannerError | OtherError

  /** A globbed path and the parse of its contents. */
  datatype SourceFile = SourceFile(path: string, parsed: ParseOutcome)

  /** The exit code of the `PanacheException` raised for a YAML scanner error. */
  const YamlSyntaxCode := 200

  datatype LoadError =
    | YamlSyntax(path: string)                 // PanacheException with code 200
    | Uncaught(path: string, error: PyError)   // an exception `load` lets through

  /** The exit code a load error ends the program with: 200 for the YAML syntax error, none for an exception let through. */
  function ExitCode(e: LoadError): Option<int> {
    if e.YamlSyntax? then Some(YamlSyntaxCode) else None
  }

  /** The registry as far as the walk over one file got, and the exception that stopped it, if any. */
  datatype FileOutcome = FileOutcome(styles: Registry, error: Option<PyError>)

  // ---------------------------------------------------------------------------
  // One file

  /**
    One iteration of `for style_name in data[STYLEDEF_]`: a name already in
    the registry is skipped, any other one is added with the style built
    from its record.
  */
  function InsertOne(styles: Registry, path: string, section: Value, name: Value): (r: Result<Registry, PyError>)
    ensures r.Success? ==> forall n :: n in styles ==> n in r.value && r.value[n] == styles[n]
    ensures r.Success? ==> forall n :: n in r.value && n !in styles ==>
      name == Str(n) && r.value[n].name == n && r.value[n].source == path
  {
    if !Hashable(name) then Failure(TypeError)
    else if name.Str? && name.s in styles then Success(styles)
    else
      var data :- Index(section, name);
      if name.Str? then
        var style :- NewStyle(name.s, data, path);
        Success(styles[name.s := style])
      else if !Truthy(name) then Failure(AssertionError)
      else Failure(NonStringName)
  }

  /** The loop over the names of the section, stopping at the first exception. */
  function AddNames(styles: Registry, path: string, section: Value, names: seq<Value>): FileOutcome
    decreases |names|
  {
    if names == [] then FileOutcome(styles, None)
    else
      match InsertOne(styles, path, section, names[0])
      case Failure(e) => FileOutcome(styles, Some(e))
      case Success(next) => AddNames(next, path, section, names[1..])
  }

  /** The body of the per-file `with` block once the data is parsed. */
  function AddStylesSpec(styles: Registry, path: string, data: Value): FileOutcome
  {
    match Contains(data, Str(STYLEDEF))
    case Failure(e) => FileOutcome(styles, Some(e))
    case Success(present) =>
      if !present then FileOutcome(styles, None)
      else
        match Index(data, Str(STYLEDEF))
        case Failure(e) => FileOutcome(styles, Some(e))
        case Success(section) =>
          match Iterate(section)
          case Failure(e) => FileOutcome(styles, Some(e))
          case Success(names) => AddNames(styles, path, section, names)
  }

  /** The walk over one file's section, as a loop that updates the registry name by name. */
  method AddStyles(styles: Registry, path: string, data: Value) returns (result: Registry, error: Option<PyError>)
    ensures FileOutcome(result, error) == AddStylesSpec(styles, path, data)
  {
    result, error := styles, None;
    var present := Contains(data, Str(STYLEDEF));
    if present.Failure? {
      error := Some(present.error);
      return;
    }
    if !present.value {
      return;
    }
    var section := Index(data, Str(STYLEDEF));
    if section.Failure? {
      error := Some(section.error);
      return;
    }
    var names := Iterate(section.value);
    if names.Failure? {
      error := Some(names.error);
      return;
    }
    assert AddStylesSpec(styles, path, data) == AddNames(styles, path, section.value, names.value);
    result, error := InsertNames(styles, path, section.value, names.value);
  }

  /** The loop over the names of the section, stopping at the first exception. */
  method InsertNames(styles: Registry, path: string, section: Value, names: seq<Value>)
    returns (result: Registry, error: Option<PyError>)
    ensures FileOutcome(result, error) == AddNames(styles, path, section, names)
  {
    result, error := styles, None;
    for i := 0 to |names|
      invariant AddNames(result, path, section, names[i..]) == AddNames(styles, path, section, names)
    {
      assert names[i..][0] == names[i] && names[i..][1..] == names[i + 1..];
      var next := InsertOne(result, path, section, names[i]);
      if next.Failure? {
        error := Some(next.error);
        return;
      }
      result := next.value;
    }
    assert names[|names|..] == [];
  }

  // ---------------------------------------------------------------------------
  // Properties of the walk over one file

  /** A file never removes or changes a style that was already loaded: the first definition wins. */
  lemma {:induction false} AddNamesKeeps(styles: Registry, path: string, section: Value, names: seq<Value>)
    ensures var o := AddNames(styles, path, section, names);
      forall n :: n in styles ==> n in o.styles && o.styles[n] == styles[n]
    decreases |names|
  {
    if names != [] {
      var next := InsertOne(styles, path, section, names[0]);
      if next.Success? {
        AddNamesKeeps(next.value, path, section, names[1..]);
      }
    }
  }

  lemma AddStylesKeeps(styles: Registry, path: string, data: Value)
    ensures var o := AddStylesSpec(styles, path, data);
      forall n :: n in styles ==> n in o.styles && o.styles[n] == styles[n]
  {
    var section := Index(data, Str(STYLEDEF));
    if section.Success? && Iterate(section.value).Success? {
      AddNamesKeeps(styles, path, section.value, Iterate(section.value).value);
    }
  }

  /**
    Over the keys of a `styledef_` mapping, when no exception is raised: the
    registry gains exactly the listed names, every name already present keeps
    its style, and every new one gets the style built from its record in this
    file.
  */
  lemma {:induction false} AddNamesFromMapping(styles: Registry, path: string, sec: Dict, names: seq<string>)
    requires forall k :: k in names ==> k in Keys(sec)
    ensures var o := AddNames(styles, path, Map(sec), AsNames(names));
      o.error.None? ==>
        && (forall n :: n in o.styles <==> n in styles || n in names)
        && (forall n :: n in styles ==> o.styles[n] == styles[n])
        && (forall n :: n in names && n !in styles ==>
              NewStyle(n, Lookup(sec, n).value, path) == Success(o.styles[n]))
    decreases |names|
  {
    if names != [] {
      var vs := AsNames(names);
      assert vs[0] == Str(names[0]) && vs[1..] == AsNames(names[1..]);
      var next := InsertOne(styles, path, Map(sec), vs[0]);
      if next.Success? {
        AddNamesFromMapping(next.value, path, sec, names[1..]);
        InsertOneFromMapping(styles, path, sec, names[0]);
        var o := AddNames(next.value, path, Map(sec), vs[1..]);
        if o.error.None? {
          MappingStep(styles, next.value, o.styles, path, sec, names);
        }
      }
    }
  }

  /** The names as the loop sees them: string values. */
  function AsNames(names: seq<string>): (r: seq<Value>)
    ensures |r| == |names| && forall i :: 0 <= i < |r| ==> r[i] == Str(names[i])
  {
    if names == [] then [] else [Str(names[0])] + AsNames(names[1..])
  }

  /** One successful insertion of a key of the mapping. */
  lemma InsertOneFromMapping(styles: Registry, path: string, sec: Dict, name: string)
    requires name in Keys(sec) && InsertOne(styles, path, Map(sec), Str(name)).Success?
    ensures var mid := InsertOne(styles, path, Map(sec), Str(name)).value;
      && (forall n :: n in mid <==> n in styles || n == name)
      && (forall n :: n in styles ==> mid[n] == styles[n])
      && (name !in styles ==> NewStyle(name, Lookup(sec, name).value, path) == Success(mid[name]))
  {
  }

  /** The registry after the first name and after the rest, seen together. */
  lemma MappingStep(styles: Registry, mid: Registry, out: Registry, path: string, sec: Dict, names: seq<string>)
    requires names != [] && forall k :: k in names ==> k in Keys(sec)
    requires forall n :: n in mid <==> n in styles || n == names[0]
    requires forall n :: n in styles ==> mid[n] == styles[n]
    requires names[0] !in styles ==> NewStyle(names[0], Lookup(sec, names[0]).value, path) == Success(mid[names[0]])
    requires forall n :: n in out <==> n in mid || n in names[1..]
    requires forall n :: n in mid ==> out[n] == mid[n]
    requires forall n :: n in names[1..] && n !in mid ==> NewStyle(n, Lookup(sec, n).value, path) == Success(out[n])
    ensures forall n :: n in out <==> n in styles || n in names
    ensures forall n :: n in styles ==> out[n] == styles[n]
    ensures forall n :: n in names && n !in styles ==> NewStyle(n, Lookup(sec, n).value, path) == Success(out[n])
  {
    forall n | n in names ensures n in names[1..] || n == names[0] {
      var j :| 0 <= j < |names| && names[j] == n;
      if j > 0 {
        assert names[1..][j - 1] == n;
      }
    }
    forall n | n in names[1..] ensures n in names {
      var j :| 0 <= j < |names[1..]| && names[1..][j] == n;
      assert names[j + 1] == n;
    }
  }

  /** A style name that is the empty string aborts the walk with the constructor's assertion. */
  lemma EmptyNameRejected(styles: Registry, path: string, sec: Dict)
    requires "" in Keys(sec) && "" !in styles
    ensures AddNames(styles, path, Map(sec), [Str("")]) == FileOutcome(styles, Some(AssertionError))
  {
  }

  // ---------------------------------------------------------------------------
  // Sorting the globbed paths

  /** Python's `<` on strings: a proper prefix sorts first, otherwise the first differing character decides. */
  predicate LexLess(a: string, b: string) {
    b != [] && (a == [] || a[0] < b[0] || (a[0] == b[0] && LexLess(a[1..], b[1..])))
  }

  predicate LexLessEq(a: string, b: string) {
    a == b || LexLess(a, b)
  }

  lemma {:induction false} LexLessIrreflexiveAsym(a: string, b: string)
    ensures !(LexLess(a, b) && LexLess(b, a))
  {
    if a != [] && b != [] && a[0] == b[0] {
      LexLessIrreflexiveAsym(a[1..], b[1..]);
    }
  }

  lemma {:induction false} LexLessTotal(a: string, b: string)
    ensures a == b || LexLess(a, b) || LexLess(b, a)
  {
    if a != [] && b != [] && a[0] == b[0] {
      LexLessTotal(a[1..], b[1..]);
      if a[1..] == b[1..] {
        assert a == [a[0]] + a[1..] && b == [b[0]] + b[1..];
      }
    }
  }

  lemma {:induction false} LexLessTrans(a: string, b: string, c: string)
    requires LexLess(a, b) && LexLess(b, c)
    ensures LexLess(a, c)
  {
    if a != [] && a[0] == b[0] && b[0] == c[0] {
      LexLessTrans(a[1..], b[1..], c[1..]);
    }
  }

  lemma LexLessEqTrans(a: string, b: string, c: string)
    requires LexLessEq(a, b) && LexLessEq(b, c)
    ensures LexLessEq(a, c)
  {
    if LexLess(a, b) && LexLess(b, c) {
      LexLessTrans(a, b, c);
    }
  }

  /** `a` sorts before `b`, strictly or not. */
  predicate Before(a: string, b: string, strict: bool) {
    if strict then LexLess(a, b) else LexLessEq(a, b)
  }

  lemma BeforeTrans(a: string, b: string, c: string, strict: bool)
    requires Before(a, b, strict) && Before(b, c, strict)
    ensures Before(a, c, strict)
  {
    if strict {
      LexLessTrans(a, b, c);
    } else {
      LexLessEqTrans(a, b, c);
    }
  }

  /** Sorted by path; strictly, the paths also increase. */
  predicate Ordered(fs: seq<SourceFile>, strict: bool) {
    forall i, j :: 0 <= i < j < |fs| ==> Before(fs[i].path, fs[j].path, strict)
  }

  /** What `glob` returns: no path twice. */
  predicate DistinctPaths(fs: seq<SourceFile>) {
    forall i, j :: 0 <= i < j < |fs| ==> fs[i].path != fs[j].path
  }

  function Paths(fs: seq<SourceFile>): set<string> {
    set f | f in fs :: f.path
  }

  /** Puts `f` in front of the first entry whose path is not smaller. */
  function InsertByPath(f: SourceFile, fs: seq<SourceFile>): (r: seq<SourceFile>)
    ensures multiset(r) == multiset(fs) + multiset{f}
  {
    if fs == [] || LexLessEq(f.path, fs[0].path) then [f] + fs
    else
      assert fs == [fs[0]] + fs[1..];
      [fs[0]] + InsertByPath(f, fs[1..])
  }

  /** A sorted sequence is its first entry, sorted before every other one, followed by a sorted rest. */
  lemma OrderedTail(fs: seq<SourceFile>, strict: bool)
    requires Ordered(fs, strict) && fs != []
    ensures Ordered(fs[1..], strict)
    ensures forall g :: g in fs[1..] ==> Before(fs[0].path, g.path, strict)
  {
    var tail := fs[1..];
    forall i, j | 0 <= i < j < |tail| ensures Before(tail[i].path, tail[j].path, strict) {
      assert tail[i] == fs[i + 1] && tail[j] == fs[j + 1];
    }
    forall g | g in tail ensures Before(fs[0].path, g.path, strict) {
      var j :| 0 <= j < |tail| && tail[j] == g;
      assert fs[j + 1] == g;
    }
  }

  lemma OrderedCons(x: SourceFile, rest: seq<SourceFile>, strict: bool)
    requires Ordered(rest, strict)
    requires forall g :: g in rest ==> Before(x.path, g.path, strict)
    ensures Ordered([x] + rest, strict)
  {
    var r := [x] + rest;
    forall i, j | 0 <= i < j < |r| ensures Before(r[i].path, r[j].path, strict) {
      assert r[j] == rest[j - 1];
      if i > 0 {
        assert r[i] == rest[i - 1];
      } else {
        assert rest[j - 1] in rest;
      }
    }
  }

  /** Inserting into a sorted sequence keeps it sorted, and strictly so when the path is new. */
  lemma {:induction false} InsertOrdered(f: SourceFile, fs: seq<SourceFile>, strict: bool)
    requires Ordered(fs, strict)
    requires strict ==> f.path !in Paths(fs)
    ensures Ordered(InsertByPath(f, fs), strict)
  {
    if fs == [] {
    } else if LexLessEq(f.path, fs[0].path) {
      InsertFront(f, fs, strict);
    } else {
      LexLessTotal(f.path, fs[0].path);
      var tail := fs[1..];
      OrderedTail(fs, strict);
      assert Paths(tail) <= Paths(fs) by {
        forall g | g in tail ensures g in fs {
        }
      }
      InsertOrdered(f, tail, strict);
      var rest := InsertByPath(f, tail);
      forall g | g in rest ensures Before(fs[0].path, g.path, strict) {
        assert g in multiset(rest);
        if g != f {
          assert g in multiset(tail);
        }
      }
      OrderedCons(fs[0], rest, strict);
    }
  }

  lemma InsertFront(f: SourceFile, fs: seq<SourceFile>, strict: bool)
    requires Ordered(fs, strict) && fs != []
    requires strict ==> f.path !in Paths(fs)
    requires LexLessEq(f.path, fs[0].path)
    ensures Ordered([f] + fs, strict)
  {
    assert fs[0] in fs;
    assert Before(f.path, fs[0].path, strict);
    OrderedTail(fs, strict);
    forall g | g in fs ensures Before(f.path, g.path, strict) {
      if g != fs[0] {
        assert g in fs[1..] by {
          var j :| 0 <= j < |fs| && fs[j] == g;
          assert fs[1..][j - 1] == g;
        }
        BeforeTrans(f.path, fs[0].path, g.path, strict);
      }
    }
    OrderedCons(f, fs, strict);
  }

  /** `sorted(yaml_paths)`: an insertion sort, stable like Python's. */
  function SortByPath(fs: seq<SourceFile>): (r: seq<SourceFile>)
    ensures multiset(r) == multiset(fs)
  {
    if fs == [] then []
    else
      assert fs == [fs[0]] + fs[1..];
      InsertByPath(fs[0], SortByPath(fs[1..]))
  }

  /** The sort orders by path, and strictly so when `glob` returned no path twice. */
  lemma {:induction false} SortOrdered(fs: seq<SourceFile>, strict: bool)
    requires strict ==> DistinctPaths(fs)
    ensures Ordered(SortByPath(fs), strict)
  {
    if fs != [] {
      var tail := fs[1..];
      if strict {
        forall i, j | 0 <= i < j < |tail| ensures tail[i].path != tail[j].path {
          assert tail[i] == fs[i + 1] && tail[j] == fs[j + 1];
        }
      }
      SortOrdered(tail, strict);
      var rest := SortByPath(tail);
      if strict {
        forall g | g in rest ensures g.path != fs[0].path {
          assert g in multiset(tail);
          var j :| 0 <= j < |tail| && tail[j] == g;
          assert fs[j + 1] == g;
        }
      }
      InsertOrdered(fs[0], rest, strict);
    }
  }

  /** The first file of a sorted sequence sorts no later than any file in it. */
  lemma HeadFirst(fs: seq<SourceFile>, x: SourceFile)
    requires Ordered(fs, true) && x in fs
    ensures LexLessEq(fs[0].path, x.path)
  {
    var j :| 0 <= j < |fs| && fs[j] == x;
  }

  /** In a strictly sorted sequence only the first file has the first file's path. */
  lemma HeadPathUnique(fs: seq<SourceFile>, k: int)
    requires Ordered(fs, true) && 0 <= k < |fs| && fs[k].path == fs[0].path
    ensures k == 0
  {
    LexLessIrreflexiveAsym(fs[0].path, fs[0].path);
  }

  /** Two strictly sorted sequences holding the same files start with the same file. */
  lemma SameHead(a: seq<SourceFile>, b: seq<SourceFile>)
    requires Ordered(a, true) && Ordered(b, true)
    requires multiset(a) == multiset(b) && a != []
    ensures b != [] && a[0] == b[0]
  {
    assert a[0] in multiset(b);
    assert b[0] in multiset(a);
    HeadFirst(b, a[0]);
    HeadFirst(a, b[0]);
    LexLessIrreflexiveAsym(a[0].path, b[0].path);
    var k :| 0 <= k < |b| && b[k] == a[0];
    HeadPathUnique(b, k);
  }

  /** Two strictly sorted sequences holding the same files are the same sequence. */
  lemma {:induction false} StrictlySortedUnique(a: seq<SourceFile>, b: seq<SourceFile>)
    requires Ordered(a, true) && Ordered(b, true)
    requires multiset(a) == multiset(b)
    ensures a == b
  {
    if a == [] {
      assert |b| == |multiset(b)| == |multiset(a)| == 0;
    } else {
      SameHead(a, b);
      var ta, tb := a[1..], b[1..];
      assert a == [a[0]] + ta && b == [b[0]] + tb;
      assert multiset(ta) == multiset(a) - multiset{a[0]};
      assert multiset(tb) == multiset(b) - multiset{b[0]};
      OrderedTail(a, true);
      OrderedTail(b, true);
      StrictlySortedUnique(ta, tb);
    }
  }

  /** Sorting makes the load order independent of the order `glob` happens to return the files in. */
  lemma SortIgnoresGlobOrder(g1: seq<SourceFile>, g2: seq<SourceFile>)
    requires DistinctPaths(g1) && DistinctPaths(g2) && multiset(g1) == multiset(g2)
    ensures SortByPath(g1) == SortByPath(g2)
  {
    SortOrdered(g1, true);
    SortOrdered(g2, true);
    StrictlySortedUnique(SortByPath(g1), SortByPath(g2));
  }

  // ---------------------------------------------------------------------------
  // The loop over the files

  /** The registry after a file-by-file load, and the exception that ended it early, if any. */
  datatype LoadOutcome = LoadOutcome(styles: Registry, error: Option<LoadError>)

  /**
    `panache/panache.py`: a scanner error becomes a `PanacheException` with
    code 200; any other exception leaves `load` uncaught; either way the
    remaining files are not read.
  */
  function LoadStrict(styles: Registry, files: seq<SourceFile>): LoadOutcome
    decreases |files|
  {
    if files == [] then LoadOutcome(styles, None)
    else
      var f := files[0];
      match f.parsed
      case ScannerError => LoadOutcome(styles, Some(YamlSyntax(f.path)))
      case OtherError => LoadOutcome(styles, Some(Uncaught(f.path, YamlError)))
      case Parsed(data) =>
        var o := AddStylesSpec(styles, f.path, data);
        if o.error.Some? then LoadOutcome(o.styles, Some(Uncaught(f.path, o.error.value)))
        else LoadStrict(o.styles, files[1..])
  }

  /**
    `src/panache.py` and `armor/armorstyles.py`: every exception is swallowed
    and ends only the file it happened in; what that file added before the
    exception stays.
  */
  function LoadTolerant(styles: Registry, files: seq<SourceFile>): Registry
    decreases |files|
  {
    if files == [] then styles
    else
      match files[0].parsed
      case Parsed(data) => LoadTolerant(AddStylesSpec(styles, files[0].path, data).styles, files[1..])
      case _ => LoadTolerant(styles, files[1..])
  }

  /** A tolerant load keeps every style already in the registry and only adds styles defined in the files. */
  lemma {:induction false} LoadTolerantKeeps(styles: Registry, files: seq<SourceFile>)
    ensures var r := LoadTolerant(styles, files);
      && (forall n :: n in styles ==> n in r && r[n] == styles[n])
      && (forall n :: n in r && n !in styles ==> r[n].name == n && r[n].source in Paths(files))
    decreases |files|
  {
    if files != [] {
      var next := if files[0].parsed.Parsed? then AddStylesSpec(styles, files[0].path, files[0].parsed.data).styles
                  else styles;
      if files[0].parsed.Parsed? {
        AddStylesKeeps(styles, files[0].path, files[0].parsed.data);
        AddStylesNamesSources(styles, files[0].path, files[0].parsed.data);
      }
      LoadTolerantKeeps(next, files[1..]);
      assert files == [files[0]] + files[1..];
      assert Paths(files) == {files[0].path} + Paths(files[1..]);
    }
  }

  /** A strict load, like a tolerant one, keeps the styles already loaded and files new ones under their names. */
  lemma {:induction false} LoadStrictKeeps(styles: Registry, files: seq<SourceFile>)
    ensures var r := LoadStrict(styles, files).styles;
      && (forall n :: n in styles ==> n in r && r[n] == styles[n])
      && (forall n :: n in r && n !in styles ==> r[n].name == n && r[n].source in Paths(files))
    decreases |files|
  {
    if files != [] && files[0].parsed.Parsed? {
      var data := files[0].parsed.data;
      var o := AddStylesSpec(styles, files[0].path, data);
      AddStylesKeeps(styles, files[0].path, data);
      AddStylesNamesSources(styles, files[0].path, data);
      assert files == [files[0]] + files[1..];
      assert Paths(files) == {files[0].path} + Paths(files[1..]);
      if o.error.None? {
        LoadStrictKeeps(o.styles, files[1..]);
      }
    }
  }

  /** Every style a file adds is filed under its own name and records that file as its source. */
  lemma {:induction false} AddNamesNamesSources(styles: Registry, path: string, section: Value, names: seq<Value>)
    ensures var o := AddNames(styles, path, section, names);
      forall n :: n in o.styles && n !in styles ==> o.styles[n].name == n && o.styles[n].source == path
    decreases |names|
  {
    if names != [] {
      var next := InsertOne(styles, path, section, names[0]);
      if next.Success? {
        AddNamesNamesSources(next.value, path, section, names[1..]);
        AddNamesKeeps(next.value, path, section, names[1..]);
      }
    }
  }

  lemma AddStylesNamesSources(styles: Registry, path: string, data: Value)
    ensures var o := AddStylesSpec(styles, path, data);
      forall n :: n in o.styles && n !in styles ==> o.styles[n].name == n && o.styles[n].source == path
  {
    var section := Index(data, Str(STYLEDEF));
    if section.Success? && Iterate(section.value).Success? {
      AddNamesNamesSources(styles, path, section.value, Iterate(section.value).value);
    }
  }

  /** When no file raises, the strict and the tolerant loads agree. */
  lemma {:induction false} StrictAgreesWhenClean(styles: Registry, files: seq<SourceFile>)
    requires LoadStrict(styles, files).error.None?
    ensures LoadStrict(styles, files).styles == LoadTolerant(styles, files)
    decreases |files|
  {
    if files != [] {
      var o := AddStylesSpec(styles, files[0].path, files[0].parsed.data);
      StrictAgreesWhenClean(o.styles, files[1..]);
    }
  }

  /**
    Whatever the strict load ends with, the tolerant load over the same files
    holds too: an exception costs the tolerant load only the rest of the
    failing file, the strict load every file after it.
  */
  lemma {:induction false} TolerantExtendsStrict(styles: Registry, files: seq<SourceFile>)
    ensures var strict, tolerant := LoadStrict(styles, files).styles, LoadTolerant(styles, files);
      forall n :: n in strict ==> n in tolerant && tolerant[n] == strict[n]
    decreases |files|
  {
    if files != [] {
      match files[0].parsed {
        case Parsed(data) =>
          var o := AddStylesSpec(styles, files[0].path, data);
          if o.error.Some? {
            LoadTolerantKeeps(o.styles, files[1..]);
          } else {
            assert LoadStrict(styles, files) == LoadStrict(o.styles, files[1..]);
            assert LoadTolerant(styles, files) == LoadTolerant(o.styles, files[1..]);
            TolerantExtendsStrict(o.styles, files[1..]);
          }
        case _ =>
          LoadTolerantKeeps(styles, files[1..]);
      }
    }
  }

  /** Once a file raises, the strict load reads no further file: appending files changes nothing. */
  lemma {:induction false} StrictStopsAtError(styles: Registry, files: seq<SourceFile>, more: seq<SourceFile>)
    requires LoadStrict(styles, files).error.Some?
    ensures LoadStrict(styles, files + more) == LoadStrict(styles, files)
    decreases |files|
  {
    assert (files + more)[0] == files[0] && (files + more)[1..] == files[1..] + more;
    if files[0].parsed.Parsed? {
      var o := AddStylesSpec(styles, files[0].path, files[0].parsed.data);
      if o.error.None? {
        StrictStopsAtError(o.styles, files[1..], more);
      }
    }
  }

  /** A file defining `s` and then the empty name, which the constructor rejects. */
  const FailsOnSecond := SourceFile("a.yaml", Parsed(Map([(STYLEDEF, Map([("s", Null), ("", Null)]))])))

  /** A file defining only `t`. */
  const DefinesT := SourceFile("b.yaml", Parsed(Map([(STYLEDEF, Map([("t", Null)]))])))

  lemma FailsOnSecondLoads()
    ensures AddStylesSpec(map[], "a.yaml", FailsOnSecond.parsed.data)
         == FileOutcome(map["s" := Style("s", Null, [], [], [], [], "a.yaml")], Some(AssertionError))
  {
    var section := Map([("s", Null), ("", Null)]);
    var names := [Str("s"), Str("")];
    var it := Iterate(section).value;
    assert |it| == 2 && it[0] == names[0] && it[1] == names[1];
    assert it == names;
    assert Keys(section.entries) == ["s", ""];
    var one := map["s" := Style("s", Null, [], [], [], [], "a.yaml")];
    assert InsertOne(map[], "a.yaml", section, Str("s")) == Success(one);
    assert names[1..] == [Str("")];
    EmptyNameRejected(one, "a.yaml", section.entries);
  }

  lemma DefinesTLoads(styles: Registry)
    requires "t" !in styles
    ensures AddStylesSpec(styles, "b.yaml", DefinesT.parsed.data)
         == FileOutcome(styles["t" := Style("t", Null, [], [], [], [], "b.yaml")], None)
  {
    var it := Iterate(Map([("t", Null)])).value;
    assert |it| == 1 && it[0] == Str("t");
    assert it == [Str("t")];
  }

  /**
    A file raising on its second name: both loads keep the style it defined
    first, but only the tolerant load goes on to the next file.
  */
  lemma ExceptionMidFile()
    ensures var strict := LoadStrict(map[], [FailsOnSecond, DefinesT]);
      && strict.error == Some(Uncaught("a.yaml", AssertionError))
      && "s" in strict.styles && "t" !in strict.styles
    ensures var tolerant := LoadTolerant(map[], [FailsOnSecond, DefinesT]);
      "s" in tolerant && "t" in tolerant
  {
    FailsOnSecondLoads();
    var afterA := map["s" := Style("s", Null, [], [], [], [], "a.yaml")];
    DefinesTLoads(afterA);
    var files := [FailsOnSecond, DefinesT];
    assert files[1..] == [DefinesT] && files[1..][1..] == [];
    assert LoadTolerant(map[], files) == LoadTolerant(afterA, [DefinesT]);
  }

  /** A scanner error in the first file ends a strict load with code 200, nothing loaded from it. */
  lemma ScannerErrorIsCode200(styles: Registry, files: seq<SourceFile>)
    requires files != [] && files[0].parsed == ScannerError
    ensures LoadStrict(styles, files) == LoadOutcome(styles, Some(YamlSyntax(files[0].path)))
    ensures ExitCode(LoadStrict(styles, files).error.value) == Some(200)
  {
  }
}
