/**
  The style registry and the style choice of `src/panache.py`.

  This variant sorts the globbed style files but swallows every exception a
  file raises, keeping what that file added before it; on update a known
  style takes the document's parent and its kill list is rebuilt from the
  merged run list; `--style` wins over the document's medium mapping; and the
  metadata file comes before the input file on the pandoc command line.
*/
module SrcPanache {
  import opened Wrappers
  import opened Yaml
  import opened StyleRecord
  import opened Resolution
  import opened Loading
  import opened Updating
  import opened CommandLine

  /** `PanacheStyles`: the registry, filled by `Load` and `Update`, read by `Resolve`. */
  class PanacheStyles {
    var styles: Registry
    /** The template variables the style files are rendered with before parsing. */
    var styleVars: Dict

    predicate Valid()
      reads this
    {
      KeyedByName(styles)
    }

    constructor(styleVars: Dict)
      ensures styles == map[] && this.styleVars == styleVars
      ensures Valid()
    {
      this.styles := map[];
      this.styleVars := styleVars;
    }

    /**
      `load(style_dir)`, given what `glob` found there: the files in path
      order, each adding the styles it defines that are not yet known; a file
      that raises ends only its own walk.
    */
    method Load(globbed: seq<SourceFile>)
      modifies this
      ensures styles == LoadTolerant(old(styles), SortByPath(globbed))
      ensures styleVars == old(styleVars)
      ensures old(Valid()) ==> Valid()
    {
      LoadTolerantKeeps(styles, SortByPath(globbed));
      var files := SortByPath(globbed);
      for i := 0 to |files|
        invariant LoadTolerant(styles, files[i..]) == LoadTolerant(old(styles), files)
        invariant styleVars == old(styleVars)
      {
        assert files[i..][0] == files[i] && files[i..][1..] == files[i + 1..];
        if files[i].parsed.Parsed? {
          var added, _ := AddStyles(styles, files[i].path, files[i].parsed.data);
          styles := added;
        }
      }
    }

    /**
      `update(update)`: add an unknown style, or merge into the known one in
      the source's statement order, so that the kill list is built from the
      run list as just extended.
    */
    method Update(u: Style)
      modifies this
      ensures styles == Updated(old(styles), u, ReplaceParent)
      ensures styleVars == old(styleVars)
      ensures old(Valid()) ==> Valid()
    {
      if u.name !in styles {
        styles := styles[u.name := u];
      } else {
        var style := styles[u.name];
        style := style.(parent := u.parent);
        style := style.(commandline := Merge(style.commandline, u.commandline));
        style := style.(metadata := Merge(style.metadata, u.metadata));
        style := style.(filtersRun := style.filtersRun + u.filtersRun);
        style := style.(filtersKill := style.filtersRun + u.filtersKill);
        styles := styles[u.name := style];
      }
    }

    /**
      `resolve(style_name)`: empty parameters for an empty or unknown name;
      for a known style, none of the filters it kills survives.
    */
    function Resolve(name: Value): (r: Result<Params, ResolveError>)
      reads this
      ensures !Truthy(name) ==> r == Success(Identity)
      ensures name.Str? && name.s !in styles ==> r == Success(Identity)
      ensures r.Success? && name.Str? && name.s in styles ==>
        forall x :: x in r.value.filters ==> x !in styles[name.s].filtersKill
    {
      Resolution.Resolve(styles, name, {}, DropKilled)
    }
  }

  /**
    `determine_style(options, input_yaml)`: `--style` if given, otherwise the
    style the document maps the medium to, otherwise none.
  */
  function DetermineStyle(options: Options, inputYaml: Value): (r: Result<Value, PyError>)
    ensures options.style != "" ==> r == Success(Str(options.style))
    ensures options.style == "" ==>
      && (r.Failure? <==> MediumStyle(options, inputYaml).Failure?)
      && (r.Success? ==> MediumStyle(options, inputYaml) == Success(Some(r.value))
                         || (MediumStyle(options, inputYaml) == Success(None) && r.value == Null))
  {
    if options.style != "" then Success(Str(options.style))
    else
      var mapped :- MediumStyle(options, inputYaml);
      Success(mapped.GetOr(Null))
  }

  /** The start of the pandoc command: `pandoc`, the metadata file if any, the input file, `--output` if given. */
  function CommandHead(inputFile: string, metadataFile: string, options: Options): (head: seq<string>)
    ensures |head| >= 2 && head[0] == "pandoc"
    ensures metadataFile == "" ==> |head| >= 2 && head[1] == inputFile
    ensures metadataFile != "" ==> |head| >= 3 && head[1] == metadataFile && head[2] == inputFile
    ensures options.output != "" ==> head[|head| - 1] == "--output=" + options.output
  {
    ["pandoc"]
    + (if metadataFile != "" then [metadataFile] else [])
    + [inputFile]
    + (if options.output != "" then ["--output=" + options.output] else [])
  }

  /** The whole pandoc command: the head, the style's options, its filters, then the remaining arguments. */
  function PandocCommand(inputFile: string, metadataFile: string, params: Params, options: Options, args: seq<string>)
    : (command: seq<string>)
    ensures |command| >= 2 + |args| && command[0] == "pandoc"
    ensures metadataFile != "" ==> |command| >= 3 && command[1] == metadataFile && command[2] == inputFile
    ensures command[|command| - |args|..] == args
  {
    CommandHead(inputFile, metadataFile, options) + OptionArgs(params.commandline) + FilterArgs(params.filters) + args
  }

  /** `compile_command_line(input_file, metadata_file, parameters, options, args)`. */
  method CompileCommandLine(inputFile: string, metadataFile: string, params: Params, options: Options, args: seq<string>)
    returns (command: seq<string>)
    ensures command == PandocCommand(inputFile, metadataFile, params, options, args)
  {
    command := ["pandoc"];
    if metadataFile != "" {
      command := command + [metadataFile];
    }
    command := command + [inputFile];
    if options.output != "" {
      command := command + ["--output=" + options.output];
    }
    assert command == CommandHead(inputFile, metadataFile, options);
    command := AppendOptionArgs(command, params.commandline);
    command := AppendFilterArgs(command, params.filters);
    command := command + args;
  }

  /**
    The style-variable loop of `parse_cmdline`: the value for a key that
    already holds a list is appended to that list in place.
  */
  method CompileStyleVars(styleVars: Dict, given: seq<string>) returns (r: Result<Dict, StyleVarError>)
    ensures r == StyleVarsSpec(styleVars, given, AppendInPlace)
  {
    r := AddStyleVars(styleVars, given, AppendInPlace);
  }

  /** Since the paths of a directory listing are distinct, the order `glob` returns them in does not matter. */
  lemma LoadIgnoresGlobOrder(styles: Registry, g1: seq<SourceFile>, g2: seq<SourceFile>)
    requires DistinctPaths(g1) && DistinctPaths(g2) && multiset(g1) == multiset(g2)
    ensures LoadTolerant(styles, SortByPath(g1)) == LoadTolerant(styles, SortByPath(g2))
  {
    SortIgnoresGlobOrder(g1, g2);
  }

  // ---------------------------------------------------------------------------
  // The scenario of the repository's tests

  /** The document of the tests: its medium mapping. */
  const TestDocument := Map([(STYLES, Map([("wiki", Str("tsihtml"))]))])

  /** `--medium=wiki` picks `tsihtml`; no medium, or the unmapped `pdf`, picks none. */
  lemma DetermineStyleExamples()
    ensures DetermineStyle(Options("", "wiki", ""), TestDocument) == Success(Str("tsihtml"))
    ensures DetermineStyle(Options("", "", ""), TestDocument) == Success(Null)
    ensures DetermineStyle(Options("", "pdf", ""), TestDocument) == Success(Null)
  {
    MediumStyleMapped(Options("", "wiki", ""), TestDocument.entries, [("wiki", Str("tsihtml"))]);
    MediumStyleUnmapped(Options("", "pdf", ""), TestDocument.entries);
  }

  /** `--style` overrides the medium mapping, whatever the document holds, even a document `in` cannot search. */
  lemma StyleOptionWins(options: Options, inputYaml: Value)
    requires options.style != ""
    ensures DetermineStyle(options, inputYaml) == Success(Str(options.style))
  {
  }

  /** `html` as loaded from the file whose name sorts first. */
  const LoadedHtml := Style("html", Null, [("toc", Bool(true))], [("lang", Str("en")), ("foo", Str("bar"))], [], [], "1.yaml")

  /** `html` as defined in the document. */
  const DocumentHtml := Style("html", Null, [], [("lang", Str("ru"))], [], [], "doc.md")

  /**
    Updating the loaded `html` with the document's and resolving it: the
    document's `lang` wins, `foo` and `toc` are inherited from the file.
  */
  lemma ResolveAfterUpdateExample(others: Registry)
    requires "html" !in others
    ensures var styles := Updated(others["html" := LoadedHtml], DocumentHtml, ReplaceParent);
      Resolution.Resolve(styles, Str("html"), {}, DropKilled)
        == Success(Params([("toc", Bool(true))], [("lang", Str("ru")), ("foo", Str("bar"))], []))
  {
    var styles := Updated(others["html" := LoadedHtml], DocumentHtml, ReplaceParent);
    HtmlUpdated(others);
    ResolveRootStyle(styles, "html", {}, DropKilled);
  }

  /** `LoadedHtml` updated by `DocumentHtml`: the document's `lang` replaces the file's, in place. */
  lemma HtmlUpdated(others: Registry)
    requires "html" !in others
    ensures var styles := Updated(others["html" := LoadedHtml], DocumentHtml, ReplaceParent);
      && "html" in styles
      && styles["html"] == Style("html", Null, [("toc", Bool(true))], [("lang", Str("ru")), ("foo", Str("bar"))], [], [], "1.yaml")
      && StyleIsDict(styles["html"])
  {
    var merged := Style("html", Null, [("toc", Bool(true))], [("lang", Str("ru")), ("foo", Str("bar"))], [], [], "1.yaml");
    assert Merge([("toc", Bool(true))], []) == [("toc", Bool(true))];
    RuMerge();
    assert IsDict(merged.metadata) by {
      assert Keys(merged.metadata) == ["lang", "foo"];
    }
  }

  lemma RuMerge()
    ensures Merge([("lang", Str("en")), ("foo", Str("bar"))], [("lang", Str("ru"))])
         == [("lang", Str("ru")), ("foo", Str("bar"))]
  {
  }

  /** The command for that resolution, with the metadata file `foo/metadata` and no further options. */
  lemma CommandExample(input: string)
    ensures PandocCommand(input, "foo/metadata",
                          Params([("toc", Bool(true))], [("lang", Str("ru")), ("foo", Str("bar"))], []),
                          Options("", "", ""), [])
         == ["pandoc", "foo/metadata", input, "--toc"]
  {
    var d := [("toc", Bool(true))];
    assert d[1..] == [];
    assert "--" + "toc" == "--toc";
    assert OptionArg("toc", Bool(true)) == ["--toc"];
    assert OptionArgs(d) == ["--toc"];
  }

  const HtmlRecord := Map([(METADATA, Map([("lang", Str("en")), ("foo", Str("bar"))])),
                            (COMMANDLINE, Map([("toc", Bool(true))]))])
  const ItHtmlRecord := Map([(PARENT, Str("html")), (METADATA, Map([("lang", Str("it"))]))])
  const FirstSection := [("html", HtmlRecord), ("it_html", ItHtmlRecord)]

  /** The first fixture file: `html` with `lang: en`, `foo: bar` and `toc`, and `it_html` below it. */
  const FirstFile := SourceFile("1.yaml", Parsed(Map([(STYLEDEF, Map(FirstSection))])))

  const SecondSection := [
    ("html", Map([(METADATA, Map([("lang", Str("de"))])), (COMMANDLINE, Map([("toc", Bool(true))]))])),
    ("en_html", Map([(METADATA, Map([("lang", Str("en"))]))]))]

  /** The second fixture file: `html` again, with `lang: de`, and `en_html`. */
  const SecondFile := SourceFile("2.yaml", Parsed(Map([(STYLEDEF, Map(SecondSection))])))

  const ItHtml := Style("it_html", Str("html"), [], [("lang", Str("it"))], [], [], "1.yaml")

  /** The keys of a two-entry dict literal, in order. */
  lemma KeysOfTwo(d: Dict)
    requires |d| == 2
    ensures Keys(d) == [d[0].0, d[1].0]
  {
    KeysLength(d);
  }

  /** Looking a key up in a two-entry dict literal. */
  lemma LookupOfTwo(d: Dict, k: string)
    requires |d| == 2
    ensures Lookup(d, k) == if d[0].0 == k then Some(d[0].1) else if d[1].0 == k then Some(d[1].1) else None
  {
    assert d[1..][1..] == [];
  }

  lemma HtmlRecordBuilds()
    ensures NewStyle("html", HtmlRecord, "1.yaml") == Success(LoadedHtml)
  {
    KeysOfTwo(HtmlRecord.entries);
    LookupOfTwo(HtmlRecord.entries, COMMANDLINE);
    LookupOfTwo(HtmlRecord.entries, METADATA);
    assert Field(HtmlRecord, PARENT) == Success(None);
    assert Field(HtmlRecord, FILTER) == Success(None);
    assert Field(HtmlRecord, COMMANDLINE) == Success(Some(Map([("toc", Bool(true))])));
    assert Field(HtmlRecord, METADATA) == Success(Some(Map([("lang", Str("en")), ("foo", Str("bar"))])));
  }

  lemma ItHtmlRecordBuilds()
    ensures NewStyle("it_html", ItHtmlRecord, "1.yaml") == Success(ItHtml)
  {
    KeysOfTwo(ItHtmlRecord.entries);
    LookupOfTwo(ItHtmlRecord.entries, PARENT);
    LookupOfTwo(ItHtmlRecord.entries, METADATA);
    assert Field(ItHtmlRecord, PARENT) == Success(Some(Str("html")));
    assert Field(ItHtmlRecord, FILTER) == Success(None);
    assert Field(ItHtmlRecord, COMMANDLINE) == Success(None);
    assert Field(ItHtmlRecord, METADATA) == Success(Some(Map([("lang", Str("it"))])));
  }

  /** A style section of two names loads as the two insertions, in order. */
  lemma TwoNamesLoad(styles: Registry, path: string, section: Dict, after1: Registry, after2: Registry)
    requires |section| == 2
    requires InsertOne(styles, path, Map(section), Str(section[0].0)) == Success(after1)
    requires InsertOne(after1, path, Map(section), Str(section[1].0)) == Success(after2)
    ensures AddStylesSpec(styles, path, Map([(STYLEDEF, Map(section))])) == FileOutcome(after2, None)
  {
    var data := Map([(STYLEDEF, Map(section))]);
    assert Contains(data, Str(STYLEDEF)) == Success(true);
    assert Index(data, Str(STYLEDEF)) == Success(Map(section));
    var names := [Str(section[0].0), Str(section[1].0)];
    var it := Iterate(Map(section)).value;
    assert |it| == 2 && it[0] == names[0] && it[1] == names[1];
    assert it == names;
    assert names[1..][0] == names[1] && names[1..][1..] == [];
    assert AddNames(after1, path, Map(section), names[1..]) == FileOutcome(after2, None);
    assert AddNames(styles, path, Map(section), names) == FileOutcome(after2, None);
  }

  lemma FirstFileLoads()
    ensures AddStylesSpec(map[], "1.yaml", FirstFile.parsed.data)
         == FileOutcome(map["html" := LoadedHtml, "it_html" := ItHtml], None)
  {
    KeysOfTwo(FirstSection);
    LookupOfTwo(FirstSection, "html");
    LookupOfTwo(FirstSection, "it_html");
    HtmlRecordBuilds();
    ItHtmlRecordBuilds();
    var one := map["html" := LoadedHtml];
    assert InsertOne(map[], "1.yaml", Map(FirstSection), Str("html")) == Success(one);
    assert InsertOne(one, "1.yaml", Map(FirstSection), Str("it_html")) == Success(one["it_html" := ItHtml]);
    TwoNamesLoad(map[], "1.yaml", FirstSection, one, one["it_html" := ItHtml]);
  }

  const EnHtml := Style("en_html", Null, [], [("lang", Str("en"))], [], [], "2.yaml")

  lemma EnHtmlRecordBuilds()
    ensures NewStyle("en_html", Map([(METADATA, Map([("lang", Str("en"))]))]), "2.yaml") == Success(EnHtml)
  {
    var record := Map([(METADATA, Map([("lang", Str("en"))]))]);
    assert Keys(record.entries) == [METADATA];
  }

  lemma SecondFileLoads(first: Registry)
    requires "html" in first && "en_html" !in first
    ensures AddStylesSpec(first, "2.yaml", SecondFile.parsed.data) == FileOutcome(first["en_html" := EnHtml], None)
  {
    KeysOfTwo(SecondSection);
    LookupOfTwo(SecondSection, "en_html");
    EnHtmlRecordBuilds();
    assert InsertOne(first, "2.yaml", Map(SecondSection), Str("html")) == Success(first);
    assert InsertOne(first, "2.yaml", Map(SecondSection), Str("en_html")) == Success(first["en_html" := EnHtml]);
    TwoNamesLoad(first, "2.yaml", SecondSection, first, first["en_html" := EnHtml]);
  }

  /** `sorted` on two files puts the one whose path sorts first in front. */
  lemma SortTwo(f: SourceFile, g: SourceFile)
    requires LexLess(g.path, f.path)
    ensures SortByPath([f, g]) == [g, f]
  {
    LexLessIrreflexiveAsym(f.path, g.path);
    assert [f, g][1..] == [g];
    assert SortByPath([g]) == [g];
    assert InsertByPath(f, [g]) == [g] + InsertByPath(f, []);
  }

  /** `sorted` puts `1.yaml` before `2.yaml`. */
  lemma SortFixtures()
    ensures SortByPath([SecondFile, FirstFile]) == [FirstFile, SecondFile]
  {
    assert LexLess(FirstFile.path, SecondFile.path) by {
      assert "1.yaml"[0] == '1' && "2.yaml"[0] == '2';
    }
    SortTwo(SecondFile, FirstFile);
  }

  /**
    Loading the two fixture files, whatever order `glob` lists them in:
    three styles, and `html` is the definition of the file whose name sorts
    first.
  */
  lemma LoadExample()
    ensures var r := LoadTolerant(map[], SortByPath([SecondFile, FirstFile]));
      r.Keys == {"html", "en_html", "it_html"} && r["html"] == LoadedHtml
  {
    SortFixtures();
    FirstFileLoads();
    var first := map["html" := LoadedHtml, "it_html" := ItHtml];
    SecondFileLoads(first);
    var sorted := [FirstFile, SecondFile];
    assert sorted[1..] == [SecondFile] && sorted[1..][1..] == [];
    assert LoadTolerant(map[], sorted) == LoadTolerant(first, [SecondFile]);
    assert LoadTolerant(first, [SecondFile]) == first["en_html" := EnHtml];
  }
}
