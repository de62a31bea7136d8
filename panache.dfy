/**
  The style registry and the style choice of `panache/panache.py`.

  This variant sorts the globbed style files, stops loading at the first
  exception (a YAML scanner error becomes exit code 200), keeps a known
  style's parent on update, lets the document's medium mapping win over
  `--style`, and puts the input file before the metadata file on the pandoc
  command line.
*/
module Panache {
  import opened Wrappers
  import opened Yaml
  import opened StyleRecord
  import opened Resolution
  import opened Loading
  import opened Updating
  import opened CommandLine

  /** `PanacheStyles`: the registry, filled by `Load` and `Update`, read by `Resolve`. */
  class PanacheStyles {
    var styles: Registry
    /** The template variables the style files are rendered with before parsing. */
    var styleVars: Dict

    predicate Valid()
      reads this
    {
      KeyedByName(styles)
    }

    constructor(styleVars: Dict)
      ensures styles == map[] && this.styleVars == styleVars
      ensures Valid()
    {
      this.styles := map[];
      this.styleVars := styleVars;
    }

    /**
      `load(style_dir)`, given what `glob` found there: the files in path
      order, each adding the styles it defines that are not yet known, until
      the first file that raises.
    */
    method Load(globbed: seq<SourceFile>) returns (error: Option<LoadError>)
      modifies this
      ensures var o := LoadStrict(old(styles), SortByPath(globbed));
        styles == o.styles && error == o.error
      ensures styleVars == old(styleVars)
      ensures old(Valid()) ==> Valid()
    {
      LoadStrictKeeps(styles, SortByPath(globbed));
      var files := SortByPath(globbed);
      var i := 0;
      while i < |files|
        invariant 0 <= i <= |files|
        invariant LoadStrict(styles, files[i..]) == LoadStrict(old(styles), files)
        invariant styleVars == old(styleVars)
      {
        var f := files[i];
        assert files[i..][0] == f && files[i..][1..] == files[i + 1..];
        match f.parsed {
          case ScannerError =>
            return Some(YamlSyntax(f.path));
          case OtherError =>
            return Some(Uncaught(f.path, YamlError));
          case Parsed(data) =>
            var added, e := AddStyles(styles, f.path, data);
            styles := added;
            if e.Some? {
              return Some(Uncaught(f.path, e.value));
            }
        }
        i := i + 1;
      }
      return None;
    }

    /** `update(update)`: add an unknown style, or merge into the known one keeping its parent. */
    method Update(u: Style)
      modifies this
      ensures styles == Updated(old(styles), u, KeepParent)
      ensures styleVars == old(styleVars)
      ensures old(Valid()) ==> Valid()
    {
      if u.name !in styles {
        styles := styles[u.name := u];
      } else {
        var style := styles[u.name];
        style := style.(commandline := Merge(style.commandline, u.commandline));
        style := style.(metadata := Merge(style.metadata, u.metadata));
        style := style.(filtersRun := style.filtersRun + u.filtersRun);
        style := style.(filtersKill := style.filtersKill + u.filtersKill);
        styles := styles[u.name := style];
      }
    }

    /**
      `resolve(style_name)`: empty parameters for an empty or unknown name;
      for a known style, none of the filters it kills survives.
    */
    function Resolve(name: Value): (r: Result<Params, ResolveError>)
      reads this
      ensures !Truthy(name) ==> r == Success(Identity)
      ensures name.Str? && name.s !in styles ==> r == Success(Identity)
      ensures r.Success? && name.Str? && name.s in styles ==>
        forall x :: x in r.value.filters ==> x !in styles[name.s].filtersKill
    {
      Resolution.Resolve(styles, name, {}, DropKilled)
    }
  }

  /**
    `determine_style(options, input_yaml)`: the style the document maps the
    medium to if it does, otherwise `--style`, otherwise none.
  */
  function DetermineStyle(options: Options, inputYaml: Value): (r: Result<Value, PyError>)
    ensures r.Failure? <==> MediumStyle(options, inputYaml).Failure?
    ensures r.Success? ==> MediumStyle(options, inputYaml) == Success(Some(r.value))
                           || (MediumStyle(options, inputYaml) == Success(None)
                               && r.value == (if options.style != "" then Str(options.style) else Null))
  {
    var mapped :- MediumStyle(options, inputYaml);
    if mapped.Some? then Success(mapped.value)
    else if options.style != "" then Success(Str(options.style))
    else Success(Null)
  }

  /** The medium mapping wins even over a style named with `--style`. */
  lemma MediumBeatsStyleOption(options: Options, doc: Dict, table: Dict)
    requires options.medium != "" && Lookup(doc, STYLES) == Some(Map(table))
    requires options.medium in Keys(table)
    ensures DetermineStyle(options, Map(doc)) == Success(Lookup(table, options.medium).value)
  {
    MediumStyleMapped(options, doc, table);
  }

  /** The start of the pandoc command: `pandoc`, the input file, the metadata file if any, `--output` if given. */
  function CommandHead(inputFile: string, metadataFile: string, options: Options): (head: seq<string>)
    ensures |head| >= 2 && head[0] == "pandoc" && head[1] == inputFile
    ensures metadataFile != "" ==> |head| >= 3 && head[2] == metadataFile
    ensures options.output != "" ==> head[|head| - 1] == "--output=" + options.output
  {
    ["pandoc", inputFile]
    + (if metadataFile != "" then [metadataFile] else [])
    + (if options.output != "" then ["--output=" + options.output] else [])
  }

  /** The whole pandoc command: the head, the style's options, its filters, then the remaining arguments. */
  function PandocCommand(inputFile: string, metadataFile: string, params: Params, options: Options, args: seq<string>)
    : (command: seq<string>)
    ensures |command| >= 2 + |args| && command[0] == "pandoc" && command[1] == inputFile
    ensures metadataFile != "" ==> |command| >= 3 && command[2] == metadataFile
    ensures command[|command| - |args|..] == args
  {
    CommandHead(inputFile, metadataFile, options) + OptionArgs(params.commandline) + FilterArgs(params.filters) + args
  }

  /** `compile_command_line(input_file, metadata_file, parameters, options, args)`. */
  method CompileCommandLine(inputFile: string, metadataFile: string, params: Params, options: Options, args: seq<string>)
    returns (command: seq<string>)
    ensures command == PandocCommand(inputFile, metadataFile, params, options, args)
  {
    command := ["pandoc", inputFile];
    if metadataFile != "" {
      command := command + [metadataFile];
    }
    if options.output != "" {
      command := command + ["--output=" + options.output];
    }
    assert command == CommandHead(inputFile, metadataFile, options);
    command := AppendOptionArgs(command, params.commandline);
    command := AppendFilterArgs(command, params.filters);
    command := command + args;
  }

  /**
    The style-variable loop of `parse_cmdline`: the appended value of a key
    that already holds a list goes to a copy, so such an entry never grows.
  */
  method CompileStyleVars(styleVars: Dict, given: seq<string>) returns (r: Result<Dict, StyleVarError>)
    ensures r == StyleVarsSpec(styleVars, given, AppendToCopy)
  {
    r := AddStyleVars(styleVars, given, AppendToCopy);
  }
}
