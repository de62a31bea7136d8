# panache style resolution, modelled in Dafny

panache wraps pandoc. Style files (`*.yaml`) define named styles under
`styledef_`; each style has a `parent`, pandoc `commandline` options,
`metadata`, and `filter` lists `run` and `kill`. A Markdown document can
define or refine styles in its own YAML blocks, and can map a `medium` to a
style under `styles_`. panache loads the style files into a registry,
merges the document's definitions into it, picks a style, resolves it through
its parent chain into one parameter set, and turns that into a pandoc command
line.

The repository carries three versions of this engine, and this project models
each one as written:

- `panache/panache.py` (module `Panache`):
  - it sorts the style files and stops at the first exception, a YAML scanner
    error becoming exit code 200;
  - on update a known style keeps its parent;
  - the document's medium mapping wins over `--style`;
  - the input file comes before the metadata file;
  - a style variable given for a key that already holds a list is appended
    to a copy, which is then dropped.
- `src/panache.py` (module `SrcPanache`):
  - it sorts the style files and swallows each file's exception, keeping
    what that file had added;
  - on update a known style takes the document's parent, and its kill list
    is rebuilt from the already extended run list;
  - `--style` wins over the medium mapping;
  - the metadata file comes before the input file;
  - style variables are appended in place.
- `armor/armorstyles.py` (module `Armor`):
  - it loads in the order `glob` returns, and swallows exceptions;
  - it updates like `src/panache.py`;
  - when resolving, it keeps only the filters the kill list names, where
    the other two drop them.

Shared modules:

- `Yaml`: parsed YAML values, with the Python semantics the source relies on:
  - truthiness;
  - `in`;
  - subscription and its exceptions;
  - iteration;
  - `'%s' %`;
  - dicts as ordered association lists, and `merge_two_dicts` / `{**x, **y}`.
- `StyleRecord`: the `PanacheStyle` constructor.
- `Loading`: the walk over one file, Python's `sorted`, and the strict and tolerant loops over the files.
- `Updating`: the field merges of `update`.
- `Resolution`: `resolve`, with both kill-list polarities.
- `FrontMatter`: `get_yaml_lines`.
- `CommandLine`:
  - the style-variable loop of `parse_cmdline`;
  - the option and filter arguments;
  - the medium lookup of `determine_style`.

The registries are classes whose `styles` map the methods `Load` and `Update`
replace. Each method is proved equal to a function over the old registry, and
the lemmas are proved about those functions.

## Model

| member | source | states |
|---|---|---|
| Yaml.Lookup | panache/panache.py:152-155 | a key is found exactly when it is one of the dict's keys |
| Yaml.SetItem | panache/panache.py:152-155 | `d[k] = v` keeps an existing key in place and appends a new one; afterwards `k` maps to `v` and every other key to its old value |
| Yaml.MergeLookup | panache/panache.py:152-155 | in `merge_two_dicts(x, y)` a key takes its value from `y` if `y` has it, else from `x` |
| Yaml.MergeKeys | src/panache.py:51-55 | the merged keys are `x`'s keys in their order, followed by `y`'s new keys in theirs |
| Yaml.MergeIsDict | armor/armorstyles.py:69-70 | merging into a dict without duplicate keys yields one without duplicate keys |
| Yaml.MergeIntoEmpty | armor/armorstyles.py:89-90 | merging a dict into `{}` gives back that dict |
| Yaml.MergeFromPrefix | panache/panache.py:152-155 | merging a dict's tail into its head rebuilds the dict |
| Yaml.SetItemNewKey | panache/panache.py:152-155 | setting a key not yet present appends the entry |
| Yaml.Position | panache/panache.py:241-248 | subscripting a list `styledef_` section with an int `i` gives position `i` when `0 <= i < n`, `i + n` when `-n <= i < 0`, IndexError otherwise; a bool counts as 0 or 1; any other key raises TypeError |
| StyleRecord.NewStyle | panache/panachestyle.py:9-48 | the constructor raises AssertionError exactly when the name is empty, otherwise only TypeError, and keeps the name and the source |
| StyleRecord.NewStyleDefaults | panache/panachestyle.py:15-19 | with no data or empty data every field takes its default: no parent, `{}`, `{}`, `[]`, `[]` |
| StyleRecord.NewStyleFromMapping | panache/panachestyle.py:21-48 | from a mapping: the parent whenever the key is present, the option and metadata dicts only if they are dicts, `run` and `kill` each only if `filter` is a dict and that entry a list; other keys ignored |
| StyleRecord.FieldOfMapping | panache/panache.py:200 | `data[key] if data and key in data else None` on a mapping is the dict lookup |
| StyleRecord.NewStyleFromString | src/panache.py:96-121 | a string record is searched as a string: a reserved word in it raises TypeError, otherwise every field is defaulted |
| StyleRecord.NewStyleFromScalar | src/panache.py:96-98 | a true boolean or a non-zero integer record raises TypeError |
| StyleRecord.NewStyleIsDict | panache/panache.py:201-202 | a style built from a duplicate-free record has duplicate-free option and metadata dicts |
| Loading.InsertOne | panache/panache.py:240-253 | one name of `styledef_`: a known name is skipped, a new one is filed under its own name with this file as its source, and no loaded style changes |
| Loading.AddStyles | panache/panache.py:236-253 | the loop over a file's style names computes exactly the per-file walk `AddStylesSpec`, stopping at the first exception |
| Loading.InsertNames | panache/panache.py:241-253 | the loop over the section's names, one insertion per name, computes exactly `AddNames`, stopping at the first exception |
| Loading.AddNamesKeeps | src/panache.py:157-169 | a file never changes a style already loaded: the first definition wins |
| Loading.AddStylesKeeps | armor/armorstyles.py:30-46 | the same for the whole file, including data without `styledef_` |
| Loading.AddNamesFromMapping | panache/panache.py:240-253 | with no exception the registry gains exactly the section's names, and each new one is the constructor's result on its record |
| Loading.EmptyNameRejected | panache/panachestyle.py:12 | an empty style name ends the walk with the constructor's AssertionError |
| Loading.AddStylesNamesSources | src/panache.py:163-164 | every style a file adds is keyed by its name and records that file as its source |
| Loading.LexLessTotal | panache/panache.py:219 | the string order `sorted` uses is total |
| Loading.LexLessTrans | panache/panache.py:219 | and transitive |
| Loading.LexLessIrreflexiveAsym | panache/panache.py:219 | and asymmetric |
| Loading.InsertByPath | panache/panache.py:219 | insertion keeps the files as a multiset |
| Loading.InsertOrdered | panache/panache.py:219 | inserting into an ordered list keeps it ordered |
| Loading.SortByPath | src/panache.py:136 | `sorted(yaml_paths)` is a permutation of the globbed files |
| Loading.SortOrdered | src/panache.py:136 | and is ordered by path, strictly when no path repeats |
| Loading.StrictlySortedUnique | panache/panache.py:219 | two strictly ordered lists with the same elements are equal |
| Loading.SortIgnoresGlobOrder | panache/panache.py:216-219 | whatever order `glob` returns distinct paths in, the sorted list is the same |
| Loading.LoadStrictKeeps | panache/panache.py:214-253 | the strict load keeps every style already present, and files each new one under its name with a source among the files |
| Loading.LoadTolerantKeeps | src/panache.py:131-173 | the same for the tolerant load |
| Loading.StrictAgreesWhenClean | src/panache.py:141-173 | when no file raises, the strict and the tolerant load give the same registry |
| Loading.TolerantExtendsStrict | src/panache.py:141-173 | every style the strict load ends with is in the tolerant load over the same files, with the same definition: catching an exception per file only ever loads more |
| Loading.StrictStopsAtError | panache/panache.py:227-253 | once a file raises, the strict load is over: appending further files changes neither the registry nor the error |
| Loading.ExceptionMidFile | src/panache.py:141-173 | a file raising on its second name (the empty one) keeps the style it defined first under both loads; the strict load ends with that file's `AssertionError` and never defines the next file's style, the tolerant load does |
| Loading.ScannerErrorIsCode200 | panache/panache.py:230-233 | a scanner error in the next file ends the strict load with the YAML syntax error, whose exit code is 200, nothing added from that file |
| Updating.UpdateMerges | panache/panache.py:267-275 | only the style of that name changes; its options and metadata take the document's value for the keys it sets and keep the others; its run list gains the document's; its source is kept; a name the registry does not know is stored as given |
| Updating.UpdateKeepsDicts | src/panache.py:192-193 | updating keeps every style's dicts duplicate-free |
| Updating.KeepParentFields | panache/panache.py:272-275 | in `panache/panache.py` a known style keeps its parent and its kill list gains the document's |
| Updating.ReplaceParentFields | src/panache.py:191-195 | in `src/panache.py` a known style takes the document's parent, and its kill list is the merged run list followed by the document's kill list |
| Updating.UpdatedStyleRunsNothingOfItsOwn | src/panache.py:194-195 | so a style updated there never runs a filter from its own run list |
| Updating.UpdatedStyleKeepsItsOwnRun | armor/armorstyles.py:71-72 | in armor, with the inverted filter, every filter of its merged run list survives |
| Resolution.ApplyKill | panache/panache.py:294 | a filter survives exactly when it was in the list and the kill list lets it through |
| Resolution.ApplyKillCount | armor/armorstyles.py:91 | a surviving filter keeps all its repetitions, a removed one loses all of them |
| Resolution.ApplyKillConcat | src/panache.py:214 | filtering distributes over concatenation, so the survivors keep their order |
| Resolution.ResolveTakesNearest | panache/panache.py:286-293 | every resolved option and metadata key has the value of the nearest style on the parent chain that defines it |
| Resolution.ResolveRootStyle | src/panache.py:197-216 | a style with no parent resolves to its own dicts and its run list filtered by its own kill list |
| Resolution.ResolveStep | panache/panache.py:286-296 | a style resolves to its own fields laid over its parent's resolution |
| Resolution.ResolveThreeLevels | armor/armorstyles.py:83-93 | over three generations the dicts merge child over parent over grandparent, and each level applies only its own kill list |
| Resolution.AcyclicResolves | panache/panache.py:277-296 | when the parent chains are acyclic, resolution always succeeds |
| Resolution.TwoCycleFails | src/panache.py:206-209 | two styles naming each other as parent never resolve |
| Panache.PanacheStyles.constructor | panache/panache.py:210-212 | a new registry is empty and holds the given style variables |
| Panache.PanacheStyles.Load | panache/panache.py:214-253 | the registry becomes the strict load over the sorted files, and the error is the one that ended it |
| Panache.PanacheStyles.Update | panache/panache.py:255-275 | the registry becomes `Updated(..., KeepParent)`; styles stay filed under their names |
| Panache.PanacheStyles.Resolve | panache/panache.py:277-296 | empty parameters for an empty or unknown name; no filter the style kills survives |
| Panache.DetermineStyle | panache/panache.py:480-496 | the medium's mapped style if the document has one, otherwise `--style`, otherwise none; it fails exactly when the medium lookup raises |
| Panache.MediumBeatsStyleOption | panache/panache.py:484-494 | a mapped medium wins even when `--style` is given |
| Panache.CommandHead | panache/panache.py:502-507 | the command starts with `pandoc`, then the input file, then the metadata file when given, and ends with `--output=<file>` when an output is given |
| Panache.PandocCommand | panache/panache.py:499-519 | the whole command keeps that start and ends with the extra arguments |
| Panache.CompileCommandLine | panache/panache.py:499-519 | the appends build exactly `PandocCommand` |
| Panache.CompileStyleVars | panache/panache.py:400-412 | the style-variable loop of this version, appending to a copy |
| SrcPanache.PanacheStyles.constructor | src/panache.py:127-129 | a new registry is empty |
| SrcPanache.PanacheStyles.Load | src/panache.py:131-173 | the registry becomes the tolerant load over the sorted files |
| SrcPanache.PanacheStyles.Update | src/panache.py:175-195 | the registry becomes `Updated(..., ReplaceParent)`, the kill list built after the run list in the source's order |
| SrcPanache.PanacheStyles.Resolve | src/panache.py:197-216 | empty parameters for an empty or unknown name; no filter the style kills survives |
| SrcPanache.DetermineStyle | src/panache.py:439-455 | `--style` if given, whatever the document, otherwise the medium's mapped style, otherwise none |
| SrcPanache.StyleOptionWins | src/panache.py:443-445 | a given `--style` is the result even for a document `in` cannot search |
| SrcPanache.CommandHead | src/panache.py:461-467 | the command starts with `pandoc`, then the metadata file when given, then the input file, and ends with `--output=<file>` when an output is given |
| SrcPanache.PandocCommand | src/panache.py:458-479 | the whole command keeps that start and ends with the extra arguments |
| SrcPanache.CompileCommandLine | src/panache.py:458-479 | the appends build exactly `PandocCommand` |
| SrcPanache.CompileStyleVars | src/panache.py:363-375 | the style-variable loop of this version, appending in place |
| SrcPanache.LoadIgnoresGlobOrder | src/panache.py:133-136 | the registry loaded does not depend on the order `glob` lists distinct paths in |
| SrcPanache.DetermineStyleExamples | tests/test_panache.py:133-152 | medium `wiki` picks `tsihtml`; no medium, or `pdf`, picks none |
| SrcPanache.LoadExample | tests/test_panache.py:166-170 | the two fixture files load three styles, and `html` comes from the file that sorts first |
| SrcPanache.ResolveAfterUpdateExample | tests/test_panache.py:182-191 | after the document's update, `html` resolves to `toc: true`, `lang: ru`, `foo: bar` and no filters |
| SrcPanache.CommandExample | tests/test_panache.py:193-204 | that resolution gives `pandoc foo/metadata <input> --toc` |
| Armor.ArmorStyles.constructor | armor/armorstyles.py:13-14 | a new registry is empty |
| Armor.ArmorStyles.Load | armor/armorstyles.py:16-50 | the registry becomes the tolerant load over the files in glob order |
| Armor.ArmorStyles.Update | armor/armorstyles.py:52-72 | the registry becomes `Updated(..., ReplaceParent)` |
| Armor.ArmorStyles.Resolve | armor/armorstyles.py:74-93 | empty parameters for an empty or unknown name; only filters the style's kill list names survive |
| Armor.EmptyKillRunsNothing | armor/armorstyles.py:91 | a style with an empty kill list resolves to no filters at all |
| Armor.KeepNothing | armor/armorstyles.py:91 | keeping only the entries of an empty kill list keeps nothing |
| Armor.GlobOrderMatters | armor/armorstyles.py:19 | two files defining the same style: which definition wins depends on the order `glob` returns them in |
| FrontMatter.OpeningCloses | panache/panache.py:435-436 | every line that opens a block would also close one |
| FrontMatter.GetYamlLines | panache/panache.py:432-448 | the loop returns exactly the lines the block reading `YamlLines` selects |
| FrontMatter.YamlLinesFromInput | src/panache.py:395-411 | every returned line is a line of the document, and never a closing line |
| FrontMatter.SkipOutside | panache/panache.py:440-442 | outside a block, lines that do not open one are skipped |
| FrontMatter.TakeInside | panache/panache.py:444-447 | inside a block, the lines up to the closing one are returned as they are |
| FrontMatter.OneBlock | panache/panache.py:432-448 | a block's body is returned, followed by whatever the rest of the document yields |
| FrontMatter.UnclosedBlock | src/panache.py:395-411 | a block never closed runs to the end of the document |
| FrontMatter.NoOpeningNoYaml | src/panache.py:395-411 | without an opening line nothing is returned |
| FrontMatter.TwoBlocksExample | tests/test_panache.py:114-118 | two blocks are both returned, in order |
| FrontMatter.DotsDoNotOpenExample | tests/test_panache.py:108-112 | a dotted line does not open a block |
| CommandLine.KeyPrefixLength | panache/panache.py:400-402 | the key part of `^([a-z_]+):(.*)$` is the longest prefix of `[a-z_]` characters |
| CommandLine.ParseFormatted | panache/panache.py:400-406 | `key:value` with a valid key parses back to that key and value, with or without a final newline |
| CommandLine.ParseSound | src/panache.py:363-369 | a parsed argument is exactly `key:value` with a valid key, optionally followed by a newline |
| CommandLine.AddStyleVars | panache/panache.py:400-412 | the loop computes `StyleVarsSpec` over the arguments |
| CommandLine.StyleVarsFailure | panache/panache.py:402-404 | the loop succeeds exactly when every argument is valid, and otherwise raises the `PanacheException` for the first invalid one, with exit code 104 |
| CommandLine.StyleVarsUntouched | src/panache.py:363-375 | a key no argument names keeps its value |
| CommandLine.StyleVarsOnList | panache/panache.py:409-410 | a key holding a list: in `src/panache.py` it gains every value given, in `panache/panache.py` it is unchanged |
| CommandLine.StyleVarsOnScalar | src/panache.py:374-375 | a key holding a single value becomes the list of it and the values given, or in `panache/panache.py` of it and the first of them |
| CommandLine.StyleVarsOnAbsent | panache/panache.py:407-412 | a new key given once is stored as a string; given several times it becomes the list of all values, or of the first two in `panache/panache.py` |
| CommandLine.FilterArgs | panache/panache.py:514-515 | one `--filter=f` per filter, in list order |
| CommandLine.AppendOptionArgs | panache/panache.py:508-513 | the loop appends exactly the option arguments of the dict |
| CommandLine.AppendFilterArgs | src/panache.py:474-475 | the loop appends exactly the filter arguments |
| CommandLine.FilterArgsAppend | panache/panache.py:514-515 | one more filter adds one more argument at the end |
| CommandLine.DashDashInjective | panache/panache.py:510-513 | a flag `--a` equals `--b` only if `a == b`, and equals a valued option only if `a` holds an `=` |
| CommandLine.FlagIffTrue | panache/panache.py:508-513 | `--key` is among the option arguments exactly when the option is `True` |
| CommandLine.ValuedOptionPresent | src/panache.py:472-473 | a non-boolean option appears as `--key=value` |
| CommandLine.MediumStyleMapped | panache/panache.py:484-490 | a document mapping the medium yields the mapped style |
| CommandLine.MediumStyleUnmapped | src/panache.py:448-455 | a document without the mapping, or not naming the medium, yields none |

## Left out

- `vcs_lookup`: it runs git and svn in subprocesses and parses their output.
- Option parsing in `parse_cmdline`: only its style-variable loop is modelled; optparse, file checks and `sys.exit` are not.
- `compile_style_vars`: it reads the clock and the file system, and is never called.
- File reading, `pystache.render`, and YAML parsing: each style file comes in already parsed, as a `ParseOutcome`. `styleVars` is stored but, since rendering is not modelled, never read.
- `get_input_yaml`, `substitute_style_vars_and_append_default`, `main`, `silent_remove`, and all logging: these are I/O, subprocesses and foreign libraries.
- YAML values cover null, booleans, integers, strings, lists and string-keyed mappings:
  - floats, dates and non-string mapping keys are not modelled;
  - Python's `True == 1` is not modelled, so the integers and booleans of a `kill` list never match each other.
- `'%s' %` is modelled through `Render`, but the escaping of quotes inside a list's or dict's `repr` is not.
- Loading.InsertOne: a hashable style name that is not a string, such as an integer, is reported as the error `NonStringName`. The source would go on and build a style with a non-string name; such a style could never be resolved by a string name.
- Resolution.Resolve: a cyclic parent chain ends with `CyclicInheritance`, where the source recurses until Python raises `RecursionError`.
- Aliasing is not modelled: the source stores the document's style object itself when the name is new, and a later update mutates it. Styles here are values.
- Armor.ArmorStyles.Load: `ArmorStyle`'s constructor (`armor/armorstyle.py`) is not part of this model. It is taken to build a style as `PanacheStyle` does.
- Options: `Options` holds `output`, `medium` and `style`, with the empty string standing for an option not given.
- The fourth `determine_style` test (tests/test_panache.py:154-160) relies on a `STYLE_` key that the code never reads. No lemma states it.
