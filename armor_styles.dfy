/**
  The style registry of `armor/armorstyles.py`.

  This variant walks the globbed style files in the order `glob` lists them,
  swallows every exception a file raises, takes the document's parent on
  update, and, unlike the other two, keeps only the filters its kill list
  names when resolving.
*/
module Armor {
  import opened Wrappers
  import opened Yaml
  import opened StyleRecord
  import opened Resolution
  import opened Loading
  import opened Updating

  /** `ArmorStyles`: the registry, filled by `Load` and `Update`, read by `Resolve`. */
  class ArmorStyles {
    var styles: Registry

    predicate Valid()
      reads this
    {
      KeyedByName(styles)
    }

    constructor()
      ensures styles == map[]
      ensures Valid()
    {
      styles := map[];
    }

    /**
      `load(style_dir)`, given what `glob` found there, in that order; a file
      that raises ends only its own walk.
    */
    method Load(globbed: seq<SourceFile>)
      modifies this
      ensures styles == LoadTolerant(old(styles), globbed)
      ensures old(Valid()) ==> Valid()
    {
      LoadTolerantKeeps(styles, globbed);
      for i := 0 to |globbed|
        invariant LoadTolerant(styles, globbed[i..]) == LoadTolerant(old(styles), globbed)
      {
        assert globbed[i..][0] == globbed[i] && globbed[i..][1..] == globbed[i + 1..];
        if globbed[i].parsed.Parsed? {
          var added, _ := AddStyles(styles, globbed[i].path, globbed[i].parsed.data);
          styles := added;
        }
      }
    }

    /**
      `update(update)`: add an unknown style, or merge into the known one,
      taking the document's parent and building the kill list from the run
      list as just extended.
    */
    method Update(u: Style)
      modifies this
      ensures styles == Updated(old(styles), u, ReplaceParent)
      ensures old(Valid()) ==> Valid()
    {
      if u.name !in styles {
        styles := styles[u.name := u];
      } else {
        var style := styles[u.name];
        style := style.(parent := u.parent);
        style := style.(commandline := Merge(style.commandline, u.commandline));
        style := style.(metadata := Merge(style.metadata, u.metadata));
        style := style.(filtersRun := style.filtersRun + u.filtersRun);
        style := style.(filtersKill := style.filtersRun + u.filtersKill);
        styles := styles[u.name := style];
      }
    }

    /**
      `resolve(style_name)`: empty parameters for an empty or unknown name;
      for a known style, only filters its own kill list names survive.
    */
    function Resolve(name: Value): (r: Result<Params, ResolveError>)
      reads this
      ensures !Truthy(name) ==> r == Success(Identity)
      ensures name.Str? && name.s !in styles ==> r == Success(Identity)
      ensures r.Success? && name.Str? && name.s in styles ==>
        forall x :: x in r.value.filters ==> x in styles[name.s].filtersKill
    {
      Resolution.Resolve(styles, name, {}, KeepKilled)
    }
  }

  /** A style with an empty kill list resolves to no filter at all, whatever it runs or inherits. */
  lemma EmptyKillRunsNothing(st: ArmorStyles, name: string)
    requires name in st.styles && st.styles[name].filtersKill == []
    requires st.Resolve(Str(name)).Success?
    ensures st.Resolve(Str(name)).value.filters == []
  {
    if name != "" {
      var style := st.styles[name];
      assert {} + {name} == {name};
      var parent := Resolution.Resolve(st.styles, style.parent, {name}, KeepKilled);
      KeepNothing(parent.value.filters + style.filtersRun);
    }
  }

  lemma {:induction false} KeepNothing(xs: seq<Value>)
    ensures ApplyKill(xs, [], KeepKilled) == []
  {
    if xs != [] {
      KeepNothing(xs[1..]);
    }
  }

  /** A style file defining only `s`, with no fields. */
  function OnlyS(path: string): SourceFile {
    SourceFile(path, Parsed(Map([(STYLEDEF, Map([("s", Null)]))])))
  }

  lemma OnlySLoads(styles: Registry, path: string)
    requires "s" !in styles
    ensures AddStylesSpec(styles, path, OnlyS(path).parsed.data)
         == FileOutcome(styles["s" := Style("s", Null, [], [], [], [], path)], None)
  {
    var it := Iterate(Map([("s", Null)])).value;
    assert |it| == 1 && it[0] == Str("s");
    assert it == [Str("s")];
  }

  /**
    Without the sort, which of two files defining the same style wins
    depends on the order `glob` lists them in.
  */
  lemma GlobOrderMatters()
    ensures var r := LoadTolerant(map[], [OnlyS("a.yaml"), OnlyS("b.yaml")]); "s" in r && r["s"].source == "a.yaml"
    ensures var r := LoadTolerant(map[], [OnlyS("b.yaml"), OnlyS("a.yaml")]); "s" in r && r["s"].source == "b.yaml"
  {
    OnlySLoads(map[], "a.yaml");
    OnlySLoads(map[], "b.yaml");
    LoadTolerantKeeps(map["s" := Style("s", Null, [], [], [], [], "a.yaml")], [OnlyS("b.yaml")]);
    LoadTolerantKeeps(map["s" := Style("s", Null, [], [], [], [], "b.yaml")], [OnlyS("a.yaml")]);
    assert [OnlyS("a.yaml"), OnlyS("b.yaml")][1..] == [OnlyS("b.yaml")];
    assert [OnlyS("b.yaml"), OnlyS("a.yaml")][1..] == [OnlyS("a.yaml")];
  }
}
