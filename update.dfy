/**
  Merging a style defined in a document into the registry, as `update` does.

  A style the registry does not know is added as it is. A known one is
  merged field by field: options and metadata are copied and updated with
  the document's, the run lists are concatenated. The variants differ in the
  parent and the kill list: `panache/panache.py` keeps the registry's parent
  and concatenates the kill lists; `src/panache.py` and
  `armor/armorstyles.py` take the document's parent and build the kill list
  from the already extended run list.
*/
module Updating {
  import opened Wrappers
  import opened Yaml
  import opened StyleRecord
  import opened Resolution

  /** The fields of `st` after the assignments in `panache/panache.py`. */
  function MergeKeepParent(st: Style, u: Style): Style {
    st.(commandline := Merge(st.commandline, u.commandline),
        metadata := Merge(st.metadata, u.metadata),
        filtersRun := st.filtersRun + u.filtersRun,
        filtersKill := st.filtersKill + u.filtersKill)
  }

  /**
    The fields of `st` after the assignments in `src/panache.py` and
    `armor/armorstyles.py`, in their order: the kill list is computed from
    the run list as just extended.
  */
  function MergeReplaceParent(st: Style, u: Style): Style {
    var run := st.filtersRun + u.filtersRun;
    st.(parent := u.parent,
        commandline := Merge(st.commandline, u.commandline),
        metadata := Merge(st.metadata, u.metadata),
        filtersRun := run,
        filtersKill := run + u.filtersKill)
  }

  datatype ParentRule = KeepParent | ReplaceParent

  /** The registry after `update(u)`. */
  function Updated(styles: Registry, u: Style, rule: ParentRule): Registry {
    if u.name !in styles then styles[u.name := u]
    else if rule == KeepParent then styles[u.name := MergeKeepParent(styles[u.name], u)]
    else styles[u.name := MergeReplaceParent(styles[u.name], u)]
  }

  /**
    An update touches only the style of its name, keeps it filed under that
    name, and whatever the rule: the document's options and metadata win
    over the registry's, keys it does not set keep their value, and its run
    list is appended.
  */
  lemma UpdateMerges(styles: Registry, u: Style, rule: ParentRule, k: string)
    requires KeyedByName(styles) && StyleIsDict(u)
    ensures var r := Updated(styles, u, rule);
      && KeyedByName(r)
      && r.Keys == styles.Keys + {u.name}
      && (forall n :: n in styles && n != u.name ==> r[n] == styles[n])
      && (u.name !in styles ==> r[u.name] == u)
      && (u.name in styles ==>
            && Lookup(r[u.name].commandline, k)
               == (if k in Keys(u.commandline) then Lookup(u.commandline, k) else Lookup(styles[u.name].commandline, k))
            && Lookup(r[u.name].metadata, k)
               == (if k in Keys(u.metadata) then Lookup(u.metadata, k) else Lookup(styles[u.name].metadata, k))
            && r[u.name].filtersRun == styles[u.name].filtersRun + u.filtersRun
            && r[u.name].source == styles[u.name].source)
  {
    if u.name in styles {
      MergeLookup(styles[u.name].commandline, u.commandline, k);
      MergeLookup(styles[u.name].metadata, u.metadata, k);
    }
  }

  /** Merging keeps the dicts of a style free of duplicate keys. */
  lemma UpdateKeepsDicts(styles: Registry, u: Style, rule: ParentRule)
    requires AllDicts(styles) && StyleIsDict(u)
    ensures AllDicts(Updated(styles, u, rule))
  {
    if u.name in styles {
      MergeIsDict(styles[u.name].commandline, u.commandline);
      MergeIsDict(styles[u.name].metadata, u.metadata);
    }
  }

  /** In `panache/panache.py` a known style keeps its parent, and the kill lists are concatenated. */
  lemma KeepParentFields(styles: Registry, u: Style)
    requires u.name in styles
    ensures var st, r := styles[u.name], Updated(styles, u, KeepParent)[u.name];
      r.parent == st.parent && r.filtersKill == st.filtersKill + u.filtersKill
  {
  }

  /**
    In `src/panache.py` and `armor/armorstyles.py` a known style takes the
    document's parent, and its kill list starts with its whole merged run
    list, whatever kill lists the registry or the document had.
  */
  lemma ReplaceParentFields(styles: Registry, u: Style)
    requires u.name in styles
    ensures var r := Updated(styles, u, ReplaceParent)[u.name];
      && r.parent == u.parent
      && r.filtersKill == r.filtersRun + u.filtersKill
      && forall x :: x in r.filtersRun ==> x in r.filtersKill
  {
  }

  /**
    Consequence in `src/panache.py`: once a known style is updated, none of
    its own run filters reaches the resolved filter list; only inherited
    filters the kill list does not name remain.
  */
  lemma UpdatedStyleRunsNothingOfItsOwn(styles: Registry, u: Style, visited: set<string>)
    requires u.name in styles && u.name != "" && u.name !in visited
    requires Resolve(Updated(styles, u, ReplaceParent), Str(u.name), visited, DropKilled).Success?
    ensures var r, st := Updated(styles, u, ReplaceParent), Updated(styles, u, ReplaceParent)[u.name];
      forall x :: x in Resolve(r, Str(u.name), visited, DropKilled).value.filters ==>
        x !in st.filtersRun && x !in st.filtersKill
  {
    ReplaceParentFields(styles, u);
  }

  /**
    Consequence in `armor/armorstyles.py`, where the kill list selects: once
    a known style is updated, every filter of its merged run list survives
    its own resolution.
  */
  lemma UpdatedStyleKeepsItsOwnRun(styles: Registry, u: Style, visited: set<string>)
    requires u.name in styles && u.name != "" && u.name !in visited
    requires Resolve(Updated(styles, u, ReplaceParent), Str(u.name), visited, KeepKilled).Success?
    ensures var r, st := Updated(styles, u, ReplaceParent), Updated(styles, u, ReplaceParent)[u.name];
      forall x :: x in st.filtersRun ==> x in Resolve(r, Str(u.name), visited, KeepKilled).value.filters
  {
    ReplaceParentFields(styles, u);
  }
}
