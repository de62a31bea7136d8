/**
  Resolving a style name through its parent chain into one parameter set,
  as `resolve` does in all three registries.

  The source recurses without a guard; here the recursion carries the set of
  names already being resolved and reports `CyclicInheritance` when a name
  comes round again. The variants differ only in what the kill list does:
  `panache/panache.py` and `src/panache.py` drop the killed entries
  (`DropKilled`), `armor/armorstyles.py` keeps only them (`KeepKilled`).
*/
module Resolution {
  import opened Wrappers
  import opened Yaml
  import opened StyleRecord

  /** `{commandline: ..., metadata: ..., filter: [...]}`. */
  datatype Params = Params(commandline: Dict, metadata: Dict, filters: seq<Value>)

  /** The parameters of no style at all. */
  const Identity := Params([], [], [])

  datatype Polarity = DropKilled | KeepKilled

  datatype ResolveError =
    | CyclicInheritance(name: string)  // where the source recursed until Python's recursion limit
    | Unhashable                       // a list or dict used as a parent name: TypeError in the source

  /** Whether `filter(lambda x: ..., ...)` keeps `x`. */
  predicate Passes(x: Value, kill: seq<Value>, polarity: Polarity) {
    if polarity == DropKilled then x !in kill else x in kill
  }

  /**
    The entries of `xs` the kill list lets through, in their order and with
    their repetitions.
  */
  function ApplyKill(xs: seq<Value>, kill: seq<Value>, polarity: Polarity): (r: seq<Value>)
    ensures forall x :: x in r <==> x in xs && Passes(x, kill, polarity)
  {
    if xs == [] then []
    else (if Passes(xs[0], kill, polarity) then [xs[0]] else []) + ApplyKill(xs[1..], kill, polarity)
  }

  /** Every entry that passes keeps all its repetitions; every other entry loses all of them. */
  lemma {:induction false} ApplyKillCount(xs: seq<Value>, kill: seq<Value>, polarity: Polarity, x: Value)
    ensures multiset(ApplyKill(xs, kill, polarity))[x] == if Passes(x, kill, polarity) then multiset(xs)[x] else 0
  {
    if xs != [] {
      assert xs == [xs[0]] + xs[1..];
      ApplyKillCount(xs[1..], kill, polarity, x);
    }
  }

  /** Filtering distributes over concatenation, so the relative order of the survivors is kept. */
  lemma {:induction false} ApplyKillConcat(a: seq<Value>, b: seq<Value>, kill: seq<Value>, polarity: Polarity)
    ensures ApplyKill(a + b, kill, polarity) == ApplyKill(a, kill, polarity) + ApplyKill(b, kill, polarity)
  {
    if a == [] {
      assert a + b == b;
    } else {
      var head := if Passes(a[0], kill, polarity) then [a[0]] else [];
      assert (a + b)[0] == a[0] && (a + b)[1..] == a[1..] + b;
      ApplyKillConcat(a[1..], b, kill, polarity);
      calc {
        ApplyKill(a + b, kill, polarity);
        head + ApplyKill(a[1..] + b, kill, polarity);
        head + (ApplyKill(a[1..], kill, polarity) + ApplyKill(b, kill, polarity));
        (head + ApplyKill(a[1..], kill, polarity)) + ApplyKill(b, kill, polarity);
      }
    }
  }

  /** `resolve(name)` over the registry `styles`, with the names already on the chain in `visited`. */
  function Resolve(styles: map<string, Style>, name: Value, visited: set<string>, polarity: Polarity)
    : Result<Params, ResolveError>
    decreases styles.Keys - visited
  {
    if !Truthy(name) then Success(Identity)
    else if !Hashable(name) then Failure(Unhashable)
    else if !name.Str? || name.s !in styles then Success(Identity)
    else if name.s in visited then Failure(CyclicInheritance(name.s))
    else
      var style := styles[name.s];
      var parent :- Resolve(styles, style.parent, visited + {name.s}, polarity);
      Success(Params(
        Merge(parent.commandline, style.commandline),
        Merge(parent.metadata, style.metadata),
        ApplyKill(parent.filters + style.filtersRun, style.filtersKill, polarity)))
  }

  // ---------------------------------------------------------------------------
  // The chain of definitions a resolution walks

  /** The styles that `Resolve` visits, the named style first and its root last. */
  function Lineage(styles: map<string, Style>, name: Value, visited: set<string>): seq<Style>
    decreases styles.Keys - visited
  {
    if name.Str? && name.s != "" && name.s in styles && name.s !in visited
    then [styles[name.s]] + Lineage(styles, styles[name.s].parent, visited + {name.s})
    else []
  }

  datatype Section = CommandlineSection | MetadataSection

  function SectionOf(st: Style, section: Section): Dict {
    if section == CommandlineSection then st.commandline else st.metadata
  }

  function ParamsSection(p: Params, section: Section): Dict {
    if section == CommandlineSection then p.commandline else p.metadata
  }

  /** The value of `k` in the first style of the chain that defines it. */
  function Nearest(chain: seq<Style>, section: Section, k: string): Option<Value> {
    if chain == [] then None
    else if k in Keys(SectionOf(chain[0], section)) then Lookup(SectionOf(chain[0], section), k)
    else Nearest(chain[1..], section, k)
  }

  predicate AllDicts(styles: map<string, Style>) {
    forall n :: n in styles ==> StyleIsDict(styles[n])
  }

  /**
    Every resolved option and metadata key takes the value of the nearest
    style on the chain that defines it: the style's own keys override its
    parent's, which override the grandparent's, and so on.
  */
  lemma {:induction false} ResolveTakesNearest(
    styles: map<string, Style>, name: Value, visited: set<string>, polarity: Polarity, section: Section, k: string)
    requires AllDicts(styles)
    requires Resolve(styles, name, visited, polarity).Success?
    ensures Lookup(ParamsSection(Resolve(styles, name, visited, polarity).value, section), k)
         == Nearest(Lineage(styles, name, visited), section, k)
    decreases styles.Keys - visited
  {
    if Truthy(name) && Hashable(name) && name.Str? && name.s in styles {
      var style := styles[name.s];
      var parent := Resolve(styles, style.parent, visited + {name.s}, polarity);
      ResolveTakesNearest(styles, style.parent, visited + {name.s}, polarity, section, k);
      MergeLookup(ParamsSection(parent.value, section), SectionOf(style, section), k);
      assert Lineage(styles, name, visited)
          == [style] + Lineage(styles, style.parent, visited + {name.s});
    }
  }

  /** A style whose parent is empty resolves to exactly its own fields, with its own kill list applied. */
  lemma ResolveRootStyle(styles: map<string, Style>, s: string, visited: set<string>, polarity: Polarity)
    requires s != "" && s in styles && s !in visited
    requires !Truthy(styles[s].parent) && StyleIsDict(styles[s])
    ensures var st := styles[s];
      Resolve(styles, Str(s), visited, polarity)
        == Success(Params(st.commandline, st.metadata, ApplyKill(st.filtersRun, st.filtersKill, polarity)))
  {
    var st := styles[s];
    assert Resolve(styles, st.parent, visited + {s}, polarity) == Success(Identity);
    ResolveStep(styles, s, visited, polarity, Identity);
    MergeIntoEmpty(st.commandline);
    MergeIntoEmpty(st.metadata);
    assert [] + st.filtersRun == st.filtersRun;
  }

  /**
    Three generations: options and metadata merge with the child over the
    parent over the grandparent; the filters are filtered level by level,
    each level applying only its own kill list to what it inherited plus its
    own run list.
  */
  lemma ResolveThreeLevels(styles: map<string, Style>, c: string, p: string, g: string, polarity: Polarity)
    requires c in styles && p in styles && g in styles
    requires c != "" && p != "" && g != "" && c != p && p != g && c != g
    requires styles[c].parent == Str(p) && styles[p].parent == Str(g) && !Truthy(styles[g].parent)
    requires StyleIsDict(styles[g])
    ensures var sc, sp, sg := styles[c], styles[p], styles[g];
      Resolve(styles, Str(c), {}, polarity) == Success(Params(
        Merge(Merge(sg.commandline, sp.commandline), sc.commandline),
        Merge(Merge(sg.metadata, sp.metadata), sc.metadata),
        ApplyKill(
          ApplyKill(ApplyKill(sg.filtersRun, sg.filtersKill, polarity) + sp.filtersRun, sp.filtersKill, polarity)
            + sc.filtersRun,
          sc.filtersKill, polarity)))
  {
    var sp, sg := styles[p], styles[g];
    assert {c} + {p} == {c, p};
    ResolveRootStyle(styles, g, {c, p}, polarity);
    var gp := Params(sg.commandline, sg.metadata, ApplyKill(sg.filtersRun, sg.filtersKill, polarity));
    ResolveStep(styles, p, {c}, polarity, gp);
    assert {} + {c} == {c};
    ResolveStep(styles, c, {}, polarity, Params(
      Merge(gp.commandline, sp.commandline),
      Merge(gp.metadata, sp.metadata),
      ApplyKill(gp.filters + sp.filtersRun, sp.filtersKill, polarity)));
  }

  /** One level of the recursion: the style's own fields laid over its parent's resolution. */
  lemma ResolveStep(styles: map<string, Style>, s: string, visited: set<string>, polarity: Polarity, parent: Params)
    requires s != "" && s in styles && s !in visited
    requires Resolve(styles, styles[s].parent, visited + {s}, polarity) == Success(parent)
    ensures var st := styles[s];
      Resolve(styles, Str(s), visited, polarity) == Success(Params(
        Merge(parent.commandline, st.commandline),
        Merge(parent.metadata, st.metadata),
        ApplyKill(parent.filters + st.filtersRun, st.filtersKill, polarity)))
  {
  }

  // ---------------------------------------------------------------------------
  // Cycles

  /** Parents ranked below their children: a witness that no parent chain is cyclic. */
  ghost predicate RankedParents(styles: map<string, Style>, rank: map<string, nat>) {
    forall n :: n in styles ==>
      && n in rank
      && (Truthy(styles[n].parent) ==> Hashable(styles[n].parent))
      && (styles[n].parent.Str? && styles[n].parent.s in styles ==>
            styles[n].parent.s in rank && rank[styles[n].parent.s] < rank[n])
  }

  lemma {:induction false} RankedResolves(
    styles: map<string, Style>, rank: map<string, nat>, name: Value, visited: set<string>, polarity: Polarity)
    requires RankedParents(styles, rank)
    requires Truthy(name) ==> Hashable(name)
    requires name.Str? && name.s in styles ==> forall v :: v in visited ==> v in rank && rank[v] > rank[name.s]
    ensures Resolve(styles, name, visited, polarity).Success?
    decreases styles.Keys - visited
  {
    if Truthy(name) && name.Str? && name.s in styles {
      var s := name.s;
      assert s !in visited;
      var p := styles[s].parent;
      if p.Str? && p.s in styles {
        forall v | v in visited + {s} ensures v in rank && rank[v] > rank[p.s] {
        }
      }
      RankedResolves(styles, rank, p, visited + {s}, polarity);
    }
  }

  /** When parent chains are acyclic, resolving any name succeeds: the cycle guard never fires. */
  lemma AcyclicResolves(styles: map<string, Style>, rank: map<string, nat>, name: Value, polarity: Polarity)
    requires RankedParents(styles, rank)
    requires Truthy(name) ==> Hashable(name)
    ensures Resolve(styles, name, {}, polarity).Success?
  {
    RankedResolves(styles, rank, name, {}, polarity);
  }

  /** Two styles naming each other as parent: resolution reports the cycle at the name it started from. */
  lemma TwoCycleFails(styles: map<string, Style>, a: string, b: string, polarity: Polarity)
    requires a in styles && b in styles && a != "" && b != "" && a != b
    requires styles[a].parent == Str(b) && styles[b].parent == Str(a)
    ensures Resolve(styles, Str(a), {}, polarity) == Failure(CyclicInheritance(a))
  {
    assert {} + {a} == {a};
    assert {a} + {b} == {a, b};
    assert Resolve(styles, Str(a), {a, b}, polarity) == Failure(CyclicInheritance(a));
    assert Resolve(styles, styles[b].parent, {a} + {b}, polarity) == Failure(CyclicInheritance(a));
    assert Resolve(styles, Str(b), {a}, polarity) == Failure(CyclicInheritance(a));
    assert Resolve(styles, styles[a].parent, {} + {a}, polarity) == Failure(CyclicInheritance(a));
  }
}
