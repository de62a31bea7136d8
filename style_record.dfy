/**
  One style definition as built from its parsed YAML record: the constructor
  that `panache/panachestyle.py`, `panache/panache.py` and `src/panache.py`
  each carry, with identical behaviour.

  The constructor never rejects a record for its shape: a reserved key whose
  value has the wrong container type is treated as absent. It does raise when
  the name is empty (an `assert`) and when Python's `in` or `[]` raise on a
  record that is not a mapping.
*/
module StyleRecord {
  import opened Wrappers
  import opened Yaml

  // The reserved YAML words.
  const STYLEDEF := "styledef_"
  const STYLES := "styles_"
  const PARENT := "parent"
  const COMMANDLINE := "commandline"
  const METADATA := "metadata"
  const FILTER := "filter"
  const RUN := "run"
  const KILL := "kill"

  /**
    A style: its parent is whatever value the record had under `parent`
    (no type check), its option and metadata dicts, its filter run and kill
    lists, and the file it came from.
  */
  datatype Style = Style(
    name: string,
    parent: Value,
    commandline: Dict,
    metadata: Dict,
    filtersRun: seq<Value>,
    filtersKill: seq<Value>,
    source: string)

  /** A registry: style names to styles. */
  type Registry = map<string, Style>

  /** Every style is filed under its own name. */
  predicate KeyedByName(styles: Registry) {
    forall n :: n in styles ==> styles[n].name == n
  }

  /** A value whose dicts, at every depth, have distinct keys, as the YAML loader produces them. */
  predicate WellFormed(v: Value) {
    match v
    case List(xs) => forall i :: 0 <= i < |xs| ==> WellFormed(xs[i])
    case Map(m) => IsDict(m) && forall i :: 0 <= i < |m| ==> WellFormed(m[i].1)
    case _ => true
  }

  /** Both dicts of the style have distinct keys. */
  predicate StyleIsDict(st: Style) {
    IsDict(st.commandline) && IsDict(st.metadata)
  }

  /** `data[key] if data and key in data else None`, or the exception raised on the way. */
  function Field(data: Value, key: string): Result<Option<Value>, PyError> {
    if !Truthy(data) then Success(None)
    else
      var present :- Contains(data, Str(key));
      if !present then Success(None)
      else
        var v :- Index(data, Str(key));
        Success(Some(v))
  }

  /** The dict found, or `{}` when the value is missing or not a dict. */
  function DictOr(v: Option<Value>): Dict {
    if v.Some? && v.value.Map? then v.value.entries else []
  }

  /** The list found, or `[]` when the value is missing or not a list. */
  function ListOr(v: Option<Value>): seq<Value> {
    if v.Some? && v.value.List? then v.value.items else []
  }

  /** `PanacheStyle(name, data, source)`. */
  function NewStyle(name: string, data: Value, source: string): (r: Result<Style, PyError>)
    ensures name == "" ==> r == Failure(AssertionError)
    ensures r.Failure? ==> (r.error == AssertionError <==> name == "")
    ensures r.Failure? ==> r.error == AssertionError || r.error == TypeError
    ensures r.Success? ==> r.value.name == name && r.value.source == source
  {
    if name == "" then Failure(AssertionError)
    else
      var parent :- Field(data, PARENT);
      var commandline :- Field(data, COMMANDLINE);
      var metadata :- Field(data, METADATA);
      var filter :- Field(data, FILTER);
      var filterDict := DictOr(filter);
      Success(Style(name, parent.GetOr(Null), DictOr(commandline), DictOr(metadata),
                    ListOr(Lookup(filterDict, RUN)), ListOr(Lookup(filterDict, KILL)), source))
  }

  /** With no data (None, or an empty record) every field takes its empty default. */
  lemma NewStyleDefaults(name: string, data: Value, source: string)
    requires name != "" && !Truthy(data)
    ensures NewStyle(name, data, source) == Success(Style(name, Null, [], [], [], [], source))
  {
  }

  /**
    From a mapping: `parent` whenever the key is there, whatever its value;
    `commandline` and `metadata` only when they are dicts; `run` and `kill`
    each only when `filter` is a dict and that entry is a list, independently
    of one another; every other key is ignored.
  */
  lemma NewStyleFromMapping(name: string, m: Dict, source: string)
    requires name != ""
    ensures NewStyle(name, Map(m), source).Success?
    ensures var st := NewStyle(name, Map(m), source).value;
      && (PARENT in Keys(m) ==> st.parent == Lookup(m, PARENT).value)
      && (PARENT !in Keys(m) ==> st.parent == Null)
      && (forall c :: Lookup(m, COMMANDLINE) == Some(Map(c)) ==> st.commandline == c)
      && (!(Lookup(m, COMMANDLINE).Some? && Lookup(m, COMMANDLINE).value.Map?) ==> st.commandline == [])
      && (forall d :: Lookup(m, METADATA) == Some(Map(d)) ==> st.metadata == d)
      && (!(Lookup(m, METADATA).Some? && Lookup(m, METADATA).value.Map?) ==> st.metadata == [])
      && (forall f, xs :: Lookup(m, FILTER) == Some(Map(f)) && Lookup(f, RUN) == Some(List(xs)) ==> st.filtersRun == xs)
      && (forall f, xs :: Lookup(m, FILTER) == Some(Map(f)) && Lookup(f, KILL) == Some(List(xs)) ==> st.filtersKill == xs)
      && (!(Lookup(m, FILTER).Some? && Lookup(m, FILTER).value.Map?) ==> st.filtersRun == [] && st.filtersKill == [])
      && (forall f :: Lookup(m, FILTER) == Some(Map(f)) && !(Lookup(f, RUN).Some? && Lookup(f, RUN).value.List?) ==>
            st.filtersRun == [])
      && (forall f :: Lookup(m, FILTER) == Some(Map(f)) && !(Lookup(f, KILL).Some? && Lookup(f, KILL).value.List?) ==>
            st.filtersKill == [])
  {
    FieldOfMapping(m, PARENT);
    FieldOfMapping(m, COMMANDLINE);
    FieldOfMapping(m, METADATA);
    FieldOfMapping(m, FILTER);
    var filterDict := DictOr(Lookup(m, FILTER));
    assert NewStyle(name, Map(m), source)
        == Success(Style(name, Lookup(m, PARENT).GetOr(Null), DictOr(Lookup(m, COMMANDLINE)),
                         DictOr(Lookup(m, METADATA)), ListOr(Lookup(filterDict, RUN)),
                         ListOr(Lookup(filterDict, KILL)), source));
  }

  /** On a mapping, `data[key] if data and key in data else None` is a plain lookup. */
  lemma FieldOfMapping(m: Dict, key: string)
    ensures Field(Map(m), key) == Success(Lookup(m, key))
  {
  }

  /**
    A non-empty string record is searched as a string: if one of the four
    reserved words occurs in it, subscripting the string raises TypeError;
    otherwise every field takes its default.
  */
  lemma NewStyleFromString(name: string, s: string, source: string)
    requires name != "" && s != ""
    ensures var mentions := IsSubstring(PARENT, s) || IsSubstring(COMMANDLINE, s)
                         || IsSubstring(METADATA, s) || IsSubstring(FILTER, s);
      NewStyle(name, Str(s), source)
        == if mentions then Failure(TypeError) else Success(Style(name, Null, [], [], [], [], source))
  {
  }

  /** A true boolean or a non-zero integer record cannot be searched: TypeError. */
  lemma NewStyleFromScalar(name: string, data: Value, source: string)
    requires name != "" && Truthy(data) && (data.Bool? || data.Int?)
    ensures NewStyle(name, data, source) == Failure(TypeError)
  {
  }

  lemma LookupWellFormed(m: Dict, k: string)
    requires forall i :: 0 <= i < |m| ==> WellFormed(m[i].1)
    ensures Lookup(m, k).Some? ==> WellFormed(Lookup(m, k).value)
  {
    if m != [] && m[0].0 != k {
      LookupWellFormed(m[1..], k);
    }
  }

  /** A style built from a well-formed record has dicts without duplicate keys. */
  lemma NewStyleIsDict(name: string, data: Value, source: string)
    requires WellFormed(data)
    requires NewStyle(name, data, source).Success?
    ensures StyleIsDict(NewStyle(name, data, source).value)
  {
    if data.Map? {
      LookupWellFormed(data.entries, COMMANDLINE);
      LookupWellFormed(data.entries, METADATA);
    }
  }
}
