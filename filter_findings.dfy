/**
 * `FilterFindings`: which THOR events, by level and module, are kept, and
 * how that selection is read from a loaded configuration file.
 */
module FindingsFilters {
  import opened Wrappers
  import opened Dicts
  import opened JsonValues
  import opened Text
  import opened Errors
  import FilterCreation

  /**
   * A filter: the lower-cased levels and modules, and whether it is the
   * null filter, whose `matches_filter_criteria` is replaced by one that
   * accepts everything.
   */
  datatype FilterFindings = FilterFindings(levels: set<string>, modules: set<string>, acceptsAll: bool)

  /** The constructor: exactly the lower-casings of the given levels and modules are stored. */
  function NewFilter(levels: set<string>, modules: set<string>): (r: FilterFindings)
    ensures !r.acceptsAll
    ensures forall x | x in r.levels :: IsLower(x)
    ensures forall x | x in r.modules :: IsLower(x)
    ensures forall l | l in levels :: Lower(l) in r.levels
    ensures forall m | m in modules :: Lower(m) in r.modules
    ensures forall x | x in r.levels :: exists l | l in levels :: Lower(l) == x
    ensures forall x | x in r.modules :: exists m | m in modules :: Lower(m) == x
    ensures |r.levels| <= |levels| && |r.modules| <= |modules|
  {
    FilterFindings(LowerSet(levels), LowerSet(modules), false)
  }

  /** `null_filter`: no levels, no modules, and a criterion that is always true. */
  function NullFilter(): (r: FilterFindings)
    ensures forall level, moduleField :: MatchesFilterCriteria(r, level, moduleField) == Success(true)
  {
    FilterFindings({}, {}, true)
  }

  /** `v.lower() if v is not None else None`; `lower` fails on anything but a string. */
  function Normalised(v: Json): (r: Result<Option<string>, Error>)
    ensures v == JNull ==> r == Success(None)
    ensures v.JStr? ==> r == Success(Some(Lower(v.s)))
    ensures r.Failure? <==> v != JNull && !v.JStr?
    ensures r.Failure? ==> r.error == PyError("AttributeError")
  {
    match v
    case JNull => Success(None)
    case JStr(s) => Success(Some(Lower(s)))
    case _ => Failure(PyError("AttributeError"))
  }

  /** `x in s` for an optional string: `None` is in no set of strings. */
  predicate In(x: Option<string>, s: set<string>)
  {
    x.Some? && x.value in s
  }

  /**
   * `matches_filter_criteria`. The null filter accepts everything. A real
   * filter lower-cases both fields (raising on anything but a string or
   * `None`, the level first); then with only levels configured the level
   * decides, with only modules the module decides, and otherwise both must
   * be in, so a filter with neither matches nothing. `None` never matches a
   * configured side.
   */
  function MatchesFilterCriteria(f: FilterFindings, level: Json, moduleField: Json): (r: Result<bool, Error>)
    ensures f.acceptsAll ==> r == Success(true)
    ensures !f.acceptsAll && ((level != JNull && !level.JStr?) || (moduleField != JNull && !moduleField.JStr?)) ==>
      r == Failure(PyError("AttributeError"))
    ensures !f.acceptsAll && (level == JNull || level.JStr?) && (moduleField == JNull || moduleField.JStr?) ==>
      var levelIn := level.JStr? && Lower(level.s) in f.levels;
      var moduleIn := moduleField.JStr? && Lower(moduleField.s) in f.modules;
      && r.Success?
      && (f.levels != {} && f.modules == {} ==> (r.value <==> levelIn))
      && (f.modules != {} && f.levels == {} ==> (r.value <==> moduleIn))
      && (f.levels != {} && f.modules != {} ==> (r.value <==> levelIn && moduleIn))
      && (f.levels == {} && f.modules == {} ==> !r.value)
  {
    if f.acceptsAll then Success(true)
    else
      var normLevel :- Normalised(level);
      var normModule :- Normalised(moduleField);
      if f.levels != {} && f.modules == {} then Success(In(normLevel, f.levels))
      else if f.modules != {} && f.levels == {} then Success(In(normModule, f.modules))
      else Success(In(normLevel, f.levels) && In(normModule, f.modules))
  }

  /** Through the constructor, matching a string level ignores case on both sides. */
  lemma LevelMatchIgnoresCase(levels: set<string>, level: string, moduleField: Json)
    requires levels != {}
    requires moduleField == JNull || moduleField.JStr?
    ensures MatchesFilterCriteria(NewFilter(levels, {}), JStr(level), moduleField) ==
      Success(exists l | l in levels :: Lower(l) == Lower(level))
  {
    LowerSetMembers(levels, Lower(level));
  }

  /** `{x.lower() for x in (v or {}) if isinstance(x, str)}`. */
  function StringItems(v: Json): (r: Result<set<string>, Error>)
    ensures r.Success? <==> !Truthy(v) || v.JArr? || v.JObj? || v.JStr?
    ensures r.Failure? ==> r.error == PyError("TypeError")
    ensures !Truthy(v) ==> r == Success({})
    ensures v.JArr? ==> r == Success(set x | x in v.items && x.JStr? :: Lower(x.s))
    ensures v.JObj? && Truthy(v) ==> r == Success(set k | k in Keys(v.fields) :: Lower(k))
    ensures v.JStr? && Truthy(v) ==> r == Success(set i | 0 <= i < |v.s| :: Lower([v.s[i]]))
    ensures r.Success? ==> forall x | x in r.value :: IsLower(x)
  {
    var items :- Iterate(if Truthy(v) then v else JObj([]));
    var r := set x | x in items && x.JStr? :: Lower(x.s);
    assert !Truthy(v) ==> r == {} by {
      if !Truthy(v) {
        assert items == [];
        assert forall y :: y !in r;
      }
    }
    IteratedLower(if Truthy(v) then v else JObj([]));
    LowerStrings(items);
    Success(r)
  }

  /** Iterating a dict gives its keys, and iterating a string its characters. */
  lemma IteratedLower(v: Json)
    requires Iterate(v).Success?
    ensures var items := Iterate(v).value;
      && (v.JObj? ==> (set x | x in items && x.JStr? :: Lower(x.s)) == set k | k in Keys(v.fields) :: Lower(k))
      && (v.JStr? ==> (set x | x in items && x.JStr? :: Lower(x.s)) == set i | 0 <= i < |v.s| :: Lower([v.s[i]]))
  {
    var items := Iterate(v).value;
    var got := set x | x in items && x.JStr? :: Lower(x.s);
    if v.JObj? {
      forall k | k in Keys(v.fields)
        ensures Lower(k) in got
      {
        var i :| 0 <= i < |v.fields| && Keys(v.fields)[i] == k;
        assert items[i] == JStr(k);
      }
    } else if v.JStr? {
      forall i | 0 <= i < |v.s|
        ensures Lower([v.s[i]]) in got
      {
        assert items[i] == JStr([v.s[i]]);
      }
    }
  }

  lemma LowerStrings(items: seq<Json>)
    ensures forall x | x in items && x.JStr? :: IsLower(Lower(x.s))
  {
    forall x | x in items && x.JStr?
      ensures IsLower(Lower(x.s))
    {
      LowerIdempotent(x.s);
    }
  }

  /** `section.get(key)`, which needs a dict. */
  function SectionGet(section: Json, key: string): (r: Result<Json, Error>)
    ensures r.Success? <==> section.JObj?
    ensures r.Success? ==> r.value == GetOrNone(section.fields, key)
    ensures r.Failure? ==> r.error == PyError("AttributeError")
  {
    match section
    case JObj(fields) => Success(GetOrNone(fields, key))
    case _ => Failure(PyError("AttributeError"))
  }

  /** The configured `levels`. */
  function Levels(section: Json): Result<set<string>, Error>
  {
    var levels :- SectionGet(section, "levels");
    StringItems(levels)
  }

  /** `section.get(group).get(key)`, read as a set of lower-cased strings. */
  function Listed(section: Json, group: string, key: string): Result<set<string>, Error>
  {
    var g :- SectionGet(section, group);
    var entries :- SectionGet(g, key);
    StringItems(entries)
  }

  /** Every list of the section is readable. */
  predicate Readable(section: Json)
  {
    && Levels(section).Success?
    && Listed(section, "modules", "include").Success? && Listed(section, "modules", "exclude").Success?
    && Listed(section, "features", "include").Success? && Listed(section, "features", "exclude").Success?
  }

  /** The effective module set: included minus excluded modules, together with included minus excluded features. */
  function EffectiveModules(section: Json): set<string>
    requires Readable(section)
  {
    (Listed(section, "modules", "include").value - Listed(section, "modules", "exclude").value)
      + (Listed(section, "features", "include").value - Listed(section, "features", "exclude").value)
  }

  /**
   * `read_filters_yaml`: `None` for no configuration file, otherwise what
   * the file's loader returned, which is the whole file (the loader only
   * checks that its `filters` entry is a dict). The levels and the module
   * and feature lists are read at the top level of that file.
   */
  function ReadFiltersYaml(config: Option<Json>): (r: Result<FilterFindings, Error>)
    ensures config.None? ==> r == Success(NullFilter())
    ensures config.Some? && !Truthy(config.value) ==> r == Failure(FilterConfigError)
    ensures config.Some? && Truthy(config.value) ==>
      (r.Success? <==> Readable(config.value) && (Levels(config.value).value != {} || EffectiveModules(config.value) != {}))
    ensures config.Some? && Truthy(config.value) && Readable(config.value) && r.Failure? ==> r.error == FilterConfigError
    ensures config.Some? && r.Success? ==>
      r.value == FilterFindings(Levels(config.value).value, EffectiveModules(config.value), false)
  {
    if config.None? then Success(NullFilter())
    else
      var filterSection := config.value;
      if !Truthy(filterSection) then Failure(FilterConfigError)
      else
        var levels :- Levels(filterSection);
        var modulesInclude :- Listed(filterSection, "modules", "include");
        var modulesExclude :- Listed(filterSection, "modules", "exclude");
        var featuresInclude :- Listed(filterSection, "features", "include");
        var featuresExclude :- Listed(filterSection, "features", "exclude");
        var modulesFinal := (modulesInclude - modulesExclude) + (featuresInclude - featuresExclude);
        if levels == {} && modulesFinal == {} then Failure(FilterConfigError)
        else
          LowerSetOfLower(levels);
          LowerSetOfLower(modulesFinal);
          Success(NewFilter(levels, modulesFinal))
  }

  /** The lower-casings of a list of strings. */
  function LowerOf(xs: seq<string>): set<string>
  {
    set x | x in xs :: Lower(x)
  }

  /** A list of strings, as the comprehension reads it. */
  lemma StringListItems(xs: seq<string>)
    ensures StringItems(JArr(FilterCreation.Strings(xs))) == Success(LowerOf(xs))
  {
    var js := FilterCreation.Strings(xs);
    var got := set x | x in js && x.JStr? :: Lower(x.s);
    forall x | x in xs
      ensures Lower(x) in got
    {
      var i :| 0 <= i < |xs| && xs[i] == x;
      assert js[i] == JStr(x);
    }
    forall y | y in got
      ensures y in LowerOf(xs)
    {
      var j :| j in js && j.JStr? && Lower(j.s) == y;
      var i :| 0 <= i < |js| && js[i] == j;
      assert xs[i] in xs;
    }
    assert got == LowerOf(xs);
  }

  /**
   * The configuration file `FilterCreator` writes keeps everything under
   * `filters`. Read as written it has no top-level `modules`, so
   * `None.get("include")` raises `AttributeError`.
   */
  lemma WrittenConfigRefused(c: FilterCreation.FilterConfig)
    ensures ReadFiltersYaml(Some(FilterCreation.ConfigJson(c))) == Failure(PyError("AttributeError"))
  {
    var file := FilterCreation.ConfigJson(c);
    assert file.fields[1..] == [];
    assert GetOrNone(file.fields, "levels") == JNull;
    assert GetOrNone(file.fields, "modules") == JNull;
  }

  /**
   * `read_filters_yaml` reading the lists from the file's `filters` entry,
   * where the generated configuration keeps them and where
   * `FilterAudit.read_from_yaml` looks. The file must be a dict; a missing
   * or empty entry raises `FilterConfigError`.
   */
  function ReadFiltersSection(config: Option<Json>): (r: Result<FilterFindings, Error>)
    ensures config.None? ==> r == Success(NullFilter())
    ensures config.Some? && !config.value.JObj? ==> r == Failure(PyError("AttributeError"))
    ensures config.Some? && config.value.JObj? ==>
      var section := GetOrNone(config.value.fields, "filters");
      && (!Truthy(section) ==> r == Failure(FilterConfigError))
      && (Truthy(section) ==> (r.Success? <==> Readable(section) && (Levels(section).value != {} || EffectiveModules(section) != {})))
      && (r.Success? ==> r.value == FilterFindings(Levels(section).value, EffectiveModules(section), false))
  {
    if config.None? then Success(NullFilter())
    else
      var section :- SectionGet(config.value, "filters");
      ReadFiltersYaml(Some(section))
  }

  /** The lists of a generated `filters` entry, as the comprehensions read them. */
  lemma WrittenSectionLists(c: FilterCreation.FilterConfig, section: Json)
    requires FilterCreation.ConfigJson(c) == JObj([("filters", section)])
    ensures Truthy(section)
    ensures Levels(section) == Success(LowerOf(c.levels))
    ensures Listed(section, "modules", "include") == Success(LowerOf(c.modulesInclude))
    ensures Listed(section, "modules", "exclude") == Success(LowerOf(c.modulesExclude))
    ensures Listed(section, "features", "include") == Success(LowerOf(c.featuresInclude))
    ensures Listed(section, "features", "exclude") == Success(LowerOf(c.featuresExclude))
  {
    var fields := section.fields;
    GetFirstAt(fields, 0);
    GetFirstAt(fields, 1);
    GetFirstAt(fields, 2);
    var modules := fields[1].1.fields;
    var features := fields[2].1.fields;
    GetFirstAt(modules, 0);
    GetFirstAt(modules, 1);
    GetFirstAt(features, 0);
    GetFirstAt(features, 1);
    StringListItems(c.levels);
    StringListItems(c.modulesInclude);
    StringListItems(c.modulesExclude);
    StringListItems(c.featuresInclude);
    StringListItems(c.featuresExclude);
  }

  /**
   * Reading back a generated configuration: the filter holds the
   * lower-cased levels and `(modules include − exclude) ∪ (features
   * include − exclude)`, and only a configuration left with neither is
   * refused.
   */
  lemma WrittenConfigRead(c: FilterCreation.FilterConfig)
    ensures var levels := LowerOf(c.levels);
      var modules := (LowerOf(c.modulesInclude) - LowerOf(c.modulesExclude))
        + (LowerOf(c.featuresInclude) - LowerOf(c.featuresExclude));
      ReadFiltersSection(Some(FilterCreation.ConfigJson(c))) ==
        if levels == {} && modules == {} then Failure(FilterConfigError) else Success(FilterFindings(levels, modules, false))
  {
    var file := FilterCreation.ConfigJson(c);
    GetFirstAt(file.fields, 0);
    var section := file.fields[0].1;
    WrittenSectionLists(c, section);
  }
}
