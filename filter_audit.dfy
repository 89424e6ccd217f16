/**
 * `FilterAudit`: which part of an audit-trail record (its findings or its
 * info section) is processed, and how that choice is configured.
 */
module AuditFilters {
  import opened Wrappers
  import opened Dicts
  import opened JsonValues
  import opened Text
  import opened Errors
  import Constants

  /** The lower-cased selectors that are allowed. */
  datatype FilterAudit = FilterAudit(allowedFilters: set<string>)

  /** The constructor: exactly the lower-casings of the given selectors are allowed. */
  function NewFilterAudit(auditTrail: set<string>): (r: FilterAudit)
    ensures forall y | y in auditTrail :: Lower(y) in r.allowedFilters
    ensures forall x | x in r.allowedFilters :: IsLower(x)
    ensures forall x | x in r.allowedFilters :: exists y | y in auditTrail :: Lower(y) == x
    ensures |r.allowedFilters| <= |auditTrail|
  {
    FilterAudit(LowerSet(auditTrail))
  }

  /** `null_filter`: both selectors, lower-cased. */
  function NullFilterAudit(): (r: FilterAudit)
    ensures r.allowedFilters == {Lower(Constants.AUDIT_INFO), Lower(Constants.AUDIT_FINDING)}
  {
    LowerIdempotent(Constants.AUDIT_INFO);
    LowerIdempotent(Constants.AUDIT_FINDING);
    NewFilterAudit({Lower(Constants.AUDIT_INFO), Lower(Constants.AUDIT_FINDING)})
  }

  /**
   * `read_from_yaml`: an empty or missing path gives the null filter;
   * otherwise `loaded` is what the configuration loader returned. The
   * selectors listed under `filters` / `AUDIT_TRAIL` are used, both
   * selectors when that list is empty.
   */
  function ReadFromYaml(configPath: Option<string>, loaded: Json): (r: Result<FilterAudit, Error>)
    ensures configPath.None? || configPath == Some("") ==> r == Success(NullFilterAudit())
    ensures configPath.Some? && configPath.value != "" ==> (r.Success? <==> SelectorsOf(loaded).Success?)
    ensures configPath.Some? && configPath.value != "" && r.Success? ==>
      r.value == NewFilterAudit(if SelectorsOf(loaded).value == {} then {Constants.AUDIT_INFO, Constants.AUDIT_FINDING}
        else SelectorsOf(loaded).value)
  {
    if configPath.None? || configPath.value == "" then Success(NullFilterAudit())
    else
      var allowedFilters :- SelectorsOf(loaded);
      Success(NewFilterAudit(if allowedFilters == {} then {Constants.AUDIT_INFO, Constants.AUDIT_FINDING} else allowedFilters))
  }

  /**
   * `set(filter_file.get("filters", {}).get(AUDIT_TRAIL))`, as far as the
   * constructor then accepts it: the file and its `filters` entry must be
   * dicts, the entry must be iterable, its items hashable (no lists or
   * dicts) and, for `lower`, strings. A missing `filters` entry gives
   * `set(None)`, which is not iterable.
   */
  function SelectorsOf(loaded: Json): (r: Result<set<string>, Error>)
    ensures r.Success? ==> loaded.JObj?
    ensures !loaded.JObj? ==> r == Failure(PyError("AttributeError"))
    ensures loaded.JObj? && "filters" !in Keys(loaded.fields) ==> r == Failure(PyError("TypeError"))
    ensures loaded.JObj? && "filters" in Keys(loaded.fields) && !GetOrNone(loaded.fields, "filters").JObj? ==>
      r == Failure(PyError("AttributeError"))
    ensures loaded.JObj? && GetOrNone(loaded.fields, "filters").JObj? ==>
      var entry := GetOrNone(GetOrNone(loaded.fields, "filters").fields, Constants.AUDIT_TRAIL);
      && (!entry.JArr? && !entry.JObj? && !entry.JStr? ==> r == Failure(PyError("TypeError")))
      && (entry.JObj? ==> r == Success(set k | k in Keys(entry.fields)))
      && (entry.JStr? ==> r == Success(set c | c in entry.s :: [c]))
      && (entry.JArr? ==> (r.Success? <==> forall i | 0 <= i < |entry.items| :: entry.items[i].JStr?))
      && (entry.JArr? && (exists i | 0 <= i < |entry.items| :: entry.items[i].JArr? || entry.items[i].JObj?) ==>
            r == Failure(PyError("TypeError")))
      && (entry.JArr? && (forall i | 0 <= i < |entry.items| :: !entry.items[i].JArr? && !entry.items[i].JObj?) && r.Failure? ==>
            r == Failure(PyError("AttributeError")))
      && (entry.JArr? && r.Success? ==> forall x :: x in r.value <==> JStr(x) in entry.items)
  {
    if !loaded.JObj? then Failure(PyError("AttributeError"))
    else
      var filtersSection := if "filters" in Keys(loaded.fields) then GetOrNone(loaded.fields, "filters") else JObj([]);
      if !filtersSection.JObj? then Failure(PyError("AttributeError"))
      else
        var entry := GetOrNone(filtersSection.fields, Constants.AUDIT_TRAIL);
        var items :- Iterate(entry);
        IteratedStrings(entry);
        if exists i | 0 <= i < |items| :: items[i].JArr? || items[i].JObj? then Failure(PyError("TypeError"))
        else if exists i | 0 <= i < |items| :: !items[i].JStr? then Failure(PyError("AttributeError"))
        else Success(set i | 0 <= i < |items| :: items[i].s)
  }

  /** Iterating a dict gives its keys and iterating a string its characters, as strings. */
  lemma IteratedStrings(entry: Json)
    requires Iterate(entry).Success?
    ensures var items := Iterate(entry).value;
      && (entry.JObj? ==> (set i | 0 <= i < |items| :: items[i].s) == set k | k in Keys(entry.fields))
      && (entry.JStr? ==> (set i | 0 <= i < |items| :: items[i].s) == set c | c in entry.s :: [c])
  {
    var items := Iterate(entry).value;
    if entry.JObj? {
      var got := set i | 0 <= i < |items| :: items[i].s;
      forall k | k in Keys(entry.fields)
        ensures k in got
      {
        var i :| 0 <= i < |entry.fields| && Keys(entry.fields)[i] == k;
        assert items[i].s == k;
      }
    } else if entry.JStr? {
      var got := set i | 0 <= i < |items| :: items[i].s;
      forall c | c in entry.s
        ensures [c] in got
      {
        var i :| 0 <= i < |entry.s| && entry.s[i] == c;
        assert items[i].s == [c];
      }
    }
  }

  /** `AUDIT_FINDING in audit_json and isinstance(audit_json[AUDIT_FINDING], list)`. */
  predicate HasFindings(auditJson: Dict<Json>)
  {
    Constants.AUDIT_FINDING in Keys(auditJson) && GetOrNone(auditJson, Constants.AUDIT_FINDING).JArr?
  }

  /** `AUDIT_INFO in audit_json and isinstance(audit_json[AUDIT_INFO], dict)`. */
  predicate HasInfo(auditJson: Dict<Json>)
  {
    Constants.AUDIT_INFO in Keys(auditJson) && GetOrNone(auditJson, Constants.AUDIT_INFO).JObj?
  }

  /**
   * `get_audit_trail_selector`: with both selectors allowed, findings win
   * over info; with one allowed, that one when its section has the right
   * shape; `None` otherwise. The constants are compared as they are,
   * against the lower-cased allowed set.
   */
  function GetAuditTrailSelector(f: FilterAudit, auditJson: Dict<Json>): (r: Option<string>)
    ensures r.Some? ==>
      || (r.value == Constants.AUDIT_FINDING && Constants.AUDIT_FINDING in f.allowedFilters && HasFindings(auditJson))
      || (r.value == Constants.AUDIT_INFO && Constants.AUDIT_INFO in f.allowedFilters && HasInfo(auditJson))
    ensures Constants.AUDIT_FINDING in f.allowedFilters && HasFindings(auditJson) ==> r == Some(Constants.AUDIT_FINDING)
    ensures Constants.AUDIT_INFO in f.allowedFilters && HasInfo(auditJson) && !(Constants.AUDIT_FINDING in f.allowedFilters && HasFindings(auditJson)) ==>
      r == Some(Constants.AUDIT_INFO)
    ensures r.None? <==>
      !(Constants.AUDIT_FINDING in f.allowedFilters && HasFindings(auditJson)) && !(Constants.AUDIT_INFO in f.allowedFilters && HasInfo(auditJson))
  {
    var hasFindings := HasFindings(auditJson);
    var hasInfo := HasInfo(auditJson);
    if Constants.AUDIT_FINDING in f.allowedFilters && Constants.AUDIT_INFO in f.allowedFilters then
      if hasFindings then Some(Constants.AUDIT_FINDING)
      else if hasInfo then Some(Constants.AUDIT_INFO)
      else None
    else if Constants.AUDIT_INFO in f.allowedFilters && hasInfo then Some(Constants.AUDIT_INFO)
    else if Constants.AUDIT_FINDING in f.allowedFilters && hasFindings then Some(Constants.AUDIT_FINDING)
    else None
  }

  /**
   * With lower-case selector constants, the null filter selects findings
   * when they are a list and info otherwise, when that is a dict.
   */
  lemma NullFilterSelects(auditJson: Dict<Json>)
    requires IsLower(Constants.AUDIT_INFO) && IsLower(Constants.AUDIT_FINDING)
    ensures GetAuditTrailSelector(NullFilterAudit(), auditJson) ==
      if HasFindings(auditJson) then Some(Constants.AUDIT_FINDING)
      else if HasInfo(auditJson) then Some(Constants.AUDIT_INFO)
      else None
  {
    assert Constants.AUDIT_INFO in NullFilterAudit().allowedFilters;
    assert Constants.AUDIT_FINDING in NullFilterAudit().allowedFilters;
  }

  /** A selector constant with an upper-case letter is never selected: the allowed set holds only lower-case strings. */
  lemma UpperCaseSelectorNeverChosen(auditTrail: set<string>, auditJson: Dict<Json>)
    requires !IsLower(Constants.AUDIT_FINDING)
    ensures GetAuditTrailSelector(NewFilterAudit(auditTrail), auditJson) != Some(Constants.AUDIT_FINDING)
  {
  }
}
