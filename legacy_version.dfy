/**
 * `THORJSONLogVersionMapper.get_mapper` of the legacy package: the mapper
 * class is chosen by the prefix of the lower-cased `log_version` field,
 * and then instantiated.
 */
module LegacyVersion {
  import opened Wrappers
  import opened Dicts
  import opened JsonValues
  import opened Text
  import opened Errors
  import LogVersions

  /** The legacy mapper classes `get_mapper` can return. */
  datatype LegacyMapperClass = ThorMapperJsonV2 | ThorMapperJsonV3

  /** The methods `THORMapperJson` declares abstract. */
  const LEGACY_ABSTRACT: set<string> :=
    {"_get_message", "_get_datetime", "_get_timestamp_desc", "_get_additional_fields"}

  /** The abstract methods each class leaves without an implementation: V2 only adds constants, V3 overrides all four. */
  function AbstractLeft(c: LegacyMapperClass): set<string>
  {
    match c
    case ThorMapperJsonV2 => LEGACY_ABSTRACT
    case ThorMapperJsonV3 => {}
  }

  /** `c` is the letter `v` in either case. */
  predicate IsV(c: char)
  {
    c == 'v' || c == 'V'
  }

  /**
   * The class `get_mapper` chooses. A record whose `log_version` is
   * missing or not a string fails on `.lower()` with `AttributeError`; a
   * version without a known prefix raises `ValueError`. Note that "v1"
   * selects the V2 mapper.
   */
  function SelectMapper(jsonLine: Dict<Json>): (r: Result<LegacyMapperClass, Error>)
    ensures var v := GetOrNone(jsonLine, "log_version");
      r == Failure(PyError("AttributeError")) <==> !v.JStr?
    ensures var v := GetOrNone(jsonLine, "log_version");
      r == Success(ThorMapperJsonV2) <==> v.JStr? && |v.s| >= 2 && IsV(v.s[0]) && v.s[1] == '1'
    ensures var v := GetOrNone(jsonLine, "log_version");
      r == Success(ThorMapperJsonV3) <==> v.JStr? && |v.s| >= 2 && IsV(v.s[0]) && v.s[1] == '3'
    ensures var v := GetOrNone(jsonLine, "log_version");
      r == Failure(PyError("ValueError")) <==>
        v.JStr? && !(|v.s| >= 2 && IsV(v.s[0]) && (v.s[1] == '1' || v.s[1] == '3'))
  {
    var logVersion := GetOrNone(jsonLine, "log_version");
    if !logVersion.JStr? then Failure(PyError("AttributeError"))
    else
      var lowered := Lower(logVersion.s);
      PrefixOfLower(logVersion.s, "v1");
      PrefixOfLower(logVersion.s, "v3");
      if StartsWith(lowered, "v1") then Success(ThorMapperJsonV2)
      else if StartsWith(lowered, "v3") then Success(ThorMapperJsonV3)
      else Failure(PyError("ValueError"))
  }

  /**
   * `get_mapper` as written: the chosen class is instantiated, and Python
   * refuses the V2 class, whose abstract methods are all left. So a "v1"
   * version raises `TypeError`, and only a "v3" version yields a mapper.
   */
  function GetMapper(jsonLine: Dict<Json>): (r: Result<LegacyMapperClass, Error>)
    ensures var v := GetOrNone(jsonLine, "log_version");
      r == Failure(PyError("AttributeError")) <==> !v.JStr?
    ensures var v := GetOrNone(jsonLine, "log_version");
      r == Failure(PyError("TypeError")) <==> v.JStr? && |v.s| >= 2 && IsV(v.s[0]) && v.s[1] == '1'
    ensures var v := GetOrNone(jsonLine, "log_version");
      r == Success(ThorMapperJsonV3) <==> v.JStr? && |v.s| >= 2 && IsV(v.s[0]) && v.s[1] == '3'
    ensures var v := GetOrNone(jsonLine, "log_version");
      r == Failure(PyError("ValueError")) <==>
        v.JStr? && !(|v.s| >= 2 && IsV(v.s[0]) && (v.s[1] == '1' || v.s[1] == '3'))
    ensures r.Success? ==> r == SelectMapper(jsonLine)
  {
    var c :- SelectMapper(jsonLine);
    var _ :- LogVersions.Construct(AbstractLeft(c));
    Success(c)
  }

  /** A "v1.0.0" record selects the V2 class, which cannot be instantiated. */
  lemma LegacyInstantiationFinding()
    ensures SelectMapper([("log_version", JStr("v1.0.0"))]) == Success(ThorMapperJsonV2)
    ensures GetMapper([("log_version", JStr("v1.0.0"))]) == Failure(PyError("TypeError"))
  {
    var line := [("log_version", JStr("v1.0.0"))];
    assert GetOrNone(line, "log_version") == JStr("v1.0.0");
  }

  /** Starting with `p` after lower-casing, for a two-character `v<digit>` prefix. */
  lemma PrefixOfLower(s: string, p: string)
    requires p == "v1" || p == "v3"
    ensures StartsWith(Lower(s), p) <==> |s| >= 2 && IsV(s[0]) && s[1] == p[1]
  {
    if |s| >= 2 {
      assert Lower(s)[..2] == [LowerChar(s[0]), LowerChar(s[1])];
    }
  }

  /** The choice ignores everything after the two-character prefix. */
  lemma GetMapperPrefixOnly(jsonLine: Dict<Json>, other: Dict<Json>)
    requires GetOrNone(jsonLine, "log_version").JStr? && GetOrNone(other, "log_version").JStr?
    requires var s, t := GetOrNone(jsonLine, "log_version").s, GetOrNone(other, "log_version").s;
      |s| >= 2 && |t| >= 2 && Lower(s[..2]) == Lower(t[..2])
    ensures SelectMapper(jsonLine) == SelectMapper(other)
    ensures GetMapper(jsonLine) == GetMapper(other)
  {
    var s, t := GetOrNone(jsonLine, "log_version").s, GetOrNone(other, "log_version").s;
    assert Lower(s[..2])[0] == LowerChar(s[0]) && Lower(s[..2])[1] == LowerChar(s[1]);
    assert Lower(t[..2])[0] == LowerChar(t[0]) && Lower(t[..2])[1] == LowerChar(t[1]);
  }
}
