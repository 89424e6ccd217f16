/**
 * `JsonLogVersion`: the registry from lower-cased log versions to mapper
 * classes, filled by the `log_version` class decorator, and the choice of
 * a mapper for one record.
 */
module LogVersions {
  import opened Wrappers
  import opened Dicts
  import opened JsonValues
  import opened Text
  import opened Errors
  import Constants

  /** The mapper classes of the current package. */
  datatype MapperClass = MapperJsonV1Class | MapperJsonV2Class | MapperJsonAuditClass

  /** The methods `MapperJsonBase` declares abstract. */
  const BASE_ABSTRACT: set<string> :=
    {"_get_message", "_get_timestamp_desc", "_get_additional_fields", "_get_thor_timestamp", "check_thor_log"}

  /** The abstract methods each class leaves without an implementation. */
  function AbstractMethods(c: MapperClass): (r: set<string>)
    ensures r <= BASE_ABSTRACT
    ensures c == MapperJsonV1Class ==> r == {"check_thor_log"}
  {
    match c
    case MapperJsonV1Class => BASE_ABSTRACT - {"_get_message", "_get_timestamp_desc", "_get_additional_fields", "_get_thor_timestamp"}
    case MapperJsonV2Class => BASE_ABSTRACT
    case MapperJsonAuditClass => BASE_ABSTRACT
  }

  /** `TimestampExtractor` declares `extract` abstract and implements nothing else. */
  const EXTRACTOR_ABSTRACT: set<string> := {"extract"}

  /** Python refuses to instantiate a class with abstract methods left. */
  function Construct(abstractMethods: set<string>): (r: Result<(), Error>)
    ensures r.Success? <==> abstractMethods == {}
    ensures r.Failure? ==> r.error == PyError("TypeError")
  {
    if abstractMethods == {} then Success(()) else Failure(PyError("TypeError"))
  }

  /**
   * `thor_mapper()` as written: the class itself must have no abstract
   * methods left, and then `MapperJsonBase.__init__` instantiates the
   * abstract `TimestampExtractor`. Neither can succeed, so no class of the
   * package yields a mapper.
   */
  function InstantiateAsWritten(c: MapperClass): (r: Result<MapperClass, Error>)
    ensures r == Failure(PyError("TypeError"))
  {
    assert "check_thor_log" in AbstractMethods(c);
    match Construct(AbstractMethods(c))
    case Failure(e) => Failure(e)
    case Success(_) =>
      match Construct(EXTRACTOR_ABSTRACT)
      case Failure(e) => Failure(e)
      case Success(_) => Success(c)
  }

  /**
   * `thor_mapper()` as evidently intended: a class that implements every
   * getter is instantiated with a concrete extractor. Only the v1 mapper
   * implements them; the v2 and audit classes stay abstract.
   */
  function Instantiate(c: MapperClass): (r: Result<MapperClass, Error>)
    ensures r.Success? <==> c == MapperJsonV1Class
    ensures r.Success? ==> r.value == c
    ensures r.Failure? ==> r.error == PyError("TypeError")
  {
    assert c != MapperJsonV1Class ==> "_get_message" in AbstractMethods(c) - {"check_thor_log"};
    match Construct(AbstractMethods(c) - {"check_thor_log"})
    case Failure(e) => Failure(e)
    case Success(_) => Success(c)
  }

  /**
   * The class `get_mapper_for_version` picks, before instantiating it. A
   * missing or `None` version means the audit trail when the record has an
   * audit timestamp key; a version that is not a string, or whose
   * lower-cased form is not registered, raises `VersionError`.
   */
  function ResolveVersion(registry: map<string, MapperClass>, jsonLine: Dict<Json>): (r: Result<MapperClass, Error>)
    ensures r.Failure? ==> r.error == VersionError
    ensures GetOrNone(jsonLine, Constants.LOG_VERSION).JStr? ==>
      var v := GetOrNone(jsonLine, Constants.LOG_VERSION).s;
      (r.Success? <==> Lower(v) in registry) && (r.Success? ==> r.value == registry[Lower(v)])
    ensures GetOrNone(jsonLine, Constants.LOG_VERSION) == JNull ==>
      (r.Success? <==> Constants.AUDIT_TIMESTAMP in Keys(jsonLine) && Lower(Constants.AUDIT_TRAIL) in registry)
      && (r.Success? ==> r.value == registry[Lower(Constants.AUDIT_TRAIL)])
    ensures !GetOrNone(jsonLine, Constants.LOG_VERSION).JStr? && GetOrNone(jsonLine, Constants.LOG_VERSION) != JNull ==>
      r.Failure?
  {
    var raw := GetOrNone(jsonLine, Constants.LOG_VERSION);
    var thorVersion :- if raw != JNull then Success(raw)
      else if Constants.AUDIT_TIMESTAMP in Keys(jsonLine) then Success(JStr(Constants.AUDIT_TRAIL))
      else Failure(VersionError);
    if !thorVersion.JStr? then Failure(VersionError)
    else if Lower(thorVersion.s) !in registry then Failure(VersionError)
    else Success(registry[Lower(thorVersion.s)])
  }

  /** The registry after the decorators `regs` have run, in order. */
  function Registered(registry: map<string, MapperClass>, regs: seq<(string, MapperClass)>): map<string, MapperClass>
    decreases |regs|
  {
    if regs == [] then registry else Registered(registry[Lower(regs[0].0) := regs[0].1], regs[1..])
  }

  /**
   * A lower-cased version ends up with the class of the last decorator
   * registering a version equal to it up to case, or keeps its earlier
   * entry when no decorator names it.
   */
  lemma {:induction false} RegisteredLookup(registry: map<string, MapperClass>, regs: seq<(string, MapperClass)>, k: string)
    decreases |regs|
    ensures k in Registered(registry, regs) <==> k in registry || exists i | 0 <= i < |regs| :: Lower(regs[i].0) == k
    ensures forall i | 0 <= i < |regs| && Lower(regs[i].0) == k && (forall j | i < j < |regs| :: Lower(regs[j].0) != k) ::
      Registered(registry, regs)[k] == regs[i].1
    ensures (forall i | 0 <= i < |regs| :: Lower(regs[i].0) != k) && k in registry ==> Registered(registry, regs)[k] == registry[k]
  {
    if regs != [] {
      var next := registry[Lower(regs[0].0) := regs[0].1];
      RegisteredLookup(next, regs[1..], k);
      forall i | 0 < i < |regs|
        ensures regs[i] == regs[1..][i - 1]
      {
      }
    }
  }

  class JsonLogVersion {
    /** `_mapper_log_version`. */
    var mapperLogVersion: map<string, MapperClass>

    constructor (registry: map<string, MapperClass>)
      ensures mapperLogVersion == registry
    {
      mapperLogVersion := registry;
    }

    /** The `log_version(v)` decorator applied to `mapperCls`: registers it under `v` lower-cased. */
    method LogVersion(logVersion: string, mapperCls: MapperClass) returns (r: MapperClass)
      modifies this
      ensures r == mapperCls
      ensures mapperLogVersion == old(mapperLogVersion)[Lower(logVersion) := mapperCls]
    {
      mapperLogVersion := mapperLogVersion[Lower(logVersion) := mapperCls];
      r := mapperCls;
    }

    /** The decorators of the imported mapper modules, run in import order. */
    method RegisterAll(regs: seq<(string, MapperClass)>)
      modifies this
      ensures mapperLogVersion == Registered(old(mapperLogVersion), regs)
    {
      var i := 0;
      while i < |regs|
        invariant 0 <= i <= |regs|
        invariant Registered(mapperLogVersion, regs[i..]) == Registered(old(mapperLogVersion), regs)
      {
        assert regs[i..][0] == regs[i] && regs[i..][1..] == regs[i + 1..];
        var _ := LogVersion(regs[i].0, regs[i].1);
        i := i + 1;
      }
    }

    /** `get_mapper_for_version`, against the registry this object holds. */
    function GetMapperForVersion(jsonLine: Dict<Json>): (r: Result<MapperClass, Error>)
      reads this
      ensures r == MapperForVersion(mapperLogVersion, jsonLine)
    {
      MapperForVersion(mapperLogVersion, jsonLine)
    }
  }

  /**
   * `get_mapper_for_version` with the instantiation as evidently intended:
   * only the v1 mapper is ever obtained, an unresolved version is a
   * `VersionError`, and any other class fails to instantiate.
   */
  function MapperForVersion(registry: map<string, MapperClass>, jsonLine: Dict<Json>): (r: Result<MapperClass, Error>)
    ensures r.Success? ==> r.value == MapperJsonV1Class
    ensures r.Success? <==> ResolveVersion(registry, jsonLine) == Success(MapperJsonV1Class)
    ensures ResolveVersion(registry, jsonLine).Failure? ==> r == Failure(VersionError)
    ensures ResolveVersion(registry, jsonLine).Success? && r.Failure? ==> r.error == PyError("TypeError")
  {
    var mapperCls :- ResolveVersion(registry, jsonLine);
    Instantiate(mapperCls)
  }

  /** `get_mapper_for_version` as written: it never returns a mapper. */
  function GetMapperForVersionAsWritten(registry: map<string, MapperClass>, jsonLine: Dict<Json>): (r: Result<MapperClass, Error>)
    ensures r.Failure?
    ensures ResolveVersion(registry, jsonLine).Success? ==> r.error == PyError("TypeError")
  {
    var mapperCls :- ResolveVersion(registry, jsonLine);
    InstantiateAsWritten(mapperCls)
  }

  /** A v1 record against the registry the v1 decorator builds: refused as written, mapped as intended. */
  lemma InstantiationFinding(jsonLine: Dict<Json>)
    requires GetOrNone(jsonLine, Constants.LOG_VERSION) == JStr("v1.0.0")
    ensures GetMapperForVersionAsWritten(Registered(map[], [("v1.0.0", MapperJsonV1Class)]), jsonLine) == Failure(PyError("TypeError"))
    ensures Instantiate(MapperJsonV1Class) == Success(MapperJsonV1Class)
    ensures ResolveVersion(Registered(map[], [("v1.0.0", MapperJsonV1Class)]), jsonLine) == Success(MapperJsonV1Class)
  {
    assert Lower("v1.0.0") == "v1.0.0";
  }

  /** Versions that differ only in case choose the same mapper. */
  lemma CaseInsensitive(registry: map<string, MapperClass>, a: Dict<Json>, b: Dict<Json>)
    requires GetOrNone(a, Constants.LOG_VERSION).JStr? && GetOrNone(b, Constants.LOG_VERSION).JStr?
    requires Lower(GetOrNone(a, Constants.LOG_VERSION).s) == Lower(GetOrNone(b, Constants.LOG_VERSION).s)
    ensures ResolveVersion(registry, a) == ResolveVersion(registry, b)
  {
  }

  /**
   * The v1 and v2 classes both register "v1.0.0": whichever decorator runs
   * last owns the version.
   */
  lemma VersionCollision(registry: map<string, MapperClass>, first: MapperClass, second: MapperClass)
    ensures var r := Registered(registry, [("v1.0.0", first), ("v1.0.0", second)]);
      "v1.0.0" in r && r["v1.0.0"] == second
  {
    assert Lower("v1.0.0") == "v1.0.0";
    RegisteredLookup(registry, [("v1.0.0", first), ("v1.0.0", second)], "v1.0.0");
  }
}
