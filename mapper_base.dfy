/**
 * `MapperJsonBase`: the fan-out of one THOR record into Timesketch events,
 * with the v1 getters. The scan event comes first; every timestamp the
 * extractor finds adds one more event when it is a different instant from
 * the scan time AND sits at a different path.
 *
 * The timestamp extractor is a parameter (`extract`), and so are the date
 * functions (`lib`) behind `is_same_timestamp`.
 */
module MapperJsonBase {
  import opened Wrappers
  import opened Dicts
  import opened JsonValues
  import opened Errors
  import opened Dates
  import opened Seqs
  import opened MappedEvents
  import opened MapperJsonV1

  /** `_create_thor_scan_event` on values: message, scan time, scan description and the additional fields. */
  function ScanEventValue(jsonLog: Dict<Json>): (r: Result<EventValue, Error>)
    ensures r.Success? <==> GetMessage(jsonLog).Success? && GetThorTimestamp(jsonLog).Success?
    ensures r.Failure? ==> r.error == if GetMessage(jsonLog).Failure? then MappingError else TimestampError
    ensures r.Success? ==> r.value == EventValue(GetMessage(jsonLog).value, GetThorTimestamp(jsonLog).value.datetime,
      SCAN_DESCRIPTION, None, Update([], GetAdditionalFields(jsonLog)))
  {
    var message :- GetMessage(jsonLog);
    var thor :- GetThorTimestamp(jsonLog);
    var desc := GetTimestampDesc(jsonLog, None).value;
    Success(EventValue(message, thor.datetime, desc, None, Update([], GetAdditionalFields(jsonLog))))
  }

  /** `_create_additional_timestamp_event` on values. */
  function AdditionalEventValue(jsonLog: Dict<Json>, tsData: DatetimeField): (r: Result<EventValue, Error>)
    ensures r.Success? <==> (GetMessage(jsonLog).Success? && GetTimestampDesc(jsonLog, Some(tsData)).Success?
      && GetThorTimestamp(jsonLog).Success?)
    ensures r.Failure? ==> r.error == (if GetMessage(jsonLog).Success? && GetTimestampDesc(jsonLog, Some(tsData)).Success?
      then TimestampError else MappingError)
    ensures r.Success? ==>
      && r.value.message == GetMessage(jsonLog).value
      && r.value.datetime == tsData.datetime
      && r.value.timestampDesc == GetTimestampDesc(jsonLog, Some(tsData)).value
      && r.value.timeThorScan == Some(GetThorTimestamp(jsonLog).value.datetime)
      && r.value.additionalFields == Update([], GetAdditionalFields(jsonLog))
  {
    var message :- GetMessage(jsonLog);
    var desc :- GetTimestampDesc(jsonLog, Some(tsData));
    var thor :- GetThorTimestamp(jsonLog);
    Success(EventValue(message, tsData.datetime, desc, Some(thor.datetime), Update([], GetAdditionalFields(jsonLog))))
  }

  /** Whether the comprehension keeps `ts`, once both date strings have parsed. */
  predicate Keeps(lib: DateLib, thor: DatetimeField, ts: DatetimeField)
  {
    match (lib.isoparse(ts.datetime), lib.isoparse(thor.datetime))
    case (Some(d1), Some(d2)) => !SameInstant(d1, d2) && ts.path != thor.path
    case _ => false
  }

  /** The timestamps of `tss` the comprehension keeps, in order. */
  function Kept(lib: DateLib, tss: seq<DatetimeField>, thor: DatetimeField): seq<DatetimeField>
  {
    Filter(tss, ts => Keeps(lib, thor, ts))
  }

  /** Every date string of `tss`, and the scan time `thor` when `tss` is not empty, parses. */
  predicate AllParse(lib: DateLib, tss: seq<DatetimeField>, thor: DatetimeField)
  {
    (tss != [] ==> lib.isoparse(thor.datetime).Some?)
    && forall i | 0 <= i < |tss| :: lib.isoparse(tss[i].datetime).Some?
  }

  /**
   * The `ts_additional` comprehension. `is_same_timestamp` is called for
   * every element before the path test, so one unparseable date anywhere
   * raises `MappingError`; otherwise the kept elements are exactly those
   * that differ in both instant and path, in the extractor's order.
   */
  function KeptTimestamps(lib: DateLib, tss: seq<DatetimeField>, thor: DatetimeField): (r: Result<seq<DatetimeField>, Error>)
    ensures r.Success? <==> AllParse(lib, tss, thor)
    ensures r.Failure? ==> r.error == MappingError
    ensures r.Success? ==> r.value == Kept(lib, tss, thor)
  {
    if tss == [] then Success([])
    else
      var same :- IsSameTimestamp(lib, tss[0].datetime, thor.datetime);
      var rest :- KeptTimestamps(lib, tss[1..], thor);
      assert AllParse(lib, tss, thor) by {
        forall i | 0 <= i < |tss|
          ensures lib.isoparse(tss[i].datetime).Some?
        {
          if i > 0 {
            assert tss[i] == tss[1..][i - 1];
          }
        }
      }
      Success(if !same && tss[0].path != thor.path then [tss[0]] + rest else rest)
  }

  /** The extra events, one per kept timestamp; the first that fails ends the list. */
  function AdditionalEventValues(jsonLog: Dict<Json>, kept: seq<DatetimeField>): (r: Result<seq<EventValue>, Error>)
    ensures r.Success? ==> |r.value| == |kept|
  {
    if kept == [] then Success([])
    else
      var v :- AdditionalEventValue(jsonLog, kept[0]);
      var rest :- AdditionalEventValues(jsonLog, kept[1..]);
      Success([v] + rest)
  }

  /** The events of one record, as event states. */
  function MapThorEventsValues(lib: DateLib, extract: Dict<Json> -> seq<DatetimeField>, jsonLog: Dict<Json>): Result<seq<EventValue>, Error>
  {
    var thor :- GetThorTimestamp(jsonLog);
    var scan :- ScanEventValue(jsonLog);
    var kept :- KeptTimestamps(lib, extract(jsonLog), thor);
    var extras :- AdditionalEventValues(jsonLog, kept);
    Success([scan] + extras)
  }

  /** `prefix` followed by the images of a successful result; a failure stays that failure. */
  function Prefixed<A, B, E>(prefix: seq<B>, f: A -> B, r: Result<seq<A>, E>): Result<seq<B>, E>
  {
    match r
    case Success(vs) => Success(prefix + Map(f, vs))
    case Failure(e) => Failure(e)
  }

  /** One element moved from the pending result onto the prefix. */
  lemma PrefixedStep<A, B, E>(prefix: seq<B>, f: A -> B, v: A, rest: Result<seq<A>, E>)
    ensures Prefixed(prefix + [f(v)], f, rest) ==
      Prefixed(prefix, f, if rest.Success? then Success([v] + rest.value) else Failure(rest.error))
  {
    if rest.Success? {
      MapCons(f, v, rest.value);
      ConcatAssoc(prefix, [f(v)], Map(f, rest.value));
    }
  }

  /** What `map_thor_events` returns or raises. */
  function MapThorEventsSpec(lib: DateLib, extract: Dict<Json> -> seq<DatetimeField>, jsonLog: Dict<Json>): Result<seq<Dict<Json>>, Error>
  {
    Prefixed([], EventDict, MapThorEventsValues(lib, extract, jsonLog))
  }

  /** `_create_thor_scan_event`. */
  method CreateThorScanEvent(jsonLog: Dict<Json>) returns (r: Result<MappedEvent, Error>)
    ensures r.Success? <==> ScanEventValue(jsonLog).Success?
    ensures r.Failure? ==> r.error == ScanEventValue(jsonLog).error
    ensures r.Success? ==> fresh(r.value) && r.value.Value() == ScanEventValue(jsonLog).value
  {
    var message := GetMessage(jsonLog);
    if message.Failure? {
      return Failure(message.error);
    }
    var thorTimestamp := GetThorTimestamp(jsonLog);
    if thorTimestamp.Failure? {
      return Failure(thorTimestamp.error);
    }
    var timestampDesc := GetTimestampDesc(jsonLog, None);
    var event := new MappedEvent(message.value, thorTimestamp.value.datetime, timestampDesc.value, None);
    event.AddAdditional(GetAdditionalFields(jsonLog));
    return Success(event);
  }

  /** `_create_additional_timestamp_event`. */
  method CreateAdditionalTimestampEvent(jsonLog: Dict<Json>, tsData: DatetimeField) returns (r: Result<MappedEvent, Error>)
    ensures r.Success? <==> AdditionalEventValue(jsonLog, tsData).Success?
    ensures r.Failure? ==> r.error == AdditionalEventValue(jsonLog, tsData).error
    ensures r.Success? ==> fresh(r.value) && r.value.Value() == AdditionalEventValue(jsonLog, tsData).value
  {
    var message := GetMessage(jsonLog);
    if message.Failure? {
      return Failure(message.error);
    }
    var timestampDesc := GetTimestampDesc(jsonLog, Some(tsData));
    if timestampDesc.Failure? {
      return Failure(timestampDesc.error);
    }
    var thorTimestamp := GetThorTimestamp(jsonLog);
    if thorTimestamp.Failure? {
      return Failure(thorTimestamp.error);
    }
    var event := new MappedEvent(message.value, tsData.datetime, timestampDesc.value, Some(thorTimestamp.value.datetime));
    event.AddAdditional(GetAdditionalFields(jsonLog));
    return Success(event);
  }

  /** `map_thor_events`. */
  method MapThorEvents(lib: DateLib, extract: Dict<Json> -> seq<DatetimeField>, jsonLog: Dict<Json>)
    returns (r: Result<seq<Dict<Json>>, Error>)
    ensures r == MapThorEventsSpec(lib, extract, jsonLog)
  {
    var events: seq<Dict<Json>> := [];
    var thorTimestamp := GetThorTimestamp(jsonLog);
    if thorTimestamp.Failure? {
      return Failure(thorTimestamp.error);
    }
    var thorEvent := CreateThorScanEvent(jsonLog);
    if thorEvent.Failure? {
      return Failure(thorEvent.error);
    }
    var scanDict := thorEvent.value.ToDict();
    events := events + [scanDict];
    var timestampsFromLog := extract(jsonLog);
    var tsAdditional := KeptTimestamps(lib, timestampsFromLog, thorTimestamp.value);
    if tsAdditional.Failure? {
      return Failure(tsAdditional.error);
    }
    var kept := tsAdditional.value;
    PrefixedStep([], EventDict, thorEvent.value.Value(), AdditionalEventValues(jsonLog, kept));
    assert [] + [scanDict] == events;
    r := AdditionalTimestampEvents(jsonLog, kept, events);
  }

  /** The loop of `map_thor_events` over the kept timestamps, after `events`. */
  method AdditionalTimestampEvents(jsonLog: Dict<Json>, kept: seq<DatetimeField>, events0: seq<Dict<Json>>)
    returns (r: Result<seq<Dict<Json>>, Error>)
    ensures r == Prefixed(events0, EventDict, AdditionalEventValues(jsonLog, kept))
  {
    var events := events0;
    var i := 0;
    while i < |kept|
      invariant 0 <= i <= |kept|
      invariant Prefixed(events, EventDict, AdditionalEventValues(jsonLog, kept[i..]))
        == Prefixed(events0, EventDict, AdditionalEventValues(jsonLog, kept))
    {
      var event := CreateAdditionalTimestampEvent(jsonLog, kept[i]);
      AdditionalStep(jsonLog, kept, i, events);
      if event.Failure? {
        return Failure(event.error);
      }
      var eventDict := event.value.ToDict();
      events := events + [eventDict];
      i := i + 1;
    }
    AdditionalDone(jsonLog, kept, i, events);
    return Success(events);
  }

  /** One turn of the loop: a failing event is the outcome, a successful one joins the prefix. */
  lemma AdditionalStep(jsonLog: Dict<Json>, kept: seq<DatetimeField>, i: nat, events: seq<Dict<Json>>)
    requires i < |kept|
    ensures var v := AdditionalEventValue(jsonLog, kept[i]);
      var now := Prefixed(events, EventDict, AdditionalEventValues(jsonLog, kept[i..]));
      && (v.Failure? ==> now == Failure(v.error))
      && (v.Success? ==> now == Prefixed(events + [EventDict(v.value)], EventDict, AdditionalEventValues(jsonLog, kept[i + 1..])))
  {
    assert kept[i..][0] == kept[i] && kept[i..][1..] == kept[i + 1..];
    var v := AdditionalEventValue(jsonLog, kept[i]);
    if v.Success? {
      PrefixedStep(events, EventDict, v.value, AdditionalEventValues(jsonLog, kept[i + 1..]));
    }
  }

  /** After the last timestamp the prefix is the outcome. */
  lemma AdditionalDone(jsonLog: Dict<Json>, kept: seq<DatetimeField>, i: nat, events: seq<Dict<Json>>)
    requires i == |kept|
    ensures Prefixed(events, EventDict, AdditionalEventValues(jsonLog, kept[i..])) == Success(events)
  {
    assert kept[i..] == [];
    assert events + [] == events;
  }

  /**
   * The extra events for timestamps outside `time`: they exist exactly when
   * there are none, or the record has a message, a module and a scan time,
   * and each carries its field's time, `"<module> - <path>"` and the scan time.
   */
  lemma {:induction false} AdditionalEventValuesSpec(jsonLog: Dict<Json>, kept: seq<DatetimeField>)
    requires forall i | 0 <= i < |kept| :: kept[i].path != THOR_TIMESTAMP_FIELD
    ensures var r := AdditionalEventValues(jsonLog, kept);
      r.Success? <==> (kept == [] ||
        (GetMessage(jsonLog).Success? && GetOrNone(jsonLog, THOR_MODULE_FIELD) != JNull && GetThorTimestamp(jsonLog).Success?))
    ensures var r := AdditionalEventValues(jsonLog, kept);
      r.Failure? ==> r.error == (if GetMessage(jsonLog).Success? && GetOrNone(jsonLog, THOR_MODULE_FIELD) != JNull
        then TimestampError else MappingError)
    ensures var r := AdditionalEventValues(jsonLog, kept);
      r.Success? ==> forall i | 0 <= i < |kept| ::
        && r.value[i].datetime == kept[i].datetime
        && r.value[i].timestampDesc == PyStr(GetOrNone(jsonLog, THOR_MODULE_FIELD)) + " - " + kept[i].path
        && r.value[i].timeThorScan == Some(GetThorTimestamp(jsonLog).value.datetime)
  {
    if kept != [] {
      AdditionalEventValuesSpec(jsonLog, kept[1..]);
      var r := AdditionalEventValues(jsonLog, kept);
      if r.Success? {
        AdditionalEventValuesEach(jsonLog, kept);
      }
    }
  }

  /** Each extra event is the one `_create_additional_timestamp_event` gives for its timestamp. */
  lemma {:induction false} AdditionalEventValuesEach(jsonLog: Dict<Json>, kept: seq<DatetimeField>)
    requires AdditionalEventValues(jsonLog, kept).Success?
    ensures forall i | 0 <= i < |kept| ::
      && AdditionalEventValue(jsonLog, kept[i]).Success?
      && AdditionalEventValues(jsonLog, kept).value[i] == AdditionalEventValue(jsonLog, kept[i]).value
  {
    if kept != [] {
      AdditionalEventValuesEach(jsonLog, kept[1..]);
      forall i | 0 < i < |kept|
        ensures kept[i] == kept[1..][i - 1]
      {
      }
    }
  }

  /**
   * `map_thor_events` on values. Without a string `time` it raises
   * `TimestampError`; it succeeds exactly when the record also has a
   * message, every extracted date parses, and a module exists whenever a
   * timestamp is kept.
   */
  lemma MapThorEventsOutcome(lib: DateLib, extract: Dict<Json> -> seq<DatetimeField>, jsonLog: Dict<Json>)
    ensures GetThorTimestamp(jsonLog).Failure? ==> MapThorEventsValues(lib, extract, jsonLog) == Failure(TimestampError)
    ensures GetThorTimestamp(jsonLog).Success? && GetMessage(jsonLog).Failure? ==>
      MapThorEventsValues(lib, extract, jsonLog) == Failure(MappingError)
    ensures GetThorTimestamp(jsonLog).Success? && !AllParse(lib, extract(jsonLog), GetThorTimestamp(jsonLog).value) ==>
      MapThorEventsValues(lib, extract, jsonLog) == Failure(MappingError)
    ensures MapThorEventsValues(lib, extract, jsonLog).Success? <==>
      && GetThorTimestamp(jsonLog).Success? && GetMessage(jsonLog).Success?
      && AllParse(lib, extract(jsonLog), GetThorTimestamp(jsonLog).value)
      && (Kept(lib, extract(jsonLog), GetThorTimestamp(jsonLog).value) == []
          || GetOrNone(jsonLog, THOR_MODULE_FIELD) != JNull)
  {
    var thor := GetThorTimestamp(jsonLog);
    if thor.Success? {
      KeptPaths(lib, extract(jsonLog), thor.value);
      AdditionalEventValuesSpec(jsonLog, Kept(lib, extract(jsonLog), thor.value));
    }
  }

  /** No kept timestamp sits at the scan time's own path. */
  lemma KeptPaths(lib: DateLib, tss: seq<DatetimeField>, thor: DatetimeField)
    ensures forall i | 0 <= i < |Kept(lib, tss, thor)| :: Kept(lib, tss, thor)[i].path != thor.path
  {
    var kept := Kept(lib, tss, thor);
    forall i | 0 <= i < |kept|
      ensures kept[i].path != thor.path
    {
      assert kept[i] in kept;
    }
  }

  /**
   * Each event dict of a record with distinct keys carries every field of
   * the record except `time`, with the record's value, even over the
   * event's own `message`, `datetime` or `timestamp_desc`.
   */
  lemma RecordFieldsCopied(jsonLog: Dict<Json>, e: EventValue)
    requires DistinctKeys(jsonLog)
    requires e.additionalFields == Update([], GetAdditionalFields(jsonLog))
    ensures forall k | k in Keys(jsonLog) && k != THOR_TIMESTAMP_FIELD :: Get(EventDict(e), k) == Get(jsonLog, k)
  {
    var fields := GetAdditionalFields(jsonLog);
    UpdateDistinct([], fields);
    forall k | k in Keys(jsonLog) && k != THOR_TIMESTAMP_FIELD
      ensures Get(EventDict(e), k) == Get(jsonLog, k)
    {
      GetLastDistinct(fields, k);
      GetLastDistinct(e.additionalFields, k);
    }
  }

  /** A record without fields of these names overrides none of the event's own. */
  lemma EventDictCore(jsonLog: Dict<Json>, e: EventValue)
    requires e.additionalFields == Update([], GetAdditionalFields(jsonLog))
    requires "datetime" !in Keys(jsonLog) && "timestamp_desc" !in Keys(jsonLog) && "time_thor_scan" !in Keys(jsonLog)
    ensures "datetime" !in Keys(e.additionalFields)
    ensures "timestamp_desc" !in Keys(e.additionalFields)
    ensures "time_thor_scan" !in Keys(e.additionalFields)
  {
    var fields := GetAdditionalFields(jsonLog);
    AbsentFromFields(jsonLog, fields, "datetime");
    AbsentFromFields(jsonLog, fields, "timestamp_desc");
    AbsentFromFields(jsonLog, fields, "time_thor_scan");
  }

  lemma AbsentFromFields(jsonLog: Dict<Json>, fields: Dict<Json>, k: string)
    requires fields == GetAdditionalFields(jsonLog)
    requires k !in Keys(jsonLog)
    ensures k !in Keys(Update([], fields))
  {
    assert k !in Keys(fields);
  }

  /**
   * The scan event's dict first, with the scan time, the scan description
   * and no `time_thor_scan`; then one dict per kept timestamp, with that
   * field's time as `datetime` and the scan time as `time_thor_scan`.
   */
  predicate EventDictsShape(events: seq<Dict<Json>>, kept: seq<DatetimeField>, scanTime: string)
  {
    && |events| == 1 + |kept|
    && Get(events[0], "datetime") == Some(JStr(scanTime))
    && Get(events[0], "timestamp_desc") == Some(JStr(SCAN_DESCRIPTION))
    && "time_thor_scan" !in Keys(events[0])
    && forall i | 0 <= i < |kept| ::
      && Get(events[i + 1], "datetime") == Some(JStr(kept[i].datetime))
      && Get(events[i + 1], "time_thor_scan") == Some(JStr(scanTime))
  }

  /**
   * For a record without fields of their names, the scan event's dict has
   * the scan time and description and no `time_thor_scan`, and every other
   * event's dict has its field's time and the scan time as `time_thor_scan`.
   */
  lemma MapThorEventsDicts(lib: DateLib, extract: Dict<Json> -> seq<DatetimeField>, jsonLog: Dict<Json>)
    requires MapThorEventsValues(lib, extract, jsonLog).Success?
    requires "datetime" !in Keys(jsonLog) && "timestamp_desc" !in Keys(jsonLog) && "time_thor_scan" !in Keys(jsonLog)
    ensures MapThorEventsSpec(lib, extract, jsonLog).Success?
    ensures EventDictsShape(MapThorEventsSpec(lib, extract, jsonLog).value,
      Kept(lib, extract(jsonLog), GetThorTimestamp(jsonLog).value), GetThorTimestamp(jsonLog).value.datetime)
  {
    var values := MapThorEventsValues(lib, extract, jsonLog).value;
    SpecIsMap(lib, extract, jsonLog);
    ValuesShape(lib, extract, jsonLog);
    EventDictsOf(jsonLog, values, Kept(lib, extract(jsonLog), GetThorTimestamp(jsonLog).value));
  }

  /** The scan event's value, then one additional event's value per kept timestamp. */
  predicate EventValuesShape(jsonLog: Dict<Json>, values: seq<EventValue>, kept: seq<DatetimeField>)
  {
    && |values| == 1 + |kept|
    && ScanEventValue(jsonLog).Success? && values[0] == ScanEventValue(jsonLog).value
    && forall i | 0 <= i < |kept| ::
      AdditionalEventValue(jsonLog, kept[i]).Success? && values[i + 1] == AdditionalEventValue(jsonLog, kept[i]).value
  }

  /**
   * The events of a record that maps: the scan event first, then one event
   * per kept timestamp, in the extractor's order.
   */
  lemma ValuesShape(lib: DateLib, extract: Dict<Json> -> seq<DatetimeField>, jsonLog: Dict<Json>)
    requires MapThorEventsValues(lib, extract, jsonLog).Success?
    ensures EventValuesShape(jsonLog, MapThorEventsValues(lib, extract, jsonLog).value,
      Kept(lib, extract(jsonLog), GetThorTimestamp(jsonLog).value))
  {
    var kept := Kept(lib, extract(jsonLog), GetThorTimestamp(jsonLog).value);
    var extras := AdditionalEventValues(jsonLog, kept).value;
    assert MapThorEventsValues(lib, extract, jsonLog).value == [ScanEventValue(jsonLog).value] + extras;
    ConsAt(ScanEventValue(jsonLog).value, extras);
    AdditionalEventValuesEach(jsonLog, kept);
  }

  lemma SpecIsMap(lib: DateLib, extract: Dict<Json> -> seq<DatetimeField>, jsonLog: Dict<Json>)
    requires MapThorEventsValues(lib, extract, jsonLog).Success?
    ensures MapThorEventsSpec(lib, extract, jsonLog) == Success(Map(EventDict, MapThorEventsValues(lib, extract, jsonLog).value))
  {
    var values := MapThorEventsValues(lib, extract, jsonLog).value;
    assert [] + Map(EventDict, values) == Map(EventDict, values);
  }

  /** The dict-level facts of `MapThorEventsDicts`, for any scan event followed by extra events. */
  lemma EventDictsOf(jsonLog: Dict<Json>, values: seq<EventValue>, kept: seq<DatetimeField>)
    requires "datetime" !in Keys(jsonLog) && "timestamp_desc" !in Keys(jsonLog) && "time_thor_scan" !in Keys(jsonLog)
    requires EventValuesShape(jsonLog, values, kept)
    ensures EventDictsShape(Map(EventDict, values), kept, GetThorTimestamp(jsonLog).value.datetime)
  {
    var events := Map(EventDict, values);
    ScanEventDict(jsonLog);
    forall i | 0 <= i < |kept|
      ensures Get(events[i + 1], "datetime") == Some(JStr(kept[i].datetime))
      ensures Get(events[i + 1], "time_thor_scan") == Some(JStr(GetThorTimestamp(jsonLog).value.datetime))
    {
      AdditionalEventDict(jsonLog, kept[i]);
    }
  }

  lemma ScanEventDict(jsonLog: Dict<Json>)
    requires ScanEventValue(jsonLog).Success?
    requires "datetime" !in Keys(jsonLog) && "timestamp_desc" !in Keys(jsonLog) && "time_thor_scan" !in Keys(jsonLog)
    ensures var d := EventDict(ScanEventValue(jsonLog).value);
      && Get(d, "datetime") == Some(JStr(GetThorTimestamp(jsonLog).value.datetime))
      && Get(d, "timestamp_desc") == Some(JStr(SCAN_DESCRIPTION))
      && "time_thor_scan" !in Keys(d)
  {
    EventDictCore(jsonLog, ScanEventValue(jsonLog).value);
  }

  lemma AdditionalEventDict(jsonLog: Dict<Json>, tsData: DatetimeField)
    requires AdditionalEventValue(jsonLog, tsData).Success?
    requires "datetime" !in Keys(jsonLog) && "timestamp_desc" !in Keys(jsonLog) && "time_thor_scan" !in Keys(jsonLog)
    ensures var d := EventDict(AdditionalEventValue(jsonLog, tsData).value);
      && Get(d, "datetime") == Some(JStr(tsData.datetime))
      && Get(d, "time_thor_scan") == Some(JStr(GetThorTimestamp(jsonLog).value.datetime))
  {
    EventDictCore(jsonLog, AdditionalEventValue(jsonLog, tsData).value);
  }
}
