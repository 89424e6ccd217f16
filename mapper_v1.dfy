/**
 * `MapperJsonV1`: the field getters for THOR JSON v1 records, which the
 * base mapper's fan-out is built from.
 */
module MapperJsonV1 {
  import opened Wrappers
  import opened Dicts
  import opened JsonValues
  import opened Text
  import opened Errors
  import opened Dates
  import Constants

  const THOR_TIMESTAMP_FIELD := "time"
  const THOR_MESSAGE_FIELD := "message"
  const THOR_MODULE_FIELD := "module"
  const THOR_LEVEL_FIELD := "level"

  /** The description of the scan-time event. */
  const SCAN_DESCRIPTION := "THOR scan timestamp"

  /** `_get_message`: the message, which must be present and a string. */
  function GetMessage(jsonLog: Dict<Json>): (r: Result<string, Error>)
    ensures r.Success? <==> GetOrNone(jsonLog, THOR_MESSAGE_FIELD).JStr?
    ensures r.Success? ==> JStr(r.value) == GetOrNone(jsonLog, THOR_MESSAGE_FIELD)
    ensures r.Failure? ==> r.error == MappingError
  {
    match GetOrNone(jsonLog, THOR_MESSAGE_FIELD)
    case JNull => Failure(MappingError)
    case JStr(s) => Success(s)
    case _ => Failure(MappingError)
  }

  /**
   * `_get_timestamp_desc`: the scan description for no field or the `time`
   * field, and otherwise `"<module> - <path>"`, which needs a module.
   */
  function GetTimestampDesc(jsonLog: Dict<Json>, tsData: Option<DatetimeField>): (r: Result<string, Error>)
    ensures (tsData.None? || tsData.value.path == THOR_TIMESTAMP_FIELD) ==> r == Success(SCAN_DESCRIPTION)
    ensures tsData.Some? && tsData.value.path != THOR_TIMESTAMP_FIELD ==>
      (r.Failure? <==> GetOrNone(jsonLog, THOR_MODULE_FIELD) == JNull)
    ensures r.Failure? ==> r.error == MappingError
    ensures r.Success? && tsData.Some? && tsData.value.path != THOR_TIMESTAMP_FIELD ==>
      r.value == PyStr(GetOrNone(jsonLog, THOR_MODULE_FIELD)) + " - " + tsData.value.path
  {
    if tsData.None? || tsData.value.path == THOR_TIMESTAMP_FIELD then Success(SCAN_DESCRIPTION)
    else
      var moduleValue := GetOrNone(jsonLog, THOR_MODULE_FIELD);
      if moduleValue == JNull then Failure(MappingError)
      else Success(PyStr(moduleValue) + " - " + tsData.value.path)
  }

  /**
   * Timestamps at different paths of one record get different descriptions,
   * and none of them is the scan description.
   */
  lemma TimestampDescDistinct(jsonLog: Dict<Json>, a: DatetimeField, b: DatetimeField)
    requires a.path != THOR_TIMESTAMP_FIELD && b.path != THOR_TIMESTAMP_FIELD
    requires GetTimestampDesc(jsonLog, Some(a)).Success? && GetTimestampDesc(jsonLog, Some(b)).Success?
    ensures GetTimestampDesc(jsonLog, Some(a)).value == GetTimestampDesc(jsonLog, Some(b)).value <==> a.path == b.path
    ensures GetTimestampDesc(jsonLog, Some(a)).value != SCAN_DESCRIPTION
  {
    var m := PyStr(GetOrNone(jsonLog, THOR_MODULE_FIELD)) + " - ";
    var da := GetTimestampDesc(jsonLog, Some(a)).value;
    var db := GetTimestampDesc(jsonLog, Some(b)).value;
    assert da == m + a.path && db == m + b.path;
    if da == db {
      assert a.path == da[|m|..] == db[|m|..] == b.path;
    }
    assert da[|m| - 2] == '-';
    assert forall i | 0 <= i < |SCAN_DESCRIPTION| :: SCAN_DESCRIPTION[i] != '-';
  }

  /**
   * `_get_additional_fields` as written: `key not in ("time")` tests `key`
   * against the STRING "time" (the parentheses make no tuple), so every key
   * that is a substring of "time" is dropped.
   */
  function GetAdditionalFieldsAsWritten(jsonLog: Dict<Json>): (r: Dict<Json>)
    ensures forall k :: k in Keys(r) <==> k in Keys(jsonLog) && !IsSubstring(k, THOR_TIMESTAMP_FIELD)
  {
    FilterKeys(jsonLog, k => !IsSubstring(k, THOR_TIMESTAMP_FIELD))
  }

  /** The eleven keys the written test drops: every substring of "time", the empty one included. */
  lemma SubstringsOfTime(k: string)
    ensures IsSubstring(k, "time") <==>
      k in ["", "t", "i", "m", "e", "ti", "im", "me", "tim", "ime", "time"]
  {
    var t := "time";
    IsSubstringSlice(k, t);
    if IsSubstring(k, t) {
      var i :| OccursAt(k, t, i);
      assert k == t[i..i + |k|];
      assert 0 <= |k| <= 4;
      if |k| == 0 {
      } else if |k| == 1 {
        assert k == [t[i]];
      } else if |k| == 2 {
        assert k == [t[i], t[i + 1]];
      } else if |k| == 3 {
        assert k == [t[i], t[i + 1], t[i + 2]];
      } else {
        assert k == t;
      }
    } else {
      assert !OccursAt(k, t, 0) && !OccursAt(k, t, 1) && !OccursAt(k, t, 2) && !OccursAt(k, t, 3);
      assert !OccursAt(k, t, 4);
    }
  }

  /** A record field named "e" is lost, though it is no timestamp. */
  lemma AdditionalFieldsAsWrittenLosesField()
    ensures GetAdditionalFieldsAsWritten([("e", JInt(1))]) == []
    ensures GetAdditionalFields([("e", JInt(1))]) == [("e", JInt(1))]
  {
    SubstringsOfTime("e");
  }

  /**
   * `_get_additional_fields` as evidently intended: every field of the
   * record except the scan timestamp `time`, in record order.
   */
  function GetAdditionalFields(jsonLog: Dict<Json>): (r: Dict<Json>)
    ensures forall k :: Get(r, k) == if k == THOR_TIMESTAMP_FIELD then None else Get(jsonLog, k)
    ensures forall k :: k in Keys(r) <==> k in Keys(jsonLog) && k != THOR_TIMESTAMP_FIELD
    ensures DistinctKeys(jsonLog) ==> DistinctKeys(r)
  {
    var keep := k => k != THOR_TIMESTAMP_FIELD;
    var r := FilterKeys(jsonLog, keep);
    assert DistinctKeys(jsonLog) ==> DistinctKeys(r) by {
      if DistinctKeys(jsonLog) {
        FilterKeysDistinct(jsonLog, keep);
      }
    }
    r
  }

  /** `_get_thor_timestamp`: the `time` field, which must be present and a string. */
  function GetThorTimestamp(jsonLog: Dict<Json>): (r: Result<DatetimeField, Error>)
    ensures r.Success? <==> GetOrNone(jsonLog, THOR_TIMESTAMP_FIELD).JStr?
    ensures r.Success? ==>
      (r.value.path == THOR_TIMESTAMP_FIELD && JStr(r.value.datetime) == GetOrNone(jsonLog, THOR_TIMESTAMP_FIELD))
    ensures r.Failure? ==> r.error == TimestampError
  {
    match GetOrNone(jsonLog, THOR_TIMESTAMP_FIELD)
    case JNull => Failure(TimestampError)
    case JStr(s) => Success(DatetimeField(THOR_TIMESTAMP_FIELD, s))
    case _ => Failure(TimestampError)
  }

  /** The level, which the tag getters need present (any value but `None`). */
  function Level(jsonLog: Dict<Json>, tag: string): (r: Result<seq<Json>, Error>)
    ensures r.Success? <==> GetOrNone(jsonLog, THOR_LEVEL_FIELD) != JNull
    ensures r.Success? ==> r.value == [JStr(tag), GetOrNone(jsonLog, THOR_LEVEL_FIELD)]
    ensures r.Failure? ==> r.error == MappingError
  {
    var typeEvent := GetOrNone(jsonLog, THOR_LEVEL_FIELD);
    if typeEvent == JNull then Failure(MappingError) else Success([JStr(tag), typeEvent])
  }

  /** `_get_thor_tags`: `[THOR_TAG, level]`. */
  function GetThorTags(jsonLog: Dict<Json>): (r: Result<seq<Json>, Error>)
    ensures r.Success? <==> GetOrNone(jsonLog, THOR_LEVEL_FIELD) != JNull
    ensures r.Success? ==> r.value == [JStr(Constants.THOR_TAG), GetOrNone(jsonLog, THOR_LEVEL_FIELD)]
    ensures r.Failure? ==> r.error == MappingError
  {
    Level(jsonLog, Constants.THOR_TAG)
  }

  /** `_get_additional_tags`: `[EXTRA_TAG, level]`. */
  function GetAdditionalTags(jsonLog: Dict<Json>): (r: Result<seq<Json>, Error>)
    ensures r.Success? <==> GetOrNone(jsonLog, THOR_LEVEL_FIELD) != JNull
    ensures r.Success? ==> r.value == [JStr(Constants.EXTRA_TAG), GetOrNone(jsonLog, THOR_LEVEL_FIELD)]
    ensures r.Failure? ==> r.error == MappingError
  {
    Level(jsonLog, Constants.EXTRA_TAG)
  }

  /** `get_filterable_fields`: level and module as stored, `None` where absent; it never fails. */
  function GetFilterableFields(jsonLog: Dict<Json>): (r: (Json, Json))
    ensures r.0 == JNull <==> Get(jsonLog, THOR_LEVEL_FIELD).None? || Get(jsonLog, THOR_LEVEL_FIELD) == Some(JNull)
    ensures r.1 == JNull <==> Get(jsonLog, THOR_MODULE_FIELD).None? || Get(jsonLog, THOR_MODULE_FIELD) == Some(JNull)
    ensures THOR_LEVEL_FIELD in Keys(jsonLog) ==> Get(jsonLog, THOR_LEVEL_FIELD) == Some(r.0)
    ensures THOR_MODULE_FIELD in Keys(jsonLog) ==> Get(jsonLog, THOR_MODULE_FIELD) == Some(r.1)
  {
    (GetOrNone(jsonLog, THOR_LEVEL_FIELD), GetOrNone(jsonLog, THOR_MODULE_FIELD))
  }
}
