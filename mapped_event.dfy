/**
 * `MappedEvent`: one Timesketch event under construction, and the dict it
 * serialises to.
 */
module MappedEvents {
  import opened Wrappers
  import opened Dicts
  import opened JsonValues

  /** The state of a `MappedEvent`. */
  datatype EventValue = EventValue(
    message: string, datetime: string, timestampDesc: string,
    timeThorScan: Option<string>, additionalFields: Dict<Json>)

  /** The three fields every event dict starts with. */
  function CoreDict(e: EventValue): (r: Dict<Json>)
    ensures Keys(r) == ["message", "datetime", "timestamp_desc"]
    ensures Get(r, "message") == Some(JStr(e.message))
    ensures Get(r, "datetime") == Some(JStr(e.datetime))
    ensures Get(r, "timestamp_desc") == Some(JStr(e.timestampDesc))
  {
    var r := [("message", JStr(e.message)), ("datetime", JStr(e.datetime)), ("timestamp_desc", JStr(e.timestampDesc))];
    assert Keys(r) == ["message", "datetime", "timestamp_desc"];
    GetAt(r, 1);
    GetAt(r, 2);
    r
  }

  /**
   * The dict `to_dict` builds for an event in state `e`. Additional fields
   * are applied last: a key among them holds the last value merged for it,
   * and every other key holds its core value.
   */
  function EventDict(e: EventValue): (r: Dict<Json>)
    ensures forall k | k in Keys(e.additionalFields) :: Get(r, k) == GetLast(e.additionalFields, k)
    ensures "message" !in Keys(e.additionalFields) ==> Get(r, "message") == Some(JStr(e.message))
    ensures "datetime" !in Keys(e.additionalFields) ==> Get(r, "datetime") == Some(JStr(e.datetime))
    ensures "timestamp_desc" !in Keys(e.additionalFields) ==> Get(r, "timestamp_desc") == Some(JStr(e.timestampDesc))
    ensures "time_thor_scan" !in Keys(e.additionalFields) ==>
      Get(r, "time_thor_scan") == if e.timeThorScan.Some? then Some(JStr(e.timeThorScan.value)) else None
    ensures "time_thor_scan" in Keys(r) <==> e.timeThorScan.Some? || "time_thor_scan" in Keys(e.additionalFields)
    ensures forall k :: k in Keys(r) <==>
      || k in ["message", "datetime", "timestamp_desc"]
      || (k == "time_thor_scan" && e.timeThorScan.Some?)
      || k in Keys(e.additionalFields)
  {
    Update(WithScanTime(e), e.additionalFields)
  }

  /** The core fields and, when the event has one, the scan time. */
  function WithScanTime(e: EventValue): (r: Dict<Json>)
    ensures Keys(r) == ["message", "datetime", "timestamp_desc"] + if e.timeThorScan.Some? then ["time_thor_scan"] else []
    ensures Get(r, "message") == Some(JStr(e.message))
    ensures Get(r, "datetime") == Some(JStr(e.datetime))
    ensures Get(r, "timestamp_desc") == Some(JStr(e.timestampDesc))
    ensures Get(r, "time_thor_scan") == if e.timeThorScan.Some? then Some(JStr(e.timeThorScan.value)) else None
  {
    var core := CoreDict(e);
    assert "time_thor_scan" !in Keys(core);
    if e.timeThorScan.Some? then
      var r := Set(core, "time_thor_scan", JStr(e.timeThorScan.value));
      assert Keys(r) == Keys(core) + ["time_thor_scan"];
      r
    else
      assert Keys(core) == Keys(core) + [];
      core
  }

  class MappedEvent {
    var message: string
    var datetime: string
    var timestampDesc: string
    var timeThorScan: Option<string>
    var additionalFields: Dict<Json>

    function Value(): EventValue
      reads this
    {
      EventValue(message, datetime, timestampDesc, timeThorScan, additionalFields)
    }

    /** A new event holds the given fields and no additional fields. */
    constructor (message: string, datetime: string, timestampDesc: string, timeThorScan: Option<string>)
      ensures Value() == EventValue(message, datetime, timestampDesc, timeThorScan, [])
    {
      this.message := message;
      this.datetime := datetime;
      this.timestampDesc := timestampDesc;
      this.timeThorScan := timeThorScan;
      this.additionalFields := [];
    }

    /** `add_additional`: merges into the additional fields, later values winning. */
    method AddAdditional(additional: Dict<Json>)
      modifies this
      ensures Value() == old(Value()).(additionalFields := Update(old(additionalFields), additional))
    {
      additionalFields := Update(additionalFields, additional);
    }

    /** `to_dict`, which leaves the event as it is. */
    method ToDict() returns (event: Dict<Json>)
      ensures event == EventDict(Value())
    {
      event := [("message", JStr(message)), ("datetime", JStr(datetime)), ("timestamp_desc", JStr(timestampDesc))];
      assert event == CoreDict(Value());
      if timeThorScan.Some? {
        event := Set(event, "time_thor_scan", JStr(timeThorScan.value));
      }
      assert event == WithScanTime(Value());
      event := Update(event, additionalFields);
    }
  }

  /**
   * The event dict always starts with `message`, `datetime` and
   * `timestamp_desc`, in that order, whatever the additional fields hold.
   */
  lemma EventDictKeys(e: EventValue)
    ensures |EventDict(e)| >= 3
    ensures Keys(EventDict(e))[..3] == ["message", "datetime", "timestamp_desc"]
  {
    UpdateKeepsPrefix(WithScanTime(e), e.additionalFields, 3);
  }
}
