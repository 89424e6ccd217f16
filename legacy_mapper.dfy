/**
 * `ThorTimesketchMapper.map_and_categorize` of the legacy package: one
 * flattened THOR record becomes one Timesketch event per timestamp it
 * holds besides the scan time, or a single scan-time event when it holds
 * none. The timestamp extractor the mapper calls is a parameter.
 */
module LegacyMapper {
  import opened Wrappers
  import opened Dicts
  import opened JsonValues
  import opened Seqs

  const SCAN_DESCRIPTION := "Timestamp of THOR scan execution"

  /** The scan time popped off the extracted timestamps, `None` when there is none. */
  function ScanTime(timestamps: Dict<string>): (r: Json)
    ensures r == JNull <==> "time" !in Keys(timestamps)
    ensures "time" in Keys(timestamps) ==> r == JStr(Get(timestamps, "time").value)
  {
    match Get(timestamps, "time")
    case None => JNull
    case Some(t) => JStr(t)
  }

  /** The fields every event copies: all but `message`, `time` and the event's own timestamp key. */
  predicate Copied(field: string, own: Option<string>)
  {
    field != "message" && field != "time" && (own.None? || field != own.value)
  }

  function CopiedFields(own: Option<string>): string -> bool
  {
    f => Copied(f, own)
  }

  function Passthrough(line: Dict<Json>, own: Option<string>): (r: Dict<Json>)
    ensures forall f :: f in Keys(r) <==> f in Keys(line) && Copied(f, own)
  {
    FilterKeys(line, CopiedFields(own))
  }

  /** The four fields a timestamp event starts from. */
  function TimestampCore(line: Dict<Json>, key: string, timestamp: string, scan: Json): (r: Dict<Json>)
    ensures Get(r, "datetime") == Some(JStr(timestamp))
    ensures Get(r, "message") == Some(GetOrNone(line, "message"))
    ensures Get(r, "timestamp_desc") == Some(JStr(PyStr(GetOrNone(line, "module")) + " - " + key))
    ensures Get(r, "time_thor_scan") == Some(scan)
    ensures Keys(r) == ["datetime", "message", "timestamp_desc", "time_thor_scan"]
  {
    var r := [("datetime", JStr(timestamp)), ("message", GetOrNone(line, "message")),
              ("timestamp_desc", JStr(PyStr(GetOrNone(line, "module")) + " - " + key)),
              ("time_thor_scan", scan)];
    assert Keys(r) == ["datetime", "message", "timestamp_desc", "time_thor_scan"];
    GetAt(r, 1);
    GetAt(r, 2);
    GetAt(r, 3);
    r
  }

  /** The event for the timestamp `timestamp` found under `key`. */
  function TimestampEvent(line: Dict<Json>, key: string, timestamp: string, scan: Json): Dict<Json>
  {
    Update(TimestampCore(line, key, timestamp, scan), Passthrough(line, Some(key)))
  }

  /** The three fields the scan-time event starts from. */
  function ScanCore(line: Dict<Json>, scan: Json): (r: Dict<Json>)
    ensures Get(r, "datetime") == Some(scan)
    ensures Get(r, "message") == Some(GetOrNone(line, "message"))
    ensures Get(r, "timestamp_desc") == Some(JStr(SCAN_DESCRIPTION))
    ensures Keys(r) == ["datetime", "message", "timestamp_desc"]
  {
    var r := [("datetime", scan), ("message", GetOrNone(line, "message")), ("timestamp_desc", JStr(SCAN_DESCRIPTION))];
    assert Keys(r) == ["datetime", "message", "timestamp_desc"];
    GetAt(r, 1);
    GetAt(r, 2);
    r
  }

  /** The single event of a record without further timestamps. */
  function ScanEvent(line: Dict<Json>, scan: Json): Dict<Json>
  {
    Update(ScanCore(line, scan), Passthrough(line, None))
  }

  /** The copied fields of a dict override the fields an event starts from. */
  lemma UpdateWithDict(core: Dict<Json>, p: Dict<Json>)
    requires DistinctKeys(p)
    ensures forall f :: Get(Update(core, p), f) == if f in Keys(p) then Get(p, f) else Get(core, f)
  {
    forall f
      ensures GetLast(p, f) == Get(p, f)
    {
      GetLastDistinct(p, f);
    }
  }

  /** The event for one `(key, timestamp)` pair of the extracted timestamps. */
  function EventOf(line: Dict<Json>, scan: Json): ((string, string)) -> Dict<Json>
  {
    (p: (string, string)) => TimestampEvent(line, p.0, p.1, scan)
  }

  function TimestampEvents(line: Dict<Json>, timestamps: Dict<string>, scan: Json): seq<Dict<Json>>
  {
    Map(EventOf(line, scan), timestamps)
  }

  /** One more timestamp, one more event at the end. */
  lemma TimestampEventsSnoc(line: Dict<Json>, timestamps: Dict<string>, i: nat, scan: Json)
    requires i < |timestamps|
    ensures TimestampEvents(line, timestamps[..i + 1], scan) ==
      TimestampEvents(line, timestamps[..i], scan) + [TimestampEvent(line, timestamps[i].0, timestamps[i].1, scan)]
  {
    assert timestamps[..i + 1] == timestamps[..i] + [timestamps[i]];
    MapSnoc(EventOf(line, scan), timestamps[..i], timestamps[i]);
  }

  /**
   * The events of one record: without timestamps besides the scan time
   * exactly one, the scan-time event; otherwise one per remaining
   * timestamp, in the extractor's order, and no scan-time event.
   */
  function Events(extract: Dict<Json> -> Dict<string>, line: Dict<Json>): (r: seq<Dict<Json>>)
    ensures var others := Remove(extract(line), "time");
      |r| == if others == [] then 1 else |others|
    ensures var others := Remove(extract(line), "time");
      others == [] ==> r == [ScanEvent(line, ScanTime(extract(line)))]
    ensures var others := Remove(extract(line), "time");
      others != [] ==> forall i | 0 <= i < |others| ::
        r[i] == TimestampEvent(line, others[i].0, others[i].1, ScanTime(extract(line)))
  {
    var timestamps := extract(line);
    var scan := ScanTime(timestamps);
    var others := Remove(timestamps, "time");
    if others != [] then TimestampEvents(line, others, scan) else [ScanEvent(line, scan)]
  }

  /** `map_and_categorize`, with `_extract_datetime` passed in as `extract`. */
  method MapAndCategorize(extract: Dict<Json> -> Dict<string>, thorJsonLine: Dict<Json>)
    returns (categorized: Dict<seq<Dict<Json>>>)
    ensures categorized == [("TBD", Events(extract, thorJsonLine))]
  {
    var events: seq<Dict<Json>>;
    var timestampsExtract := extract(thorJsonLine);
    var thorScanTime := ScanTime(timestampsExtract);
    timestampsExtract := Remove(timestampsExtract, "time");
    if timestampsExtract != [] {
      events := TimestampEventLoop(thorJsonLine, timestampsExtract, thorScanTime);
    } else {
      var event := ScanCore(thorJsonLine, thorScanTime);
      event := Update(event, Passthrough(thorJsonLine, None));
      events := [event];
    }
    categorized := [("TBD", events)];
  }

  /** The `for key, timestamp in timestamps_extract.items()` loop of `map_and_categorize`. */
  method TimestampEventLoop(thorJsonLine: Dict<Json>, timestampsExtract: Dict<string>, thorScanTime: Json)
    returns (events: seq<Dict<Json>>)
    ensures events == TimestampEvents(thorJsonLine, timestampsExtract, thorScanTime)
  {
    events := [];
    var message := GetOrNone(thorJsonLine, "message");
    var moduleName := GetOrNone(thorJsonLine, "module");
    var i := 0;
    while i < |timestampsExtract|
      invariant 0 <= i <= |timestampsExtract|
      invariant events == TimestampEvents(thorJsonLine, timestampsExtract[..i], thorScanTime)
    {
      var event := BuildTimestampEvent(thorJsonLine, message, moduleName,
                                       timestampsExtract[i].0, timestampsExtract[i].1, thorScanTime);
      TimestampEventsSnoc(thorJsonLine, timestampsExtract, i, thorScanTime);
      events := events + [event];
      i := i + 1;
    }
    WholePrefix(timestampsExtract);
  }

  /** The body of that loop: the event dict for one timestamp, built from the message and module read before it. */
  method BuildTimestampEvent(thorJsonLine: Dict<Json>, message: Json, moduleName: Json,
                             key: string, timestamp: string, thorScanTime: Json)
    returns (event: Dict<Json>)
    requires message == GetOrNone(thorJsonLine, "message") && moduleName == GetOrNone(thorJsonLine, "module")
    ensures event == TimestampEvent(thorJsonLine, key, timestamp, thorScanTime)
  {
    event := [("datetime", JStr(timestamp)), ("message", message),
              ("timestamp_desc", JStr(PyStr(moduleName) + " - " + key)),
              ("time_thor_scan", thorScanTime)];
    assert event == TimestampCore(thorJsonLine, key, timestamp, thorScanTime);
    event := Update(event, Passthrough(thorJsonLine, Some(key)));
  }

  /**
   * A timestamp event: the copied record fields win over the four core
   * fields, `message` is never copied, and the event's own timestamp key is
   * left out of the copy; a core field the record does not override keeps
   * its core value.
   */
  lemma TimestampEventFields(line: Dict<Json>, key: string, timestamp: string, scan: Json)
    requires DistinctKeys(line)
    ensures var ev := TimestampEvent(line, key, timestamp, scan);
      Get(ev, "message") == Some(GetOrNone(line, "message"))
      && (forall f | f in Keys(line) && Copied(f, Some(key)) :: Get(ev, f) == Get(line, f))
      && ((key == "datetime" || "datetime" !in Keys(line)) ==> Get(ev, "datetime") == Some(JStr(timestamp)))
      && ((key == "timestamp_desc" || "timestamp_desc" !in Keys(line)) ==>
            Get(ev, "timestamp_desc") == Some(JStr(PyStr(GetOrNone(line, "module")) + " - " + key)))
      && ((key == "time_thor_scan" || "time_thor_scan" !in Keys(line)) ==> Get(ev, "time_thor_scan") == Some(scan))
      && (key !in ["datetime", "message", "timestamp_desc", "time_thor_scan"] ==> key !in Keys(ev))
  {
    EventFieldsFrom(line, Some(key), TimestampCore(line, key, timestamp, scan));
  }

  /**
   * The scan-time event: described as the scan execution, dated by the scan
   * time unless the record overrides either field, and carrying every record
   * field except `message` and `time`.
   */
  lemma ScanEventFields(line: Dict<Json>, scan: Json)
    requires DistinctKeys(line)
    ensures var ev := ScanEvent(line, scan);
      Get(ev, "message") == Some(GetOrNone(line, "message"))
      && (forall f | f in Keys(line) && Copied(f, None) :: Get(ev, f) == Get(line, f))
      && ("datetime" !in Keys(line) ==> Get(ev, "datetime") == Some(scan))
      && ("timestamp_desc" !in Keys(line) ==> Get(ev, "timestamp_desc") == Some(JStr(SCAN_DESCRIPTION)))
      && ("time_thor_scan" !in Keys(line) ==> "time_thor_scan" !in Keys(ev))
  {
    EventFieldsFrom(line, None, ScanCore(line, scan));
  }

  /** An event is its core fields overridden by the record's copied fields. */
  lemma EventFieldsFrom(line: Dict<Json>, own: Option<string>, core: Dict<Json>)
    requires DistinctKeys(line)
    ensures forall f :: (Get(Update(core, Passthrough(line, own)), f) ==
      if f in Keys(line) && Copied(f, own) then Get(line, f) else Get(core, f))
    ensures forall f :: (f in Keys(Update(core, Passthrough(line, own))) <==>
      f in Keys(core) || (f in Keys(line) && Copied(f, own)))
  {
    FilterKeysDistinct(line, CopiedFields(own));
    UpdateWithDict(core, Passthrough(line, own));
  }
}
