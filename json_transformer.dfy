/**
 * `JsonTransformer`: every valid line of a THOR log mapped to its events by
 * the mapper its version selects, as one generator; any failure on a line
 * ends it with `MappingError`.
 */
module JsonTransformation {
  import opened Wrappers
  import opened Dicts
  import opened JsonValues
  import opened Errors
  import opened Dates
  import opened LogVersions
  import opened MapperJsonBase
  import opened Seqs

  /**
   * The events of one line: the mapper the registry gives it, then
   * `map_thor_events`. Only the v1 mapper can be instantiated, so its
   * mapping is the one used.
   */
  function LineEvents(registry: map<string, MapperClass>, lib: DateLib, extract: Dict<Json> -> seq<DatetimeField>,
                      line: Dict<Json>): Result<seq<Dict<Json>>, Error>
  {
    var _ :- MapperForVersion(registry, line);
    MapThorEventsSpec(lib, extract, line)
  }

  /** The lines that map. */
  function LineMaps(registry: map<string, MapperClass>, lib: DateLib, extract: Dict<Json> -> seq<DatetimeField>)
    : Dict<Json> -> bool
  {
    line => LineEvents(registry, lib, extract, line).Success?
  }

  /**
   * `_generate_mapped_logs`: the events of each line in line order. A
   * `VersionError` or any other exception on a line ends the stream with
   * `MappingError`, and no later line is read: the stream ends normally
   * exactly when every line maps.
   */
  function GenerateMappedLogs(logVersion: JsonLogVersion, lib: DateLib, extract: Dict<Json> -> seq<DatetimeField>, lines: seq<Dict<Json>>)
    : (r: Stream<Dict<Json>>)
    reads logVersion
    ensures r.failure.Some? ==> r.failure == Some(MappingError)
    ensures r.failure.None? <==> Leading(lines, LineMaps(logVersion.mapperLogVersion, lib, extract)) == |lines|
  {
    if lines == [] then Complete([])
    else
      match LineEvents(logVersion.mapperLogVersion, lib, extract, lines[0])
      case Failure(_) => Stream([], Some(MappingError))
      case Success(events) => Then(events, GenerateMappedLogs(logVersion, lib, extract, lines[1..]))
  }

  /** One line alone: its events, or `MappingError` with nothing yielded. */
  lemma OneLine(logVersion: JsonLogVersion, lib: DateLib, extract: Dict<Json> -> seq<DatetimeField>, line: Dict<Json>)
    ensures var events := LineEvents(logVersion.mapperLogVersion, lib, extract, line);
      GenerateMappedLogs(logVersion, lib, extract, [line]) ==
        if events.Success? then Complete(events.value) else Stream([], Some(MappingError))
  {
    var events := LineEvents(logVersion.mapperLogVersion, lib, extract, line);
    if events.Success? {
      assert [line][1..] == [];
      assert events.value + [] == events.value;
    }
  }

  /**
   * After lines that all map, the output is their events followed by the
   * output for the rest: the stream is the concatenation, in line order,
   * of each line's events.
   */
  lemma {:induction false} GenerateAppend(logVersion: JsonLogVersion, lib: DateLib, extract: Dict<Json> -> seq<DatetimeField>,
                                          lines: seq<Dict<Json>>, more: seq<Dict<Json>>)
    requires GenerateMappedLogs(logVersion, lib, extract, lines).failure.None?
    ensures GenerateMappedLogs(logVersion, lib, extract, lines + more) ==
      Then(GenerateMappedLogs(logVersion, lib, extract, lines).items, GenerateMappedLogs(logVersion, lib, extract, more))
  {
    if lines == [] {
      EmptyAppend(lines, more);
    } else {
      var events := LineEvents(logVersion.mapperLogVersion, lib, extract, lines[0]).value;
      TailAppend(lines, more);
      GenerateAppend(logVersion, lib, extract, lines[1..], more);
      ThenAssoc(events, GenerateMappedLogs(logVersion, lib, extract, lines[1..]).items, GenerateMappedLogs(logVersion, lib, extract, more));
    }
  }

  /**
   * What has been yielded stays yielded: the output for a log is a prefix
   * of the output for any longer log, and once a line fails nothing after
   * it changes the output.
   */
  lemma {:induction false} GeneratePrefix(logVersion: JsonLogVersion, lib: DateLib, extract: Dict<Json> -> seq<DatetimeField>,
                                          lines: seq<Dict<Json>>, more: seq<Dict<Json>>)
    ensures var r := GenerateMappedLogs(logVersion, lib, extract, lines);
      var longer := GenerateMappedLogs(logVersion, lib, extract, lines + more);
      && r.items <= longer.items
      && (r.failure.Some? ==> longer == r)
  {
    if lines == [] {
      EmptyAppend(lines, more);
    } else {
      TailAppend(lines, more);
      GeneratePrefix(logVersion, lib, extract, lines[1..], more);
    }
  }

  /**
   * `transform_thor_logs`: no valid lines from the reader raises
   * `ProcessingError` at once; otherwise the mapped stream.
   */
  function TransformThorLogs(logVersion: JsonLogVersion, lib: DateLib, extract: Dict<Json> -> seq<DatetimeField>,
                             validThorLogs: Option<seq<Dict<Json>>>): (r: Result<Stream<Dict<Json>>, Error>)
    reads logVersion
    ensures validThorLogs.None? ==> r == Failure(ProcessingError)
    ensures validThorLogs.Some? ==> r == Success(GenerateMappedLogs(logVersion, lib, extract, validThorLogs.value))
  {
    match validThorLogs
    case None => Failure(ProcessingError)
    case Some(lines) => Success(GenerateMappedLogs(logVersion, lib, extract, lines))
  }
}
