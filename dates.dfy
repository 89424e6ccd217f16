/**
 * Date-times as `dateutil.parser.isoparse` returns them, and the comparison
 * Python's `datetime.__eq__` performs on them.
 *
 * Parsing and formatting are library code; they are a parameter (`DateLib`)
 * of every operation that needs them.
 */
module Dates {
  import opened Wrappers
  import opened Errors

  /**
   * A parsed date-time: the wall-clock reading (in some fixed unit since a
   * fixed epoch) and, for an aware value, its offset from UTC in that unit.
   */
  datatype DateTime = DateTime(wall: int, offset: Option<int>)

  /** `isoparse` (`None` where it raises `ValueError`) and `isoformat`. */
  datatype DateLib = DateLib(isoparse: string -> Option<DateTime>, isoformat: DateTime -> string)

  /** The UTC instant of an aware date-time. */
  function Instant(d: DateTime): int
    requires d.offset.Some?
  {
    d.wall - d.offset.value
  }

  /** `replace(tzinfo=timezone.utc)` applied when `tzinfo is None`. */
  function AssumeUtc(d: DateTime): (r: DateTime)
    ensures r.offset.Some?
    ensures d.offset.Some? ==> r == d
    ensures d.offset.None? ==> r.wall == d.wall && Instant(r) == d.wall
  {
    if d.offset.None? then DateTime(d.wall, Some(0)) else d
  }

  /**
   * `d1 == d2`: two naive values compare their wall clocks, two aware values
   * compare instants, and a naive value never equals an aware one.
   */
  predicate SameInstant(d1: DateTime, d2: DateTime)
  {
    if d1.offset.None? && d2.offset.None? then d1.wall == d2.wall
    else if d1.offset.Some? && d2.offset.Some? then Instant(d1) == Instant(d2)
    else false
  }

  /** The comparison is an equivalence relation. */
  lemma SameInstantEquivalence(d1: DateTime, d2: DateTime, d3: DateTime)
    ensures SameInstant(d1, d1)
    ensures SameInstant(d1, d2) ==> SameInstant(d2, d1)
    ensures SameInstant(d1, d2) && SameInstant(d2, d3) ==> SameInstant(d1, d3)
  {
  }

  /** 10:00 UTC is 12:00 at +02:00, but a naive 10:00 is neither. */
  lemma SameInstantExamples()
    ensures SameInstant(DateTime(36000, Some(0)), DateTime(43200, Some(7200)))
    ensures !SameInstant(DateTime(36000, None), DateTime(36000, Some(0)))
  {
  }

  /**
   * `TimestampExtractor.is_same_timestamp`: both strings are parsed and
   * compared; a string that does not parse raises `MappingError`.
   */
  function IsSameTimestamp(lib: DateLib, time1: string, time2: string): (r: Result<bool, Error>)
    ensures r.Failure? <==> lib.isoparse(time1).None? || lib.isoparse(time2).None?
    ensures r.Failure? ==> r.error == MappingError
    ensures r.Success? ==> r.value == SameInstant(lib.isoparse(time1).value, lib.isoparse(time2).value)
  {
    match (lib.isoparse(time1), lib.isoparse(time2))
    case (Some(d1), Some(d2)) => Success(SameInstant(d1, d2))
    case _ => Failure(MappingError)
  }

  /** A timestamp found in a record: where it was found and its text. */
  datatype DatetimeField = DatetimeField(path: string, datetime: string)
}
