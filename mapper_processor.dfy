/**
 * `MapperProcessor.map`: each line paired with the mapper its log version
 * selects, as a generator.
 */
module MapperProcessing {
  import opened Wrappers
  import opened Dicts
  import opened JsonValues
  import opened Errors
  import opened LogVersions

  /**
   * One `(mapper, line)` pair per line, in line order, until a line whose
   * mapper cannot be obtained: its error ends the stream.
   */
  function MapLines(logVersion: JsonLogVersion, lines: seq<Dict<Json>>): (r: Stream<(MapperClass, Dict<Json>)>)
    reads logVersion
    ensures |r.items| <= |lines|
    ensures r.failure.None? <==> |r.items| == |lines|
  {
    if lines == [] then Complete([])
    else
      match logVersion.GetMapperForVersion(lines[0])
      case Failure(e) => Stream([], Some(e))
      case Success(mapper) => Then([(mapper, lines[0])], MapLines(logVersion, lines[1..]))
  }

  /**
   * Each pair holds its line, unchanged and in line order, with the mapper
   * obtained for it; a failure is the error of the first line not paired.
   */
  lemma {:induction false} MapLinesPairs(logVersion: JsonLogVersion, lines: seq<Dict<Json>>)
    ensures var r := MapLines(logVersion, lines);
      forall i | 0 <= i < |r.items| ::
        r.items[i].1 == lines[i] && logVersion.GetMapperForVersion(lines[i]) == Success(r.items[i].0)
    ensures var r := MapLines(logVersion, lines);
      r.failure.Some? ==> logVersion.GetMapperForVersion(lines[|r.items|]) == Failure(r.failure.value)
  {
    if lines != [] && logVersion.GetMapperForVersion(lines[0]).Success? {
      var rest := MapLines(logVersion, lines[1..]);
      MapLinesPairs(logVersion, lines[1..]);
      ThenOne((logVersion.GetMapperForVersion(lines[0]).value, lines[0]), rest);
      assert forall i | 0 < i < |lines| :: lines[i] == lines[1..][i - 1];
    }
  }

  /**
   * The stream stops exactly at the first line whose mapper cannot be
   * obtained, and the error is that line's: `VersionError` when its
   * version does not resolve.
   */
  lemma {:induction false} MapLinesStops(logVersion: JsonLogVersion, lines: seq<Dict<Json>>, k: nat)
    requires k < |lines|
    requires forall i | 0 <= i < k :: logVersion.GetMapperForVersion(lines[i]).Success?
    requires ResolveVersion(logVersion.mapperLogVersion, lines[k]).Failure?
    ensures |MapLines(logVersion, lines).items| == k
    ensures MapLines(logVersion, lines).failure == Some(VersionError)
  {
    if k > 0 {
      var mapper := logVersion.GetMapperForVersion(lines[0]).value;
      var rest := MapLines(logVersion, lines[1..]);
      assert forall i | 0 <= i < k - 1 :: lines[1..][i] == lines[i + 1];
      MapLinesStops(logVersion, lines[1..], k - 1);
      assert MapLines(logVersion, lines) == Then([(mapper, lines[0])], rest);
    }
  }
}
