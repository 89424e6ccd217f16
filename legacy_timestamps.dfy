/**
 * `ThorTimestampExtractor` of the legacy package: the ISO 8601 shape test and
 * the collection of the top-level values that pass it and parse.
 *
 * The pattern is
 *   ^(\d{4}-\d{2}-\d{2}T\d{2}:\d{2}:\d{2}(?:\.\d+)?(?:[+-]\d{2}:\d{2}|Z)?$)
 * compiled with IGNORECASE and applied with `re.match`.
 */
module LegacyTimestamps {
  import opened Wrappers
  import opened Dicts
  import opened JsonValues
  import opened Dates

  /* ---------- the shape test, as a scanner ---------- */

  predicate AllDigits(s: string)
  {
    forall i | 0 <= i < |s| :: IsDigit(s[i])
  }

  /** `\d{4}-\d{2}-\d{2}T\d{2}:\d{2}:\d{2}`, with `T` matched case-insensitively. */
  predicate Head(s: string)
    requires |s| == 19
  {
    AllDigits(s[0..4]) && s[4] == '-' && AllDigits(s[5..7]) && s[7] == '-' && AllDigits(s[8..10])
    && (s[10] == 'T' || s[10] == 't')
    && AllDigits(s[11..13]) && s[13] == ':' && AllDigits(s[14..16]) && s[16] == ':' && AllDigits(s[17..19])
  }

  /** `(?:[+-]\d{2}:\d{2}|Z)?`, with `Z` matched case-insensitively. */
  predicate Zone(z: string)
  {
    z == "" || z == "Z" || z == "z"
    || (|z| == 6 && (z[0] == '+' || z[0] == '-') && IsDigit(z[1]) && IsDigit(z[2])
        && z[3] == ':' && IsDigit(z[4]) && IsDigit(z[5]))
  }

  /** The length of the run of digits `s` starts with. */
  function LeadingDigits(s: string): (n: nat)
    ensures n <= |s| && AllDigits(s[..n])
    ensures n < |s| ==> !IsDigit(s[n])
  {
    if s != [] && IsDigit(s[0]) then
      var n := 1 + LeadingDigits(s[1..]);
      assert s[..n] == [s[0]] + s[1..][..n - 1];
      n
    else 0
  }

  /**
   * `(?:\.\d+)?` and then the zone, up to the end. The fraction takes every
   * digit after the point: none of the zone forms starts with a digit, so
   * the pattern has no other way to match.
   */
  predicate FractionAndZone(t: string)
  {
    if t != [] && t[0] == '.' then
      var n := LeadingDigits(t[1..]);
      n >= 1 && Zone(t[1 + n..])
    else Zone(t)
  }

  predicate FullMatch(s: string)
  {
    |s| >= 19 && Head(s[..19]) && FractionAndZone(s[19..])
  }

  /** `ISO8601_PATTERN.match(s)`: `$` also matches just before one final newline. */
  predicate MatchesIso8601(s: string)
  {
    FullMatch(s) || (|s| >= 1 && s[|s| - 1] == '\n' && FullMatch(s[..|s| - 1]))
  }

  /* ---------- the shape test, as a grammar ---------- */

  datatype ZoneShape = NoZone | Utc(letter: char) | Offset(sign: char, hours: string, minutes: string)

  /** The parts of a string the pattern accepts. */
  datatype Iso8601 = Iso8601(
    year: string, month: string, day: string, separator: char,
    hour: string, minute: string, second: string,
    fraction: Option<string>, zone: ZoneShape, newline: bool)

  predicate ValidZone(z: ZoneShape)
  {
    match z
    case NoZone => true
    case Utc(c) => c == 'Z' || c == 'z'
    case Offset(sign, h, m) => (sign == '+' || sign == '-') && |h| == 2 && AllDigits(h) && |m| == 2 && AllDigits(m)
  }

  predicate ValidIso8601(x: Iso8601)
  {
    |x.year| == 4 && AllDigits(x.year) && |x.month| == 2 && AllDigits(x.month)
    && |x.day| == 2 && AllDigits(x.day) && (x.separator == 'T' || x.separator == 't')
    && |x.hour| == 2 && AllDigits(x.hour) && |x.minute| == 2 && AllDigits(x.minute)
    && |x.second| == 2 && AllDigits(x.second)
    && (x.fraction.Some? ==> |x.fraction.value| >= 1 && AllDigits(x.fraction.value))
    && ValidZone(x.zone)
  }

  function ZoneText(z: ZoneShape): string
  {
    match z
    case NoZone => ""
    case Utc(c) => [c]
    case Offset(sign, h, m) => [sign] + h + ":" + m
  }

  function HeadText(x: Iso8601): string
  {
    x.year + "-" + x.month + "-" + x.day + [x.separator] + x.hour + ":" + x.minute + ":" + x.second
  }

  function TailText(x: Iso8601): string
  {
    (if x.fraction.Some? then "." + x.fraction.value else "") + ZoneText(x.zone)
  }

  function Render(x: Iso8601): string
  {
    HeadText(x) + TailText(x) + (if x.newline then "\n" else "")
  }

  lemma ValidHead(x: Iso8601)
    requires ValidIso8601(x)
    ensures |HeadText(x)| == 19 && Head(HeadText(x))
  {
    var h := HeadText(x);
    assert h[0..4] == x.year && h[5..7] == x.month && h[8..10] == x.day;
    assert h[11..13] == x.hour && h[14..16] == x.minute && h[17..19] == x.second;
  }

  lemma ValidTail(x: Iso8601)
    requires ValidIso8601(x)
    ensures FractionAndZone(TailText(x))
  {
    var z := ZoneText(x.zone);
    var t := TailText(x);
    assert Zone(z);
    if x.fraction.Some? {
      var f := x.fraction.value;
      assert t[1..] == f + z;
      LeadingDigitsOf(f, z);
      assert t[1 + |f|..] == z;
    } else {
      assert t == z;
    }
  }

  lemma {:induction false} LeadingDigitsOf(f: string, z: string)
    requires AllDigits(f)
    requires z == [] || !IsDigit(z[0])
    ensures LeadingDigits(f + z) == |f|
  {
    if f != [] {
      assert (f + z)[1..] == f[1..] + z;
      LeadingDigitsOf(f[1..], z);
    }
  }

  /** Every string of the grammar passes the shape test ... */
  lemma RenderMatches(x: Iso8601)
    requires ValidIso8601(x)
    ensures MatchesIso8601(Render(x))
  {
    ValidHead(x);
    ValidTail(x);
    var body := HeadText(x) + TailText(x);
    assert body[..19] == HeadText(x) && body[19..] == TailText(x);
    assert FullMatch(body);
    if x.newline {
      assert Render(x)[..|Render(x)| - 1] == body;
    } else {
      assert Render(x) == body;
    }
  }

  function ZoneOf(z: string): (r: ZoneShape)
    requires Zone(z)
    ensures ValidZone(r) && ZoneText(r) == z
  {
    if z == "" then NoZone
    else if |z| == 1 then Utc(z[0])
    else
      assert AllDigits(z[1..3]) && AllDigits(z[4..6]);
      Offset(z[0], z[1..3], z[4..6])
  }

  lemma HeadParts(s: string)
    requires |s| >= 19 && Head(s[..19])
    ensures AllDigits(s[0..4]) && AllDigits(s[5..7]) && AllDigits(s[8..10]) && (s[10] == 'T' || s[10] == 't')
    ensures AllDigits(s[11..13]) && AllDigits(s[14..16]) && AllDigits(s[17..19])
  {
    var h := s[..19];
    assert h[0..4] == s[0..4] && h[5..7] == s[5..7] && h[8..10] == s[8..10];
    assert h[11..13] == s[11..13] && h[14..16] == s[14..16] && h[17..19] == s[17..19];
  }

  /** The fraction and zone parts of what follows the seconds. */
  function TailOf(t: string): (r: (Option<string>, ZoneShape))
    requires FractionAndZone(t)
    ensures r.0.Some? ==> |r.0.value| >= 1 && AllDigits(r.0.value)
    ensures ValidZone(r.1)
    ensures (if r.0.Some? then "." + r.0.value else "") + ZoneText(r.1) == t
  {
    if t != [] && t[0] == '.' then
      var n := LeadingDigits(t[1..]);
      var z := ZoneOf(t[1 + n..]);
      assert "." + t[1..][..n] + t[1 + n..] == t;
      (Some(t[1..][..n]), z)
    else (None, ZoneOf(t))
  }

  function HeadOf(s: string, fraction: Option<string>, zone: ZoneShape, newline: bool): Iso8601
    requires |s| >= 19
  {
    Iso8601(s[0..4], s[5..7], s[8..10], s[10], s[11..13], s[14..16], s[17..19], fraction, zone, newline)
  }

  lemma HeadOfText(s: string, fraction: Option<string>, zone: ZoneShape, newline: bool)
    requires |s| >= 19 && Head(s[..19])
    ensures HeadText(HeadOf(s, fraction, zone, newline)) == s[..19]
  {
    var h := HeadText(HeadOf(s, fraction, zone, newline));
    var x := HeadOf(s, fraction, zone, newline);
    assert s[4] == s[..19][4] == '-' && s[7] == s[..19][7] == '-';
    assert s[13] == s[..19][13] == ':' && s[16] == s[..19][16] == ':';
    assert s[..19] == s[0..4] + [s[4]] + s[5..7] + [s[7]] + s[8..10] + [s[10]] + s[11..13] + [s[13]] + s[14..16] + [s[16]] + s[17..19];
  }

  /** The grammar parts of a full match. */
  function Decompose(s: string, newline: bool): (x: Iso8601)
    requires FullMatch(s)
    ensures ValidIso8601(x) && x.newline == newline
    ensures HeadText(x) + TailText(x) == s
  {
    HeadParts(s);
    var tail := TailOf(s[19..]);
    var x := HeadOf(s, tail.0, tail.1, newline);
    HeadOfText(s, tail.0, tail.1, newline);
    assert TailText(x) == s[19..];
    assert s[..19] + s[19..] == s;
    x
  }

  /** ... and every string that passes it is a string of the grammar. */
  lemma MatchesIsRendered(s: string)
    requires MatchesIso8601(s)
    ensures exists x :: ValidIso8601(x) && Render(x) == s
  {
    if FullMatch(s) {
      var x := Decompose(s, false);
      RenderWithoutNewline(x);
      assert ValidIso8601(x) && Render(x) == s;
    } else {
      var x := Decompose(s[..|s| - 1], true);
      RenderWithNewline(x);
      DropNewline(s);
      assert ValidIso8601(x) && Render(x) == s;
    }
  }

  lemma RenderWithoutNewline(x: Iso8601)
    requires !x.newline
    ensures Render(x) == HeadText(x) + TailText(x)
  {
    assert HeadText(x) + TailText(x) + "" == HeadText(x) + TailText(x);
  }

  lemma RenderWithNewline(x: Iso8601)
    requires x.newline
    ensures Render(x) == HeadText(x) + TailText(x) + "\n"
  {
  }

  lemma DropNewline(s: string)
    requires |s| >= 1 && s[|s| - 1] == '\n'
    ensures s[..|s| - 1] + "\n" == s
  {
  }

  /** Concrete cases: a UTC time passes ... */
  lemma ShapeExampleUtc()
    ensures MatchesIso8601("2024-05-01T00:00:00Z")
  {
    var x := Iso8601("2024", "05", "01", 'T', "00", "00", "00", None, Utc('Z'), false);
    assert Render(x) == "2024-05-01T00:00:00Z";
    RenderMatches(x);
  }

  /** ... and so does an offset time with a fraction and a final newline ... */
  lemma ShapeExampleOffset()
    ensures MatchesIso8601("2024-05-01t00:00:00.123+02:00\n")
  {
    var y := Iso8601("2024", "05", "01", 't', "00", "00", "00", Some("123"), Offset('+', "02", "00"), true);
    assert HeadText(y) == "2024-05-01t00:00:00";
    assert TailText(y) == ".123+02:00";
    RenderWithNewline(y);
    assert Render(y) == "2024-05-01t00:00:00.123+02:00\n";
    RenderMatches(y);
  }

  /** ... a space separator or a bare date does not. */
  lemma ShapeCounterExamples()
    ensures !MatchesIso8601("2024-05-01 00:00:00")
    ensures !MatchesIso8601("2024-05-01")
  {
    var bad := "2024-05-01 00:00:00";
    assert bad[..19][10] == ' ';
  }

  /* ---------- _extract_datetime ---------- */

  /** What `_extract_datetime` stores for a value: its re-serialisation, or nothing when it is skipped. */
  function Canonical(lib: DateLib, v: Json): (r: Option<string>)
    ensures r.Some? ==> v.JStr? && MatchesIso8601(v.s) && lib.isoparse(v.s).Some?
    ensures r.Some? ==> r.value == lib.isoformat(AssumeUtc(lib.isoparse(v.s).value))
  {
    if v.JStr? && MatchesIso8601(v.s) then
      match lib.isoparse(v.s)
      case None => None
      case Some(d) => Some(lib.isoformat(AssumeUtc(d)))
    else None
  }

  /** The assignments `datetime_thor[key] = ...` the loop makes, in order. */
  function ExtractPairs(lib: DateLib, line: Dict<Json>): (r: Dict<string>)
    ensures forall k :: k in Keys(r) ==> k in Keys(line)
  {
    if line == [] then []
    else
      var rest := ExtractPairs(lib, line[1..]);
      match Canonical(lib, line[0].1)
      case Some(c) => [(line[0].0, c)] + rest
      case None => rest
  }

  function Extracted(lib: DateLib, line: Dict<Json>): Dict<string>
  {
    Update([], ExtractPairs(lib, line))
  }

  /** `_extract_datetime`. */
  method ExtractDatetime(lib: DateLib, thorJsonLine: Dict<Json>) returns (datetimeThor: Dict<string>)
    ensures datetimeThor == Extracted(lib, thorJsonLine)
  {
    datetimeThor := [];
    var i := 0;
    while i < |thorJsonLine|
      invariant 0 <= i <= |thorJsonLine|
      invariant Update(datetimeThor, ExtractPairs(lib, thorJsonLine[i..])) == Extracted(lib, thorJsonLine)
    {
      var key, value := thorJsonLine[i].0, thorJsonLine[i].1;
      assert thorJsonLine[i..][1..] == thorJsonLine[i + 1..];
      if value.JStr? && MatchesIso8601(value.s) {
        var parsed := lib.isoparse(value.s);
        if parsed.Some? {
          var timestamp := parsed.value;
          if timestamp.offset.None? {
            timestamp := DateTime(timestamp.wall, Some(0));
          }
          UpdateStep(datetimeThor, ExtractPairs(lib, thorJsonLine[i..]));
          datetimeThor := Set(datetimeThor, key, lib.isoformat(timestamp));
        }
      }
      i := i + 1;
    }
  }

  /** Only top-level keys of the record can appear in the result. */
  lemma ExtractedKeysSubset(lib: DateLib, line: Dict<Json>, k: string)
    requires k in Keys(Extracted(lib, line))
    ensures k in Keys(line)
  {
  }

  lemma {:induction false} ExtractPairsGet(lib: DateLib, line: Dict<Json>, k: string)
    requires DistinctKeys(line)
    ensures Get(ExtractPairs(lib, line), k) == Canonical(lib, GetOrNone(line, k))
    ensures DistinctKeys(ExtractPairs(lib, line))
  {
    if line != [] {
      ExtractPairsGet(lib, line[1..], k);
      if Canonical(lib, line[0].1).Some? {
        var rest := ExtractPairs(lib, line[1..]);
        assert Keys([(line[0].0, Canonical(lib, line[0].1).value)] + rest) == [line[0].0] + Keys(rest);
      }
    }
  }

  /**
   * For a record with distinct keys, key `k` is in the result exactly when
   * its value is a string of the ISO 8601 shape that parses, and it then
   * holds the re-serialised value, with UTC assumed for a naive one. A value
   * of the right shape that does not parse is skipped without an error; a
   * value that is not a string never appears.
   */
  lemma ExtractedSpec(lib: DateLib, line: Dict<Json>, k: string)
    requires DistinctKeys(line)
    ensures Get(Extracted(lib, line), k) == Canonical(lib, GetOrNone(line, k))
    ensures k in Keys(Extracted(lib, line)) <==>
      k in Keys(line) && GetOrNone(line, k).JStr? && MatchesIso8601(GetOrNone(line, k).s)
      && lib.isoparse(GetOrNone(line, k).s).Some?
  {
    ExtractPairsGet(lib, line, k);
    GetLastDistinct(ExtractPairs(lib, line), k);
  }

  /** For a record with distinct keys, the result keeps the record's key order. */
  lemma ExtractedKeepsOrder(lib: DateLib, line: Dict<Json>)
    requires DistinctKeys(line)
    ensures Extracted(lib, line) == ExtractPairs(lib, line)
  {
    ExtractPairsGet(lib, line, "");
    assert [] + ExtractPairs(lib, line) == ExtractPairs(lib, line);
    UpdateAppend([], ExtractPairs(lib, line));
  }
}
