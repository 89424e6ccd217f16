# THOR log normalisation, modelled in Dafny

This project models the part of thor2timesketch that turns decoded THOR scanner
records into Timesketch timeline events. It proves properties of that model.
It covers both generations of the code.

**The legacy package (`thor_ts_mapper`)**
- The breadth-first JSON flattener. Nested keys are joined with `_`. List
  positions get bijective base-26 letter names.
- The ISO 8601 shape test and the timestamp extractor over a flat record.
- The early fan-out mapper, which emits one event per extra timestamp.
- The prefix-based version dispatcher.

**The current package (`src/thor2timesketch`)**
- `MappedEvent` and the dict it serialises to.
- The v1 field getters.
- The base mapper's fan-out into a scan event plus one event per kept
  timestamp.
- The case-insensitive version registry, with its audit-trail fallback.
- The level/module findings filter, and how it reads its configuration.
- The audit-trail selector.
- The filter-configuration builder, which parses "Selected modules:" messages.
- The audit-trail normaliser.
- The audit-finding expansion.
- The stream stages that resolve, filter and map records.

**How the model represents things**
- A JSON value is the datatype `JsonValues.Json`. An object is an ordered
  sequence of key/value pairs, because Python dict insertion order shows up
  in the result.
  - `Dicts` gives dict lookup, assignment, `pop` and `update` on these
    sequences: an assignment replaces a key in place or appends it.
  - `JNull` stands for both JSON `null` and Python `None`.
- A generator is a `Stream`: the items it yields, then the exception that
  ended it, if any.
- Exceptions are the `Errors.Error` datatype. It mirrors
  `src/thor2timesketch/exceptions.py:51-71`, plus the Python built-ins the
  code can raise (`AttributeError`, `TypeError`, `ValueError`).
- Date parsing and formatting (`dateutil.parser.isoparse`, `isoformat`) are
  the parameter `Dates.DateLib`.
  - The date-time value itself is concrete: a wall-clock reading and an
    optional UTC offset.
  - This makes `==`, Python's comparison of naive and aware date-times,
    exact: `Dates.SameInstant`.
- `Constants` holds the string constants whose values live in a module
  outside this model (`LOG_VERSION`, `AUDIT_FINDING`, …). They are left
  uninterpreted, so every result holds whatever their values are.
- Where the current code calls a module that is not part of this model, it
  becomes a function parameter. These are the record flattener
  (`utils/json_flattener`) and the timestamp extractor's `extract`.
- Classes whose fields the source updates in place are Dafny classes:
  - `MappedEvents.MappedEvent`;
  - the registry `LogVersions.JsonLogVersion`;
  - the caller's dict in `Normalizers.AuditTrailNormalizer.Normalize`.

  The loops of the source are methods with loop invariants. Each method is
  proved equal to a specification function, and the properties are lemmas
  about that function.
- The fan-out in the base mapper keeps an extracted timestamp only when it
  differs from the scan time in BOTH instant and path
  (`src/thor2timesketch/mappers/mapper_json_base.py:31`). The model follows
  the code; see `MapperJsonBase.MapThorEventsOutcome`.

## Model

| member | source | states |
|---|---|---|
| `LegacyFlattener.Letters` | thor_ts_mapper/thor_json_flattener.py:15-21 | The name of a list position is non-empty and uses only the letters A to Z. |
| `LegacyFlattener.IndexToLetter` | thor_ts_mapper/thor_json_flattener.py:15-21 | The `divmod` loop returns the bijective base-26 numeral of `index + 1`; a negative index gives the empty string. |
| `LegacyFlattener.FromToBijective26` | thor_ts_mapper/thor_json_flattener.py:15-21 | Decoding a numeral gives back the number it encodes. |
| `LegacyFlattener.ToFromBijective26` | thor_ts_mapper/thor_json_flattener.py:15-21 | Every string of capital letters is the numeral of some number, so the encoding is onto. |
| `LegacyFlattener.LettersInjective` | thor_ts_mapper/thor_json_flattener.py:15-21 | Distinct list positions get distinct names. |
| `LegacyFlattener.LettersExamples` | thor_ts_mapper/thor_json_flattener.py:15-21 | Positions 0, 25, 26 and 27 are named A, Z, AA and AB. |
| `LegacyFlattener.EnqueueFields` | thor_ts_mapper/thor_json_flattener.py:35-37 | A dict's entries join the back of the queue in dict order. Each gets `path + "_" + key`, or its bare key at the top level. |
| `LegacyFlattener.EnqueueItems` | thor_ts_mapper/thor_json_flattener.py:38-42 | A list's items join the back of the queue in order. Item i gets `path + "_" + letters(i)`. |
| `LegacyFlattener.FlattenJsonl` | thor_ts_mapper/thor_json_flattener.py:23-51 | The queue loop computes exactly the breadth-first assignment order applied to an empty dict. `None` gives `{}`. |
| `LegacyFlattener.BfsIsPermutationOfLeaves` | thor_ts_mapper/thor_json_flattener.py:31-44 | The breadth-first walk assigns exactly the (path, leaf) pairs of a depth-first reference walk, as a multiset. |
| `LegacyFlattener.BfsStoresScalars` | thor_ts_mapper/thor_json_flattener.py:43-44 | Only values that are neither dicts nor lists are ever assigned. |
| `LegacyFlattener.FlattenNone` | thor_ts_mapper/thor_json_flattener.py:24-26 | A `None` record flattens to the empty dict. |
| `LegacyFlattener.FlattenLastWins` | thor_ts_mapper/thor_json_flattener.py:28-44 | The result has distinct keys. Each key holds the value of the last walk step that assigned it. |
| `LegacyFlattener.FlattenSound` | thor_ts_mapper/thor_json_flattener.py:34-44 | Every entry of the result is a leaf of the input, stored unchanged under its path. |
| `LegacyFlattener.FlattenComplete` | thor_ts_mapper/thor_json_flattener.py:31-44 | Every leaf path of a non-`None` input is a key of the result. |
| `LegacyFlattener.FlattenFlatIdentity` | thor_ts_mapper/thor_json_flattener.py:34-44 | A dict whose values are all scalars flattens to itself. |
| `LegacyFlattener.FlattenNestedKeys` | thor_ts_mapper/thor_json_flattener.py:36 | A nested dict of scalars under key k gives keys `k + "_" + child`, in order. |
| `LegacyFlattener.FlattenListKeys` | thor_ts_mapper/thor_json_flattener.py:38-42 | A list of scalars under key k gives keys `k + "_" + letters(i)`, with the items unchanged and in order. |
| `LegacyFlattener.EmptyContainersVanish` | thor_ts_mapper/thor_json_flattener.py:34-42 | An empty dict or list anywhere in the queue contributes no key. |
| `LegacyFlattener.CollisionExample` | thor_ts_mapper/thor_json_flattener.py:44 | On a key collision the leaf dequeued later overwrites the earlier one. |
| `LegacyTimestamps.RenderMatches` | thor_ts_mapper/thor_timestamp_extractor.py:11 | Every string of the ISO 8601 grammar passes the shape test. The grammar allows an optional fraction, an optional zone, `T`/`Z` in either case and one final newline. |
| `LegacyTimestamps.MatchesIsRendered` | thor_ts_mapper/thor_timestamp_extractor.py:11 | Every string that passes the shape test is a string of that grammar. |
| `LegacyTimestamps.ShapeExampleUtc` | thor_ts_mapper/thor_timestamp_extractor.py:11 | `2024-05-01T00:00:00Z` passes the shape test. |
| `LegacyTimestamps.ShapeExampleOffset` | thor_ts_mapper/thor_timestamp_extractor.py:11 | A lower-case `t`, a fraction, an offset and a final newline pass the shape test. |
| `LegacyTimestamps.ShapeCounterExamples` | thor_ts_mapper/thor_timestamp_extractor.py:11 | A space separator and a bare date fail the shape test. |
| `LegacyTimestamps.Canonical` | thor_ts_mapper/thor_timestamp_extractor.py:18-23 | A value is stored only when it is a string that passes the shape test and parses. It is stored as its re-serialisation, with UTC given to a naive value. |
| `LegacyTimestamps.ExtractDatetime` | thor_ts_mapper/thor_timestamp_extractor.py:14-27 | The loop's dict equals the specification `Extracted`: the canonical values assigned in record order. |
| `LegacyTimestamps.ExtractedKeysSubset` | thor_ts_mapper/thor_timestamp_extractor.py:17-23 | Only top-level keys of the record appear in the result. |
| `LegacyTimestamps.ExtractedSpec` | thor_ts_mapper/thor_timestamp_extractor.py:17-25 | A key is in the result iff its value is a string of the ISO 8601 shape that parses, and it then holds the canonical value. Unparseable values are skipped without an error. |
| `LegacyTimestamps.ExtractedKeepsOrder` | thor_ts_mapper/thor_timestamp_extractor.py:17-23 | The result keeps the record's key order. |
| `LegacyMapper.ScanTime` | thor_ts_mapper/thor_timesketch_mapper.py:21 | The popped scan time is the extracted `time` value, or `None` iff there is none. |
| `LegacyMapper.Passthrough` | thor_ts_mapper/thor_timesketch_mapper.py:35-38 | The copied fields are exactly the record's fields other than `message`, `time` and the event's own key. |
| `LegacyMapper.Events` | thor_ts_mapper/thor_timesketch_mapper.py:20-50 | With no timestamps besides `time` there is exactly one event, the scan-time event. Otherwise there is one event per remaining timestamp, in extraction order, and no scan-time event. |
| `LegacyMapper.MapAndCategorize` | thor_ts_mapper/thor_timesketch_mapper.py:15-53 | The result is the single entry `{"TBD": events}`, with the events above. |
| `LegacyMapper.TimestampEventLoop` | thor_ts_mapper/thor_timesketch_mapper.py:27-39 | The loop appends one event per timestamp, in order. |
| `LegacyMapper.BuildTimestampEvent` | thor_ts_mapper/thor_timesketch_mapper.py:29-38 | The loop body builds the four core fields and then applies the passthrough update. |
| `LegacyMapper.TimestampEventFields` | thor_ts_mapper/thor_timesketch_mapper.py:29-38 | The fields of a timestamp event: `message` is never overridden, and copied record fields win over the core fields. `timestamp_desc` is `module + " - " + key` and `time_thor_scan` is the scan time unless a record field overrides them. The event's own key is not copied. |
| `LegacyMapper.ScanEventFields` | thor_ts_mapper/thor_timesketch_mapper.py:41-49 | The scan-time event is dated by the scan time and described as the scan execution, unless the record overrides those fields. It carries every record field except `message` and `time`. |
| `LegacyVersion.SelectMapper` | thor_ts_mapper/thor_json_log_version.py:12-21 | The class chosen: a "v1" prefix in either case selects the V2 mapper, and "v3" selects V3. Any other string raises `ValueError`. A missing or non-string version raises `AttributeError`. |
| `LegacyVersion.GetMapper` | thor_ts_mapper/thor_json_log_version.py:11-21 | As written, the chosen class is instantiated. `THORMapperJsonV2` implements none of `THORMapperJson`'s four abstract methods (thor_ts_mapper/thor_mapper_json.py:23-37, thor_ts_mapper/thor_mapper_json_v2.py:6-10), so a "v1" version raises `TypeError`. A "v3" version yields V3, any other string raises `ValueError`, and a missing or non-string version raises `AttributeError`. |
| `LegacyVersion.LegacyInstantiationFinding` | thor_ts_mapper/thor_json_log_version.py:13-15 | The record `{"log_version": "v1.0.0"}` selects the V2 class, and instantiating it raises `TypeError`. |
| `LegacyVersion.GetMapperPrefixOnly` | thor_ts_mapper/thor_json_log_version.py:12-18 | Versions whose first two characters agree ignoring case choose alike, and have the same outcome as written. |
| `Dates.AssumeUtc` | thor_ts_mapper/thor_timestamp_extractor.py:21-22 | An aware value is kept. A naive value gets offset 0, so its instant is its wall-clock reading. |
| `Dates.SameInstantEquivalence` | src/thor2timesketch/utils/timestamp_extractor.py:13 | The date-time comparison is reflexive, symmetric and transitive. |
| `Dates.SameInstantExamples` | src/thor2timesketch/utils/timestamp_extractor.py:13 | 10:00 UTC equals 12:00 at +02:00, but a naive 10:00 equals no aware value. |
| `Dates.IsSameTimestamp` | src/thor2timesketch/utils/timestamp_extractor.py:9-18 | It raises `MappingError` iff either string fails to parse. Otherwise it gives the date-time comparison of the parsed values. |
| `MappedEvents.CoreDict` | src/thor2timesketch/mappers/mapped_event.py:16-20 | The dict starts as `message`, `datetime`, `timestamp_desc`, in that order, with the event's values. |
| `MappedEvents.WithScanTime` | src/thor2timesketch/mappers/mapped_event.py:16-22 | Its keys are exactly `message`, `datetime`, `timestamp_desc`, then `time_thor_scan` iff the event has one. |
| `MappedEvents.EventDict` | src/thor2timesketch/mappers/mapped_event.py:15-24 | An additional field holds the last value merged for it, over any core key of the same name. A core key that no additional field names holds its core value. There are no other keys: the three core keys, `time_thor_scan` iff the event has one, and the additional fields. |
| `MappedEvents.MappedEvent.constructor` | src/thor2timesketch/mappers/mapped_event.py:5-10 | A new event holds the given fields and no additional fields. |
| `MappedEvents.MappedEvent.AddAdditional` | src/thor2timesketch/mappers/mapped_event.py:12-13 | It merges into the additional fields, later values winning. Nothing else changes. |
| `MappedEvents.MappedEvent.ToDict` | src/thor2timesketch/mappers/mapped_event.py:15-24 | The stepwise build returns `EventDict` of the event's state, and the event is left unchanged. |
| `MappedEvents.EventDictKeys` | src/thor2timesketch/mappers/mapped_event.py:16-23 | Whatever the additional fields hold, the event dict starts with `message`, `datetime` and `timestamp_desc`. |
| `MapperJsonV1.GetMessage` | src/thor2timesketch/mappers/mapper_json_v1.py:16-22 | It returns the message iff the message is a string. Otherwise it raises `MappingError`. |
| `MapperJsonV1.GetTimestampDesc` | src/thor2timesketch/mappers/mapper_json_v1.py:24-30 | No field, or the `time` field, gives "THOR scan timestamp". Any other path gives `module + " - " + path`, and raises `MappingError` iff the module is missing. |
| `MapperJsonV1.TimestampDescDistinct` | src/thor2timesketch/mappers/mapper_json_v1.py:24-30 | Different paths get different descriptions, and none of them is the scan description. |
| `MapperJsonV1.GetAdditionalFieldsAsWritten` | src/thor2timesketch/mappers/mapper_json_v1.py:32-37 | As written, the comprehension keeps exactly the keys that are not substrings of "time". |
| `MapperJsonV1.SubstringsOfTime` | src/thor2timesketch/mappers/mapper_json_v1.py:35 | The written test drops exactly 11 keys: the substrings of "time", the empty one included. |
| `MapperJsonV1.AdditionalFieldsAsWrittenLosesField` | src/thor2timesketch/mappers/mapper_json_v1.py:32-37 | A field named "e" is dropped as written but kept by the corrected getter. |
| `MapperJsonV1.GetAdditionalFields` | src/thor2timesketch/mappers/mapper_json_v1.py:32-37 | Corrected getter: every record field except `time`, with its value and in record order. Distinct keys stay distinct. |
| `MapperJsonV1.GetThorTimestamp` | src/thor2timesketch/mappers/mapper_json_v1.py:39-45 | It returns a field with path "time" and the record's value iff `time` is a string. Otherwise it raises `TimestampError`. |
| `MapperJsonV1.GetThorTags` | src/thor2timesketch/mappers/mapper_json_v1.py:47-51 | `[THOR_TAG, level]`, or `MappingError` iff the level is missing. |
| `MapperJsonV1.GetAdditionalTags` | src/thor2timesketch/mappers/mapper_json_v1.py:53-57 | `[EXTRA_TAG, level]`, or `MappingError` iff the level is missing. |
| `MapperJsonV1.GetFilterableFields` | src/thor2timesketch/mappers/mapper_json_v1.py:59-62 | Level and module as stored, `None` where absent. It never fails. |
| `MapperJsonBase.ScanEventValue` | src/thor2timesketch/mappers/mapper_json_base.py:42-48 | The scan event has the message, the scan time, the scan description, no `time_thor_scan`, and the additional fields. It fails with the error of the first getter that fails. |
| `MapperJsonBase.AdditionalEventValue` | src/thor2timesketch/mappers/mapper_json_base.py:51-60 | An extra event has the field's own time, the field's description, the scan time as `time_thor_scan`, and the same message and additional fields. |
| `MapperJsonBase.KeptTimestamps` | src/thor2timesketch/mappers/mapper_json_base.py:31 | One unparseable date anywhere raises `MappingError`. Otherwise the kept timestamps are exactly those differing from the scan time in both instant and path, in extraction order. |
| `MapperJsonBase.CreateThorScanEvent` | src/thor2timesketch/mappers/mapper_json_base.py:42-48 | The object it builds holds `ScanEventValue`, or it fails with the same error. |
| `MapperJsonBase.CreateAdditionalTimestampEvent` | src/thor2timesketch/mappers/mapper_json_base.py:51-60 | The object it builds holds `AdditionalEventValue`, or it fails with the same error. |
| `MapperJsonBase.MapThorEvents` | src/thor2timesketch/mappers/mapper_json_base.py:19-40 | The append loop returns exactly `MapThorEventsSpec`: the scan event's dict, then one dict per kept timestamp, or the first error. |
| `MapperJsonBase.AdditionalTimestampEvents` | src/thor2timesketch/mappers/mapper_json_base.py:33-37 | The loop over kept timestamps appends their dicts in order and stops at the first failing one. |
| `MapperJsonBase.AdditionalEventValuesSpec` | src/thor2timesketch/mappers/mapper_json_base.py:51-60 | The extra events exist iff there are none, or the record has a message, a module and a scan time. Each has its field's time, `module + " - " + path` and the scan time. |
| `MapperJsonBase.AdditionalEventValuesEach` | src/thor2timesketch/mappers/mapper_json_base.py:35-37 | Extra event i is the one built for kept timestamp i. |
| `MapperJsonBase.MapThorEventsOutcome` | src/thor2timesketch/mappers/mapper_json_base.py:24-40 | A missing or non-string scan time raises `TimestampError` before anything else. It succeeds iff there is a message, every date parses, and a module exists whenever a timestamp is kept. |
| `MapperJsonBase.KeptPaths` | src/thor2timesketch/mappers/mapper_json_base.py:31 | No kept timestamp sits at the scan time's own path. |
| `MapperJsonBase.RecordFieldsCopied` | src/thor2timesketch/mappers/mapper_json_base.py:47 | Every record field except `time` appears in each event dict with the record's value. This holds even over the event's own core keys. |
| `MapperJsonBase.EventDictCore` | src/thor2timesketch/mappers/mapper_json_base.py:43-47 | A record without fields named `datetime`, `timestamp_desc` or `time_thor_scan` overrides none of them. |
| `MapperJsonBase.MapThorEventsDicts` | src/thor2timesketch/mappers/mapper_json_base.py:24-40 | The first dict has the scan time, the scan description and no `time_thor_scan`. There are 1 + kept dicts in all, and each extra one has its field's time and the scan time. |
| `MapperJsonBase.ValuesShape` | src/thor2timesketch/mappers/mapper_json_base.py:26-40 | The events are the scan event followed by one extra event per kept timestamp, in extraction order. |
| `LogVersions.AbstractMethods` | src/thor2timesketch/mappers/mapper_json_base.py:66-83 | What a mapper class leaves abstract is among the base's abstract methods. The v1 class leaves exactly `check_thor_log`. |
| `LogVersions.Construct` | src/thor2timesketch/mappers/mapper_json_base.py:11 | Python instantiates an abstract-base subclass iff no abstract method is left. Otherwise it raises `TypeError`. |
| `LogVersions.InstantiateAsWritten` | src/thor2timesketch/mappers/json_log_version.py:33 | As written, `thor_mapper()` raises `TypeError` for every class. |
| `LogVersions.Instantiate` | src/thor2timesketch/mappers/json_log_version.py:33 | Corrected instantiation: it succeeds iff the class implements every getter, which holds only for the v1 mapper. |
| `LogVersions.ResolveVersion` | src/thor2timesketch/mappers/json_log_version.py:22-32 | A string version resolves iff its lower-cased form is registered. `None` means the audit trail iff the record has an audit-timestamp key. Every other case raises `VersionError`. |
| `LogVersions.RegisteredLookup` | src/thor2timesketch/mappers/json_log_version.py:14-19 | After the decorators run, a lower-cased version maps to the class of the last decorator naming it in any case. A version no decorator names keeps its earlier entry. |
| `LogVersions.JsonLogVersion.constructor` | src/thor2timesketch/mappers/json_log_version.py:11 | The registry starts as given. |
| `LogVersions.JsonLogVersion.LogVersion` | src/thor2timesketch/mappers/json_log_version.py:14-19 | The decorator stores the class under the lower-cased version, overwriting, and returns the class. |
| `LogVersions.JsonLogVersion.RegisterAll` | src/thor2timesketch/mappers/json_log_version.py:14-19 | Running the decorators in order leaves the registry `Registered(old, regs)`. |
| `LogVersions.JsonLogVersion.GetMapperForVersion` | src/thor2timesketch/mappers/json_log_version.py:21-33 | The lookup against the registry the object holds is `MapperForVersion`. |
| `LogVersions.MapperForVersion` | src/thor2timesketch/mappers/json_log_version.py:21-33 | Corrected lookup: it returns the v1 mapper iff the version resolves to it. An unresolved version raises `VersionError`; any other class raises `TypeError`. |
| `LogVersions.GetMapperForVersionAsWritten` | src/thor2timesketch/mappers/json_log_version.py:21-33 | As written, no record ever obtains a mapper. |
| `LogVersions.InstantiationFinding` | src/thor2timesketch/mappers/json_log_version.py:33 | A "v1.0.0" record resolves to the v1 class under its decorator. It is refused as written and instantiated as intended. |
| `LogVersions.CaseInsensitive` | src/thor2timesketch/mappers/json_log_version.py:30 | Versions that differ only in case resolve alike. |
| `LogVersions.VersionCollision` | src/thor2timesketch/mappers/mapper_json_v2.py:4 | The v1 and v2 classes both register "v1.0.0" in one registry, and the decorator that runs last owns the key. The registry is imported under two module paths. `src.thor2timesketch.mappers.json_log_version` is used by mapper_json_v2.py:2 and json_transformer.py:7. `thor2timesketch.mappers.json_log_version` is used by mapper_json_v1.py:4, mapper_processor.py:2, filter_processor.py:2 and filter_creator.py:9. The lemma is about the case where both paths name one module. |
| `FindingsFilters.NewFilter` | src/thor2timesketch/config/filter_findings.py:8-10 | Exactly the lower-casings of the given levels and modules are stored. Every given one is present lower-cased, and nothing else is stored. |
| `FindingsFilters.NullFilter` | src/thor2timesketch/config/filter_findings.py:66-70 | The null filter accepts every (level, module), whatever their types. |
| `FindingsFilters.Normalised` | src/thor2timesketch/config/filter_findings.py:75-76 | `None` stays `None` and a string is lower-cased. Anything else raises `AttributeError`. |
| `FindingsFilters.MatchesFilterCriteria` | src/thor2timesketch/config/filter_findings.py:72-81 | The truth table: levels only, the level decides; modules only, the module decides; both, both must match; neither, nothing matches. `None` never matches a configured side, and the null filter accepts all. |
| `FindingsFilters.LevelMatchIgnoresCase` | src/thor2timesketch/config/filter_findings.py:75-78 | Through the constructor, a level matches iff some configured level equals it ignoring case. |
| `FindingsFilters.StringItems` | src/thor2timesketch/config/filter_findings.py:26-30 | A falsy entry gives no items. A list gives its strings lower-cased, a non-empty dict its keys lower-cased, and a non-empty string its characters lower-cased. Non-iterable scalars raise `TypeError`. |
| `FindingsFilters.SectionGet` | src/thor2timesketch/config/filter_findings.py:33 | `.get` works on a dict only. On anything else it raises `AttributeError`. |
| `FindingsFilters.ReadFiltersYaml` | src/thor2timesketch/config/filter_findings.py:14-64 | The argument is the whole file the loader returned (src/thor2timesketch/config/yaml_config_reader.py:18-24). No file gives the null filter, and a falsy file raises `FilterConfigError`. Otherwise, reading at the file's top level, it gives levels and the modules `(include − exclude) ∪ (features include − exclude)`. It raises `FilterConfigError` iff both are empty. |
| `FindingsFilters.WrittenConfigRefused` | src/thor2timesketch/config/filter_findings.py:19-35 | As written, every configuration in the shape `FilterCreator` writes, with everything under `filters`, raises `AttributeError` at the top-level `modules` lookup. |
| `FindingsFilters.ReadFiltersSection` | src/thor2timesketch/config/filter_findings.py:14-64 | Corrected reading from the file's `filters` entry. No file gives the null filter, a file that is not a dict raises `AttributeError`, and a missing or empty entry raises `FilterConfigError`. Otherwise the entry's levels and effective modules are used, with `FilterConfigError` iff both are empty. |
| `FindingsFilters.WrittenConfigRead` | src/thor2timesketch/config/filter_creator.py:45-51 | A generated configuration reads back, through the corrected reader, to its levels lower-cased and `(modules include − exclude) ∪ (features include − exclude)` lower-cased. It is refused iff both are empty. |
| `AuditFilters.NewFilterAudit` | src/thor2timesketch/config/filter_audit.py:11-12 | Exactly the lower-casings of the given selectors are allowed. |
| `AuditFilters.NullFilterAudit` | src/thor2timesketch/config/filter_audit.py:27-29 | The null filter allows both selectors, lower-cased. |
| `AuditFilters.ReadFromYaml` | src/thor2timesketch/config/filter_audit.py:15-25 | No path, or an empty one, gives the null filter. Otherwise it gives the configured selectors, or both when the configured list is empty. |
| `AuditFilters.SelectorsOf` | src/thor2timesketch/config/filter_audit.py:20-22 | Errors: a file that is not a dict, or a non-dict `filters` entry, raises `AttributeError`. A missing `filters` entry, so `set(None)`, and a non-iterable selector entry raise `TypeError`. A list entry fails with `TypeError` when it holds a list or dict (unhashable), otherwise with `AttributeError` when it holds a non-string. Success: a list entry gives exactly its strings, a dict entry its keys, a string entry its characters. |
| `AuditFilters.GetAuditTrailSelector` | src/thor2timesketch/config/filter_audit.py:31-46 | Findings (a list) are chosen when allowed, over info. Info (a dict) is chosen when allowed and findings are not. The result is `None` iff neither applies. |
| `AuditFilters.NullFilterSelects` | src/thor2timesketch/config/filter_audit.py:36-41 | With lower-case constants, the null filter prefers findings, then info, then `None`. |
| `AuditFilters.UpperCaseSelectorNeverChosen` | src/thor2timesketch/config/filter_audit.py:36-46 | A selector constant with an upper-case letter is never chosen: the constants are compared unlowered against a lower-cased set. |
| `FilterCreation.InitialConfig` | src/thor2timesketch/config/filter_creator.py:45-51 | The initial config has the default levels and four empty lists. |
| `FilterCreation.ParseItems` | src/thor2timesketch/config/filter_creator.py:78-80 | No item is empty, has surrounding whitespace or contains a comma. |
| `FilterCreation.ParseItemsRoundTrip` | src/thor2timesketch/config/filter_creator.py:78-80 | The message `prefix + " " + ", ".join(items)` parses back to exactly its items, for items that are non-empty, stripped and comma-free. |
| `FilterCreation.MessageOf` | src/thor2timesketch/config/filter_creator.py:53 | A missing message is "". A non-string message raises `AttributeError` at `startswith`. |
| `FilterCreation.Step` | src/thor2timesketch/config/filter_creator.py:53-61 | One entry succeeds iff its message is readable. |
| `FilterCreation.PrefixesExclusive` | src/thor2timesketch/config/filter_creator.py:54-61 | A message starts with at most one of the four prefixes. |
| `FilterCreation.StepSpec` | src/thor2timesketch/config/filter_creator.py:53-61 | One entry extends exactly the list whose prefix starts its message, by the parsed items. The levels and the other lists are unchanged. |
| `FilterCreation.BuildSpec` | src/thor2timesketch/config/filter_creator.py:52-62 | Building succeeds iff every message is readable. Each list grows by the items the entries announce for it, in entry order. |
| `FilterCreation.BuildFiltersFromJsonThor` | src/thor2timesketch/config/filter_creator.py:40-62 | The loop over the first entry and then the rest yields the config that `Build` describes, as the nested dict, or its error. |
| `FilterProcessing.Evaluable` | src/thor2timesketch/transformation/filter_processor.py:14-16 | It counts the pairs read before the first one whose fields the criteria cannot lower-case. |
| `FilterProcessing.Filtered` | src/thor2timesketch/transformation/filter_processor.py:13-17 | The stream ends normally iff every pair can be evaluated. Otherwise it ends with the failing pair's error. |
| `FilterProcessing.NewFilterProcessor` | src/thor2timesketch/transformation/filter_processor.py:9-11 | Without a filter path every (level, module) passes. A configuration file that is read gives a real filter, and a missing or empty `filters` entry raises `FilterConfigError`. It uses the corrected `FindingsFilters.ReadFiltersSection`. |
| `FilterProcessing.FilteredItems` | src/thor2timesketch/transformation/filter_processor.py:14-17 | What is yielded is the filter of the pairs read, by the selectors' criteria. |
| `FilterProcessing.FilteredSound` | src/thor2timesketch/transformation/filter_processor.py:14-17 | Every yielded pair is an input pair, unchanged, that the selectors match. The output is an order-preserving subsequence. |
| `FilterProcessing.FilteredComplete` | src/thor2timesketch/transformation/filter_processor.py:14-17 | When the criteria never fail, a pair is yielded iff it matches, and the stream ends normally. |
| `FilterProcessing.NoFilterKeepsAll` | src/thor2timesketch/transformation/filter_processor.py:9-17 | Without a filter path the output is the input, unchanged and in order. |
| `JsonTransformation.GenerateMappedLogs` | src/thor2timesketch/transformation/json_transformer.py:31-48 | Any failure on a line ends the stream with `MappingError`. The stream ends normally iff every line maps. |
| `JsonTransformation.OneLine` | src/thor2timesketch/transformation/json_transformer.py:32-48 | One line gives its events, or `MappingError` with nothing yielded. |
| `JsonTransformation.GenerateAppend` | src/thor2timesketch/transformation/json_transformer.py:32-38 | The output is the concatenation, in line order, of each line's events. |
| `JsonTransformation.GeneratePrefix` | src/thor2timesketch/transformation/json_transformer.py:32-48 | What has been yielded stays yielded, as a prefix of the longer output, and nothing after a failing line is processed. |
| `JsonTransformation.TransformThorLogs` | src/thor2timesketch/transformation/json_transformer.py:20-29 | No valid lines raises `ProcessingError`. Otherwise the result is the mapped stream. |
| `MapperProcessing.MapLines` | src/thor2timesketch/transformation/mapper_processor.py:10-13 | At most one pair per line. The stream ends normally iff every line is paired. |
| `MapperProcessing.MapLinesPairs` | src/thor2timesketch/transformation/mapper_processor.py:11-13 | Pair i holds line i unchanged, with the mapper obtained for it. A failure is the error of the first unpaired line. |
| `MapperProcessing.MapLinesStops` | src/thor2timesketch/transformation/mapper_processor.py:12 | The stream stops at the first line whose version does not resolve, with `VersionError`. |
| `AuditEvents.DictPrefix` | src/thor2timesketch/utils/audit_events_extractor.py:10-11 | It counts the leading findings that are dicts, before the first item on which `.get` fails. |
| `AuditEvents.ExtractFromList` | src/thor2timesketch/utils/audit_events_extractor.py:10-13 | It yields the dict findings with a non-empty timestamps dict, in order, until a non-dict raises `AttributeError`. |
| `AuditEvents.ExtractFindings` | src/thor2timesketch/utils/audit_events_extractor.py:8-13 | A falsy findings value yields nothing, and a list is iterated. Truthy dicts and strings raise `AttributeError`; other truthy scalars raise `TypeError`. |
| `AuditEvents.ExtractedFindings` | src/thor2timesketch/utils/audit_events_extractor.py:10-13 | Everything yielded is one of the findings, unchanged, with timestamps. The output is an order-preserving subsequence. |
| `AuditEvents.AllDictsRead` | src/thor2timesketch/utils/audit_events_extractor.py:10-13 | A list of dicts is read to the end, and every finding with timestamps is yielded. |
| `PreTransformation.PreTransformThorLogs` | src/thor2timesketch/transformation/json_pre_transformer.py:9-16 | A record with a log version is yielded once and unchanged, even when it has findings. Otherwise a record with findings yields its findings. Any other record is yielded once. |
| `PreTransformation.PreTransformYields` | src/thor2timesketch/transformation/json_pre_transformer.py:9-16 | Everything yielded is the record or one of its findings with timestamps. A non-audit record yields exactly one item. |
| `Normalizers.IdentityNormalize` | src/thor2timesketch/utils/normalizer.py:13-16 | The record comes back unchanged. |
| `Normalizers.FlatteningNormalize` | src/thor2timesketch/utils/normalizer.py:18-21 | Exactly the delegated flattening. |
| `Normalizers.DetailField` | src/thor2timesketch/utils/normalizer.py:29 | A detail keeps its key unless the record has it, and then becomes `"Details_" + key`. |
| `Normalizers.AuditTrailOutcome` | src/thor2timesketch/utils/normalizer.py:23-34 | Without a non-empty `Details` dict, the record minus `Details` is both result and caller's dict. Otherwise `Timestamps` leaves the caller's dict, and the result is the flattening plus `Timestamps`. |
| `Normalizers.AuditTrailNormalizer.Normalize` | src/thor2timesketch/utils/normalizer.py:24-34 | It returns `AuditTrailOutcome(...).result` and leaves the caller's dict as `AuditTrailOutcome(...).record`. |
| `Normalizers.MergeDetailsSpec` | src/thor2timesketch/utils/normalizer.py:28-30 | Merging keeps every record key and value. It stores each detail under its key or `"Details_" + key`, and adds no other key. |
| `Normalizers.AuditTrailMerged` | src/thor2timesketch/utils/normalizer.py:24-34 | Fields are kept and details stored, as above. `Timestamps` is put back unflattened: the record's, a detail's, or `{}` when neither had one. No other key is added. |

## Left out

- Reading files, decoding JSON and YAML, the command line, logging, progress
  output and the Timesketch client. The YAML files are given to the filters
  already loaded.
- The flattener of the current package (`utils/json_flattener`) is not part of
  this model; it is the `flatten` parameter of the normalisers.
- `mapper_loader` is not part of this model. The registry is built by
  `JsonLogVersion.RegisterAll` from whatever decorators it is given.
- The timestamp extractor of the current package: `TimestampExtractor`
  declares `extract` abstract, and the base mapper calls an
  `extract_datetime` that it does not define. The extractor is the `extract`
  parameter of `MapperJsonBase`.
- The legacy mapper calls `ThorTimesketchMapper._extract_datetime`, which that
  class does not define. It is the `extract` parameter of
  `LegacyMapper.MapAndCategorize`.
- `dateutil.parser.isoparse` and `datetime.isoformat` are library code, taken
  as the `DateLib` parameter.
- Only the v1 mapper's getters are modelled. The v2 mapper defines constants
  only and the v3 mapper is commented out. The audit mapper calls its base
  with arguments it does not accept.
- `FilterCreator.generate_yaml_file`, `_load_default_config` and
  `_write_config`: they only read and write files.
- `Text.Lower` lower-cases ASCII letters only, and the shape test's `\d`
  accepts ASCII digits only. Python's Unicode case mapping and Unicode
  digits are not modelled.
- `Normalizers.AuditTrailNormalizer.Normalize` returns a value, so the model
  does not capture that the early return hands back the caller's own dict
  object.
- `Normalizers.AuditTrailMerged` requires that no `"Details_" + key` clashes with
  another key. Without that requirement, which value such a key ends up
  with depends on the order of the assignments.
- The flattener's `try`/`except` re-raise is not modelled: over JSON values
  nothing in its loop can raise.
- The exception messages are not modelled, only the exception classes.
- The current-package pipeline is built on the corrected members of the
  findings below.
  - `MapperJsonBase` builds every event's additional fields with the
    corrected `MapperJsonV1.GetAdditionalFields`.
  - `JsonTransformation` and `MapperProcessing` obtain mappers through the
    corrected `LogVersions.MapperForVersion`.
  - `FilterProcessing.Criteria` does not obtain a mapper. It calls
    `MapperJsonV1.GetFilterableFields` directly, because under the
    correction the v1 class is the only one that can be instantiated.
  - `FilterProcessing.NewFilterProcessor` reads its configuration with the
    corrected `FindingsFilters.ReadFiltersSection`.
  - So these rows state the intended behaviour, not the code as written:
    `MapperJsonBase.ScanEventValue`, `MapperJsonBase.AdditionalEventValue`,
    `MapperJsonBase.MapThorEvents`, `MapperJsonBase.RecordFieldsCopied`,
    `JsonTransformation.GenerateMappedLogs`, `MapperProcessing.MapLines`,
    `MapperProcessing.MapLinesPairs`, `FilterProcessing.Filtered` and
    `FilterProcessing.NewFilterProcessor`.
  - As written, no line ever obtains a mapper (`LogVersions.GetMapperForVersionAsWritten`).
  - As written, the record `{"time": t, "message": "m", "e": 1}` would give a
    scan event without `e` (`MapperJsonV1.AdditionalFieldsAsWrittenLosesField`).
  - As written, a generated filter configuration is refused
    (`FindingsFilters.WrittenConfigRefused`).
- The model has a single version registry. The source imports it under two
  module paths (see the `LogVersions.VersionCollision` row). If those paths
  name two modules, there are two registries. `_generate_mapped_logs`
  (json_transformer.py:7) would then see only the v2 registration of
  "v1.0.0". `MapperForVersion` refuses that class with `TypeError`, and the
  line ends in `MappingError`. `MapperProcessor` would see only the v1
  registration. The model does not capture that split.
- `Dates.DatetimeField` takes `path` as a string; `datetime_field.py:5`
  annotates it `List[str]`. That matches what the v1 getter builds
  (`mapper_json_v1.py:45` passes `"time"`), and the model assumes the
  extractor, which is not part of this model, returns string paths too.
  With list paths, Python's `ts.path != thor_timestamp.path` would always
  hold, so only the instant test would decide. The description would then
  show the list's `repr`. `MapperJsonBase.KeptTimestamps`,
  `MapperJsonBase.KeptPaths` and `MapperJsonV1.TimestampDescDistinct` rest on
  this assumption.
- `JsonValues.Repr` quotes strings with single quotes and does not escape
  them. Python's `repr` switches to double quotes when the string contains
  a single quote, and escapes backslashes and control characters. This
  reaches `MapperJsonV1.GetTimestampDesc` only for a non-string module
  that holds strings.
- `JsonValues.Json` has no floating-point case, so a record holding a
  number such as `1.5` is outside the model.

## Findings

| source | as written | input that shows it | evidently intended | confidence | as-written member | corrected member |
|---|---|---|---|---|---|---|
| src/thor2timesketch/mappers/mapper_json_v1.py:35 | `key not in ("time")` tests `key` for being a substring of the string "time", since the parentheses make no tuple | the record `{"e": 1}`: its field `e` is dropped from the additional fields | drop only the key `time` | not executed | `MapperJsonV1.GetAdditionalFieldsAsWritten`, `MapperJsonV1.AdditionalFieldsAsWrittenLosesField` | `MapperJsonV1.GetAdditionalFields` |
| src/thor2timesketch/mappers/json_log_version.py:33 | `thor_mapper()` instantiates an abstract-base subclass. Every mapper class leaves `check_thor_log` abstract, and `MapperJsonBase.__init__` instantiates the abstract `TimestampExtractor`, so Python raises `TypeError` | the record `{log_version: "v1.0.0"}` with the v1 decorator registered | the v1 mapper is obtained for a v1 record | not executed | `LogVersions.InstantiateAsWritten`, `LogVersions.GetMapperForVersionAsWritten`, `LogVersions.InstantiationFinding` | `LogVersions.Instantiate`, `LogVersions.MapperForVersion` |
| src/thor2timesketch/config/filter_findings.py:28-49 | `read_filters_yaml` reads `levels`, `modules` and `features` at the top level of what the loader returns, which is the whole file (src/thor2timesketch/config/yaml_config_reader.py:24), so `filter_section.get("modules")` is `None` and `.get("include")` raises `AttributeError` | the configuration `FilterCreator` writes, `{"filters": {"levels": [...], "modules": {...}, "features": {...}}}` | read the lists from the file's `filters` entry, as `FilterAudit.read_from_yaml` does (src/thor2timesketch/config/filter_audit.py:21) | not executed | `FindingsFilters.ReadFiltersYaml`, `FindingsFilters.WrittenConfigRefused` | `FindingsFilters.ReadFiltersSection`, `FindingsFilters.WrittenConfigRead` |
| thor_ts_mapper/thor_json_log_version.py:15 | `return THORMapperJsonV2()` instantiates a class that defines only field-name constants. The four `@abstractmethod`s of `THORMapperJson` are left, so Python raises `TypeError` | the record `{"log_version": "v1.0.0"}` | a v1 record gets a working V2 mapper, as the "v3" branch does with V3 | not executed | `LegacyVersion.GetMapper`, `LegacyVersion.LegacyInstantiationFinding` | `LegacyVersion.SelectMapper` |
