/**
 * `FilterProcessor`: the selectors read once from the filter configuration,
 * and the generator that keeps the `(mapper, event)` pairs they match.
 */
module FilterProcessing {
  import opened Wrappers
  import opened Dicts
  import opened JsonValues
  import opened Errors
  import opened Seqs
  import opened FindingsFilters
  import opened LogVersions
  import MapperJsonV1

  type Pair = (MapperClass, Dict<Json>)

  /**
   * The constructor: the selectors `read_filters_yaml` gives for the
   * loaded configuration file, if any, read from its `filters` entry.
   * Without a file every event passes; a file that is read gives a real
   * filter, which a missing or empty `filters` entry refuses.
   */
  function NewFilterProcessor(config: Option<Json>): (r: Result<FilterFindings, Error>)
    ensures config.None? ==> r.Success? && forall level, moduleField :: MatchesFilterCriteria(r.value, level, moduleField) == Success(true)
    ensures config.Some? && r.Success? ==> !r.value.acceptsAll
    ensures config.Some? && config.value.JObj? && !Truthy(GetOrNone(config.value.fields, "filters")) ==>
      r == Failure(FilterConfigError)
  {
    ReadFiltersSection(config)
  }

  /**
   * `matches_filter_criteria(*mapper.get_filterable_fields(event))`. Only
   * the v1 mapper can be instantiated, so its getter is the one used.
   */
  function Criteria(selectors: FilterFindings, pair: Pair): Result<bool, Error>
  {
    var fields := MapperJsonV1.GetFilterableFields(pair.1);
    MatchesFilterCriteria(selectors, fields.0, fields.1)
  }

  /** The pairs the selectors accept. */
  function Matcher(selectors: FilterFindings): Pair -> bool
  {
    pair => Criteria(selectors, pair) == Success(true)
  }

  /** The number of leading pairs whose criteria can be evaluated. */
  function Evaluable(selectors: FilterFindings, events: seq<Pair>): (n: nat)
    ensures n <= |events|
    ensures forall i | 0 <= i < n :: Criteria(selectors, events[i]).Success?
    ensures n < |events| ==> Criteria(selectors, events[n]).Failure?
  {
    Leading(events, Evaluates(selectors))
  }

  /** The pairs whose criteria can be evaluated. */
  function Evaluates(selectors: FilterFindings): Pair -> bool
  {
    pair => Criteria(selectors, pair).Success?
  }

  /**
   * `filter`: the matching pairs, unchanged and in order; a pair that does
   * not match is skipped, and a field the criteria cannot lower-case ends
   * the stream with the criteria's error.
   */
  function Filtered(selectors: FilterFindings, events: seq<Pair>): (r: Stream<Pair>)
    ensures r.failure.None? <==> Evaluable(selectors, events) == |events|
    ensures r.failure.Some? ==> Criteria(selectors, events[Evaluable(selectors, events)]) == Failure(r.failure.value)
  {
    if events == [] then Complete([])
    else
      match Criteria(selectors, events[0])
      case Failure(e) => Stream([], Some(e))
      case Success(b) =>
        var rest := Filtered(selectors, events[1..]);
        if b then Then([events[0]], rest) else rest
  }

  /** What is yielded is the filter of the pairs read before the stream ends. */
  lemma {:induction false} FilteredItems(selectors: FilterFindings, events: seq<Pair>)
    ensures Filtered(selectors, events).items == Filter(events[..Evaluable(selectors, events)], Matcher(selectors))
  {
    if events != [] && Criteria(selectors, events[0]).Success? {
      FilteredItems(selectors, events[1..]);
      FilterStep(events, Evaluable(selectors, events[1..]), Matcher(selectors));
    }
  }

  /** Whatever is yielded is an input pair, unchanged, that the selectors match, and the order is kept. */
  lemma FilteredSound(selectors: FilterFindings, events: seq<Pair>)
    ensures forall p | p in Filtered(selectors, events).items :: p in events && Criteria(selectors, p) == Success(true)
    ensures IsSubsequence(Filtered(selectors, events).items, events[..Evaluable(selectors, events)])
  {
    FilteredItems(selectors, events);
    FilterIsSubsequence(events[..Evaluable(selectors, events)], Matcher(selectors));
  }

  /** Criteria that never fail keep exactly the matching pairs. */
  lemma FilteredComplete(selectors: FilterFindings, events: seq<Pair>)
    requires forall i | 0 <= i < |events| :: Criteria(selectors, events[i]).Success?
    ensures Filtered(selectors, events).failure == None
    ensures forall p | p in events :: p in Filtered(selectors, events).items <==> Criteria(selectors, p) == Success(true)
  {
    FilteredItems(selectors, events);
    assert events[..Evaluable(selectors, events)] == events;
  }

  /** Without a filter configuration every pair passes, unchanged and in order. */
  lemma NoFilterKeepsAll(events: seq<Pair>)
    ensures NewFilterProcessor(None).Success?
    ensures Filtered(NewFilterProcessor(None).value, events) == Complete(events)
  {
    var selectors := NewFilterProcessor(None).value;
    FilteredItems(selectors, events);
    assert events[..Evaluable(selectors, events)] == events;
    FilterAll(events, Matcher(selectors));
  }
}
