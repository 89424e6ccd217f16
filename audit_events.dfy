/**
 * `AuditEventsExtractor.extract_findings`: the findings of an audit-trail
 * record that carry a non-empty timestamps dict, as a generator.
 */
module AuditEvents {
  import opened Wrappers
  import opened Dicts
  import opened JsonValues
  import opened Errors
  import opened Seqs
  import Constants

  /** `isinstance(finding.get(AUDIT_TIMESTAMP), dict) and bool(...)`. */
  predicate HasTimestamps(finding: Dict<Json>)
  {
    var timestamps := GetOrNone(finding, Constants.AUDIT_TIMESTAMP);
    timestamps.JObj? && timestamps.fields != []
  }

  /** The number of leading items that are dicts: `finding.get` fails on the first other one. */
  function DictPrefix(items: seq<Json>): (n: nat)
    ensures n <= |items|
    ensures forall i | 0 <= i < n :: items[i].JObj?
    ensures n < |items| ==> !items[n].JObj?
  {
    Leading(items, IsDict)
  }

  predicate IsDict(j: Json)
  {
    j.JObj?
  }

  /** A finding as the dict it is (only applied to dicts). */
  function FieldsOf(j: Json): Dict<Json>
  {
    if j.JObj? then j.fields else []
  }

  /**
   * The generator's loop over a findings list: dicts with timestamps are
   * yielded unchanged and in order, the others skipped, until an item that
   * is not a dict raises `AttributeError`.
   */
  function ExtractFromList(items: seq<Json>): (r: Stream<Dict<Json>>)
    ensures r.items == Filter(Map(FieldsOf, items[..DictPrefix(items)]), HasTimestamps)
    ensures r.failure == if DictPrefix(items) == |items| then None else Some(PyError("AttributeError"))
  {
    if items == [] then Complete([])
    else if !items[0].JObj? then Stream([], Some(PyError("AttributeError")))
    else
      var rest := ExtractFromList(items[1..]);
      var n := DictPrefix(items[1..]);
      MapStep(items, n, FieldsOf);
      if HasTimestamps(items[0].fields) then Then([items[0].fields], rest) else rest
  }

  /**
   * `extract_findings`: `audit_json.get(AUDIT_FINDING) or []` iterated.
   * A falsy value yields nothing; a non-empty dict or string iterates
   * strings, on which `get` raises; any other truthy scalar is not
   * iterable.
   */
  function ExtractFindings(auditJson: Dict<Json>): (r: Stream<Dict<Json>>)
    ensures !Truthy(GetOrNone(auditJson, Constants.AUDIT_FINDING)) ==> r == Complete([])
    ensures GetOrNone(auditJson, Constants.AUDIT_FINDING).JArr? ==>
      r == ExtractFromList(GetOrNone(auditJson, Constants.AUDIT_FINDING).items)
    ensures var findings := GetOrNone(auditJson, Constants.AUDIT_FINDING);
      Truthy(findings) && (findings.JObj? || findings.JStr?) ==> r == Stream([], Some(PyError("AttributeError")))
    ensures var findings := GetOrNone(auditJson, Constants.AUDIT_FINDING);
      Truthy(findings) && (findings.JInt? || findings.JBool?) ==> r == Stream([], Some(PyError("TypeError")))
  {
    var value := GetOrNone(auditJson, Constants.AUDIT_FINDING);
    var findings := if Truthy(value) then value else JArr([]);
    match findings
    case JArr(items) => ExtractFromList(items)
    case JObj(_) => Stream([], Some(PyError("AttributeError")))
    case JStr(_) => Stream([], Some(PyError("AttributeError")))
    case _ => Stream([], Some(PyError("TypeError")))
  }

  /**
   * Everything yielded is one of the findings, unchanged, with a non-empty
   * timestamps dict, and the findings come out in list order.
   */
  lemma ExtractedFindings(items: seq<Json>)
    ensures forall f | f in ExtractFromList(items).items :: JObj(f) in items && HasTimestamps(f)
    ensures IsSubsequence(ExtractFromList(items).items, Map(FieldsOf, items[..DictPrefix(items)]))
  {
    var kept := items[..DictPrefix(items)];
    FilterIsSubsequence(Map(FieldsOf, kept), HasTimestamps);
    forall f | f in ExtractFromList(items).items
      ensures JObj(f) in items && HasTimestamps(f)
    {
      var i :| 0 <= i < |kept| && Map(FieldsOf, kept)[i] == f;
      assert kept[i] == items[i] == JObj(f);
    }
  }

  /** A list of dicts is read to the end, and every finding with timestamps is yielded. */
  lemma AllDictsRead(items: seq<Json>)
    requires forall i | 0 <= i < |items| :: items[i].JObj?
    ensures ExtractFromList(items).failure == None
    ensures forall i | 0 <= i < |items| && HasTimestamps(items[i].fields) :: items[i].fields in ExtractFromList(items).items
  {
    assert items[..DictPrefix(items)] == items;
    forall i | 0 <= i < |items| && HasTimestamps(items[i].fields)
      ensures items[i].fields in ExtractFromList(items).items
    {
      assert Map(FieldsOf, items)[i] == items[i].fields;
    }
  }
}
