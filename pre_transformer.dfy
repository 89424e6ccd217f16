/**
 * `JsonPreTransformer.pre_transform_thor_logs`: a THOR record passes
 * through as it is, an audit-trail record is replaced by its findings.
 */
module PreTransformation {
  import opened Wrappers
  import opened Dicts
  import opened JsonValues
  import opened Errors
  import opened AuditEvents
  import Constants

  /**
   * A record with a log version is yielded once, unchanged, even when it
   * also has findings; otherwise a record with findings yields what
   * `extract_findings` yields; any other record is yielded once, unchanged.
   */
  function PreTransformThorLogs(validJson: Dict<Json>): (r: Stream<Dict<Json>>)
    ensures Constants.LOG_VERSION in Keys(validJson) ==> r == Complete([validJson])
    ensures Constants.LOG_VERSION !in Keys(validJson) && Constants.AUDIT_FINDING in Keys(validJson) ==>
      r == ExtractFindings(validJson)
    ensures Constants.AUDIT_FINDING !in Keys(validJson) ==> r == Complete([validJson])
  {
    if Constants.LOG_VERSION in Keys(validJson) then Complete([validJson])
    else if Constants.AUDIT_FINDING in Keys(validJson) then ExtractFindings(validJson)
    else Complete([validJson])
  }

  /**
   * Whatever comes out is the record itself or one of its findings with a
   * non-empty timestamps dict, and a record that is not an audit trail
   * (it has a log version, or no findings) comes out exactly once.
   */
  lemma PreTransformYields(validJson: Dict<Json>)
    ensures forall f | f in PreTransformThorLogs(validJson).items ::
      f == validJson || (HasTimestamps(f) && JObj(f) in GetOrNone(validJson, Constants.AUDIT_FINDING).items)
    ensures Constants.LOG_VERSION in Keys(validJson) || Constants.AUDIT_FINDING !in Keys(validJson) ==>
      |PreTransformThorLogs(validJson).items| == 1 && PreTransformThorLogs(validJson).failure == None
  {
    var findings := GetOrNone(validJson, Constants.AUDIT_FINDING);
    if findings.JArr? {
      ExtractedFindings(findings.items);
    }
  }
}
