/**
 * String constants of the current package whose values are defined outside
 * the modelled files. They are left uninterpreted: every property proved
 * here holds whatever their values are, unless a lemma says otherwise.
 */
module Constants {
  /** Key holding the THOR log format version. */
  const LOG_VERSION: string
  /** Key of the findings list of an audit-trail record. */
  const AUDIT_FINDING: string
  /** Key of the info section of an audit-trail record. */
  const AUDIT_INFO: string
  /** Key of the timestamps entry of an audit-trail record or finding. */
  const AUDIT_TIMESTAMP: string
  /** Registry key of the audit-trail mapper. */
  const AUDIT_TRAIL: string
  /** First tag of a THOR event. */
  const THOR_TAG: string
  /** First tag of an event's additional tags. */
  const EXTRA_TAG: string
  /** Levels a generated filter configuration starts with. */
  const DEFAULT_LEVELS: seq<string>
}
