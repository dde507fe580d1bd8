/** Severities and findings: the values risk scoring and correlation exchange. */
module Findings {

  const INFORMATIONAL := "informational"
  const LOW_SEVERITY := "low"
  const MEDIUM_SEVERITY := "medium"
  const HIGH_SEVERITY := "high"
  const CRITICAL_SEVERITY := "critical"

  /** Ordinal position of a severity; unknown text ranks lowest. */
  function SeverityRank(s: string): nat {
    if s == LOW_SEVERITY then 1
    else if s == MEDIUM_SEVERITY then 2
    else if s == HIGH_SEVERITY then 3
    else if s == CRITICAL_SEVERITY then 4
    else 0
  }

  /** Evidential weight of one finding; unknown text weighs as much as "low". */
  function SeverityWeight(s: string): real {
    if s == INFORMATIONAL then 1.0
    else if s == MEDIUM_SEVERITY then 7.0
    else if s == HIGH_SEVERITY then 13.0
    else if s == CRITICAL_SEVERITY then 20.0
    else 3.0
  }

  datatype Finding = Finding(
    ruleID: string, category: string, severity: string, confidence: real,
    entityIDs: seq<string>, eventIDs: seq<string>, firstSeen: int, lastSeen: int)
}
